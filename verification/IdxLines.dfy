/** Record lines as the encoder builds them, and the proof that splitting one gives back its tag
    and every field. */
module IdxLines {
  import opened Atlas
  import opened IdxText

  /** A field as printed, and the value a reader gets. */
  datatype Item = Item(key: string, shown: string, value: string)

  function Shown(items: seq<Item>): string {
    if items == [] then ""
    else Shown(items[..|items| - 1]) + " " + items[|items| - 1].key + ":" + items[|items| - 1].shown
  }

  function Line(tag: string, items: seq<Item>): string {
    tag + Shown(items)
  }

  function PairsOf(items: seq<Item>): (r: seq<Pair>)
    ensures |r| == |items| && forall i :: 0 <= i < |items| ==> r[i] == Pair(items[i].key, items[i].value)
  {
    seq(|items|, i requires 0 <= i < |items| => Pair(items[i].key, items[i].value))
  }

  /** Any text, as `field` prints it. */
  function TextItem(key: string, value: string): Item {
    Item(key, Field(value), value)
  }

  /** An atom printed as it is. */
  function AtomItem(key: string, value: string): Item {
    Item(key, value, value)
  }

  // ---- What may be printed ----

  predicate PlainChar(c: char) {
    c != ' ' && c != '"'
  }

  /** An unquoted word: no blank and no quote. */
  predicate Plain(s: string) {
    forall i :: 0 <= i < |s| ==> PlainChar(s[i])
  }

  /** Outside quotes, scanning `s` only adds it to the current token. */
  ghost predicate Steady(s: string) {
    forall t: Scanner :: !t.quoted && !t.escaped ==> Scan(t, s) == t.(current := t.current + s)
  }

  /** `shown` stays in one token and is read as `value`. */
  ghost predicate Legible(i: Item) {
    Steady(i.shown) && ValueOf(i.shown) == Some(i.value)
  }

  predicate KeyLike(key: string) {
    Plain(key) && forall i :: 0 <= i < |key| ==> key[i] != ':'
  }

  ghost predicate Writable(tag: string, items: seq<Item>) {
    && tag != "" && Plain(tag)
    && forall i :: 0 <= i < |items| ==> KeyLike(items[i].key) && Legible(items[i])
  }

  // ---- Scanning what was printed ----

  lemma {:induction false} ScanAppend(t: Scanner, a: string, b: string)
    ensures Scan(t, a + b) == Scan(Scan(t, a), b)
    decreases |a|
  {
    if a == "" {
      assert a + b == b;
    } else {
      assert (a + b)[1..] == a[1..] + b;
      hide Step;
      ScanAppend(Step(t, a[0]), a[1..], b);
    }
  }

  lemma {:induction false} ScanPlain(t: Scanner, s: string)
    requires !t.quoted && !t.escaped && Plain(s)
    ensures Scan(t, s) == t.(current := t.current + s)
    decreases |s|
  {
    if s == "" {
      assert t.current + s == t.current;
    } else {
      assert PlainChar(s[0]);
      ScanPlain(Step(t, s[0]), s[1..]);
      assert t.current + [s[0]] + s[1..] == t.current + s;
    }
  }

  lemma PlainIsSteady(s: string)
    requires Plain(s)
    ensures Steady(s)
  {
    forall t: Scanner | !t.quoted && !t.escaped ensures Scan(t, s) == t.(current := t.current + s) {
      ScanPlain(t, s);
    }
  }

  /** Inside quotes, an escaped character comes through whole. */
  lemma ScanEscapedChar(t: Scanner, c: char)
    requires t.quoted && !t.escaped
    ensures Scan(t, EscapeChar(c)) == t.(current := t.current + EscapeChar(c))
  {
    var e := EscapeChar(c);
    hide Scan, Step;
    if |e| == 1 {
      ScanOne(t, e[0]);
      assert e == [e[0]];
    } else if |e| == 2 {
      ScanPair(t, e[1]);
      assert e == ['\\', e[1]];
    } else {
      ScanControl(t, c);
    }
  }

  lemma ScanControl(t: Scanner, c: char)
    requires t.quoted && !t.escaped && |EscapeChar(c)| == 6
    ensures Scan(t, EscapeChar(c)) == t.(current := t.current + EscapeChar(c))
  {
    var digits := "00" + [Hex(c as int / 16), Hex(c as int % 16)];
    HexRoundTrip(c as int / 16);
    HexRoundTrip(c as int % 16);
    assert EscapeChar(c) == ['\\', 'u'] + digits;
    var u := t.(current := t.current + ['\\', 'u']);
    ScanPair(t, 'u');
    ScanHex(u, digits);
    hide *;
    Sequel(t, ['\\', 'u'], u, digits);
  }

  lemma Sequel(t: Scanner, a: string, u: Scanner, b: string)
    requires u == t.(current := t.current + a) && Scan(t, a) == u && Scan(u, b) == u.(current := u.current + b)
    ensures Scan(t, a + b) == t.(current := t.current + (a + b))
  {
    hide Scan;
    ScanAppend(t, a, b);
    Regroup(t.current, a, b);
  }

  lemma ScanOne(t: Scanner, c: char)
    requires t.quoted && !t.escaped && c != '"' && c != '\\'
    ensures Scan(t, [c]) == t.(current := t.current + [c])
  {
    assert [c][1..] == "";
    assert Scan(Step(t, c), "") == Step(t, c);
  }

  lemma ScanPair(t: Scanner, c: char)
    requires t.quoted && !t.escaped
    ensures Scan(t, ['\\', c]) == t.(current := t.current + ['\\', c])
  {
    assert ['\\', c][1..] == [c] && [c][1..] == "";
    var u := Step(t, '\\');
    assert Scan(Step(u, c), "") == Step(u, c);
    assert t.current + ['\\'] + [c] == t.current + ['\\', c];
  }

  lemma {:induction false} ScanHex(t: Scanner, s: string)
    requires t.quoted && !t.escaped && forall i :: 0 <= i < |s| ==> BareChar(s[i])
    ensures Scan(t, s) == t.(current := t.current + s)
    decreases |s|
  {
    if s == "" {
      assert t.current + s == t.current;
    } else {
      assert BareChar(s[0]);
      ScanHex(Step(t, s[0]), s[1..]);
      assert t.current + [s[0]] + s[1..] == t.current + s;
    }
  }

  lemma {:induction false} ScanEscaped(t: Scanner, v: string)
    requires t.quoted && !t.escaped
    ensures Scan(t, Escaped(v)) == t.(current := t.current + Escaped(v))
    decreases |v|
  {
    hide EscapeChar, Step, Scan;
    if v == "" {
      ScanNothing(t);
    } else {
      ScanEscapedChar(t, v[0]);
      var u := t.(current := t.current + EscapeChar(v[0]));
      ScanEscaped(u, v[1..]);
      ScanAppend(t, EscapeChar(v[0]), Escaped(v[1..]));
      assert t.current + EscapeChar(v[0]) + Escaped(v[1..]) == t.current + (EscapeChar(v[0]) + Escaped(v[1..]));
    }
  }

  lemma ScanNothing(t: Scanner)
    ensures Scan(t, Escaped("")) == t.(current := t.current + Escaped(""))
  {
    assert t.current + "" == t.current;
  }

  lemma ScanQuote(t: Scanner)
    requires !t.escaped
    ensures Scan(t, "\"") == t.(current := t.current + "\"", quoted := !t.quoted)
  {
    assert "\""[1..] == "";
    assert Scan(Step(t, '"'), "") == Step(t, '"');
  }

  lemma ScanQuoted(t: Scanner, v: string)
    requires !t.quoted && !t.escaped
    ensures Scan(t, Quoted(v)) == t.(current := t.current + Quoted(v))
  {
    var open := Scanner(t.tokens, t.current + "\"", true, false);
    var inside := Scanner(t.tokens, open.current + Escaped(v), true, false);
    ScanQuote(t);
    ScanEscaped(open, v);
    ScanQuote(inside);
    hide *;
    QuotedIs(v);
    Around(t, "\"", open, Escaped(v), inside);
  }

  lemma Around(t: Scanner, q: string, u: Scanner, e: string, v: Scanner)
    requires u == Scanner(t.tokens, t.current + q, true, false) && v == Scanner(t.tokens, u.current + e, true, false)
    requires Scan(t, q) == u && Scan(u, e) == v && Scan(v, q) == Scanner(t.tokens, v.current + q, false, false)
    ensures Scan(t, q + e + q) == Scanner(t.tokens, t.current + (q + e + q), false, false)
  {
    hide Scan;
    ThreeParts(t, q, u, e, v, q, Scanner(t.tokens, v.current + q, false, false));
    Regroup(t.current, q, e);
    Regroup(t.current, q + e, q);
  }

  lemma Regroup(a: string, b: string, c: string)
    ensures a + b + c == a + (b + c)
  {
  }

  lemma QuotedIs(v: string)
    ensures Quoted(v) == "\"" + Escaped(v) + "\""
  {
    hide Escaped;
  }

  /** Every text value is legible once `field` has rendered it. */
  lemma FieldIsLegible(key: string, v: string)
    ensures Legible(TextItem(key, v))
  {
    if Bare(v) {
      assert BareChar(v[0]);
      forall i | 0 <= i < |v| ensures PlainChar(v[i]) {
        assert BareChar(v[i]);
      }
      PlainIsSteady(v);
    } else {
      forall t: Scanner | !t.quoted && !t.escaped ensures Scan(t, Quoted(v)) == t.(current := t.current + Quoted(v)) {
        ScanQuoted(t, v);
      }
      JsonRoundTrip(v);
    }
  }

  lemma AtomIsLegible(key: string, v: string)
    requires Plain(v)
    ensures Legible(AtomItem(key, v))
  {
    PlainIsSteady(v);
    assert v != "" ==> PlainChar(v[0]);
  }

  // ---- Splitting a whole line ----

  function Token(i: Item): string {
    i.key + ":" + i.shown
  }

  function Tokens(items: seq<Item>): (r: seq<string>)
    ensures |r| == |items| && forall k :: 0 <= k < |items| ==> r[k] == Token(items[k])
  {
    seq(|items|, k requires 0 <= k < |items| => Token(items[k]))
  }

  lemma ScanToken(t: Scanner, i: Item)
    requires !t.quoted && !t.escaped && t.current != "" && Plain(i.key) && Steady(i.shown)
    ensures Scan(t, " " + i.key + ":" + i.shown) == Scanner(t.tokens + [t.current], Token(i), false, false)
  {
    var u := Scanner(t.tokens + [t.current], "", false, false);
    var w := Scanner(u.tokens, i.key + ":", false, false);
    ScanBlank(t);
    ScanKey(u, i.key);
    SteadyAt(i.shown, w);
    hide *;
    SpelledOut(i);
    ThreeParts(t, " ", u, i.key + ":", w, i.shown, Scanner(u.tokens, w.current + i.shown, false, false));
  }

  lemma SpelledOut(i: Item)
    ensures " " + i.key + ":" + i.shown == " " + (i.key + ":") + i.shown
    ensures Token(i) == (i.key + ":") + i.shown
  {
  }

  lemma ThreeParts(t: Scanner, a: string, u: Scanner, b: string, v: Scanner, c: string, w: Scanner)
    requires Scan(t, a) == u && Scan(u, b) == v && Scan(v, c) == w
    ensures Scan(t, a + b + c) == w
  {
    hide Scan;
    ScanAppend(t, a, b);
    ScanAppend(t, a + b, c);
  }

  lemma SteadyAt(s: string, t: Scanner)
    requires Steady(s) && !t.quoted && !t.escaped
    ensures Scan(t, s) == Scanner(t.tokens, t.current + s, false, false)
  {
    hide Scan;
  }

  lemma ScanKey(u: Scanner, key: string)
    requires !u.quoted && !u.escaped && u.current == "" && Plain(key)
    ensures Scan(u, key + ":") == Scanner(u.tokens, key + ":", false, false)
  {
    KeyAndColon(key);
    hide Scan, Plain;
    ScanPlain(u, key + ":");
    assert "" + (key + ":") == key + ":";
  }

  lemma KeyAndColon(key: string)
    requires Plain(key)
    ensures Plain(key + ":")
  {
  }

  lemma ScanBlank(t: Scanner)
    requires !t.quoted && !t.escaped && t.current != ""
    ensures Scan(t, " ") == Scanner(t.tokens + [t.current], "", false, false)
  {
    assert " "[1..] == "";
    assert Scan(Step(t, ' '), "") == Step(t, ' ');
  }

  lemma {:induction false} ScanLine(tag: string, items: seq<Item>)
    requires Writable(tag, items)
    ensures var s := Scan(START, Line(tag, items));
            !s.quoted && !s.escaped && s.current != "" && TokensOf(s) == [tag] + Tokens(items)
    decreases |items|
  {
    if items == [] {
      ScanPlain(START, tag);
      assert Line(tag, items) == tag && "" + tag == tag;
    } else {
      var n := |items| - 1;
      ScanLine(tag, items[..n]);
      hide Scan, Legible, KeyLike;
      assert KeyLike(items[n].key) && Legible(items[n]);
      ScanLast(tag, items);
    }
  }

  lemma ScanLast(tag: string, items: seq<Item>)
    requires items != [] && KeyLike(items[|items| - 1].key) && Legible(items[|items| - 1])
    requires var s := Scan(START, Line(tag, items[..|items| - 1]));
             !s.quoted && !s.escaped && s.current != "" && TokensOf(s) == [tag] + Tokens(items[..|items| - 1])
    ensures var s := Scan(START, Line(tag, items));
            !s.quoted && !s.escaped && s.current != "" && TokensOf(s) == [tag] + Tokens(items)
  {
    hide Scan, Steady, ValueOf, Line, START, Token, Plain, Tokens;
    var n := |items| - 1;
    var s := Scan(START, Line(tag, items[..n]));
    ScanToken(s, items[n]);
    ScanAppend(START, Line(tag, items[..n]), " " + items[n].key + ":" + items[n].shown);
    LineGrows(tag, items);
    TokensGrow(tag, items);
  }

  lemma LineGrows(tag: string, items: seq<Item>)
    requires items != []
    ensures var n := |items| - 1;
            Line(tag, items) == Line(tag, items[..n]) + (" " + items[n].key + ":" + items[n].shown)
  {
  }

  lemma TokensGrow(tag: string, items: seq<Item>)
    requires items != []
    ensures [tag] + Tokens(items) == [tag] + Tokens(items[..|items| - 1]) + [Token(items[|items| - 1])]
    ensures Token(items[|items| - 1]) != ""
  {
  }

  lemma {:induction false} ColonAfterKey(key: string, rest: string)
    requires forall i :: 0 <= i < |key| ==> key[i] != ':'
    ensures ColonAt(key + ":" + rest) == Some(|key|)
    decreases |key|
  {
    if key != "" {
      ColonAfterKey(key[1..], rest);
      assert (key + ":" + rest)[1..] == key[1..] + ":" + rest;
    }
  }

  lemma FieldOfToken(i: Item)
    requires KeyLike(i.key) && Legible(i)
    ensures FieldOf(Token(i)) == Ok(Pair(i.key, i.value))
  {
    hide Steady, ValueOf, ColonAt;
    ColonAfterKey(i.key, i.shown);
    assert Token(i)[|i.key| + 1..] == i.shown && Token(i)[..|i.key|] == i.key;
  }

  lemma {:induction false} FieldsOfTokens(items: seq<Item>)
    requires forall i :: 0 <= i < |items| ==> KeyLike(items[i].key) && Legible(items[i])
    ensures FieldsOf(Tokens(items)) == Ok(PairsOf(items))
    decreases |items|
  {
    hide KeyLike, Legible, FieldOf;
    if items != [] {
      var n := |items| - 1;
      FieldsOfTokens(items[..n]);
      FieldOfToken(items[n]);
      assert Tokens(items)[..n] == Tokens(items[..n]);
      assert PairsOf(items) == PairsOf(items[..n]) + [Pair(items[n].key, items[n].value)];
    }
  }

  /** Splitting a rendered line gives back its tag and every key and value, in order. */
  lemma LineRoundTrip(tag: string, items: seq<Item>)
    requires Writable(tag, items)
    ensures ParseLine(Line(tag, items)) == Ok(Record(tag, PairsOf(items)))
  {
    ScanLine(tag, items);
    FieldsOfTokens(items);
    hide Scan, Writable, FieldsOf, Line;
    assert ([tag] + Tokens(items))[1..] == Tokens(items);
  }
}
