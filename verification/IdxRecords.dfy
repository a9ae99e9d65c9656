/** The record lines of the IDX format, one writer (`idx/encode.rs`) and one reader
    (`idx/decode.rs`) for each kind, and their round trips. */
module IdxRecords {
  import opened Atlas
  import opened IdxText
  import opened IdxLines
  import opened IdxAtoms

  // ---- Lines as slots, some of them left out ----

  datatype Slot = Slot(item: Item, present: bool)

  function Items(slots: seq<Slot>): seq<Item> {
    if slots == [] then []
    else Items(slots[..|slots| - 1]) + (if slots[|slots| - 1].present then [slots[|slots| - 1].item] else [])
  }

  /** The value of the first field of that name. */
  function Get(fields: seq<Pair>, key: string): Option<string> {
    if fields == [] then None
    else if Get(fields[..|fields| - 1], key).Some? then Get(fields[..|fields| - 1], key)
    else if fields[|fields| - 1].key == key then Some(fields[|fields| - 1].value)
    else None
  }

  lemma GetIsFirst(fields: seq<Pair>, key: string)
    ensures Get(fields, key).None? <==> forall i :: 0 <= i < |fields| ==> fields[i].key != key
    ensures Get(fields, key).Some? ==>
              exists i :: 0 <= i < |fields| && fields[i] == Pair(key, Get(fields, key).value)
                       && forall j :: 0 <= j < i ==> fields[j].key != key
  {
    if fields != [] {
      GetIsFirst(fields[..|fields| - 1], key);
    }
  }

  predicate DistinctSlots(slots: seq<Slot>) {
    forall i, j :: 0 <= i < j < |slots| ==> slots[i].item.key != slots[j].item.key
  }

  lemma {:induction false} GetAbsent(slots: seq<Slot>, key: string)
    requires forall i :: 0 <= i < |slots| ==> slots[i].item.key != key
    ensures Get(PairsOf(Items(slots)), key) == None
  {
    if slots != [] {
      var n := |slots| - 1;
      GetAbsent(slots[..n], key);
      PairsStep(slots);
      var before := PairsOf(Items(slots[..n]));
      assert before + [] == before;
      GetLast(before, Pair(slots[n].item.key, slots[n].item.value), key);
    }
  }

  lemma PairsStep(slots: seq<Slot>)
    requires slots != []
    ensures var n := |slots| - 1;
            PairsOf(Items(slots)) == PairsOf(Items(slots[..n]))
              + (if slots[n].present then [Pair(slots[n].item.key, slots[n].item.value)] else [])
  {
  }

  lemma GetLast(fields: seq<Pair>, p: Pair, key: string)
    ensures Get(fields + [p], key) ==
            if Get(fields, key).Some? then Get(fields, key) else if p.key == key then Some(p.value) else None
  {
    assert (fields + [p])[..|fields|] == fields;
  }

  /** Looking a slot up in what was written. */
  lemma {:induction false} GetSlot(slots: seq<Slot>, i: nat)
    requires DistinctSlots(slots) && i < |slots|
    ensures Get(PairsOf(Items(slots)), slots[i].item.key) == if slots[i].present then Some(slots[i].item.value) else None
    decreases |slots|
  {
    var n := |slots| - 1;
    PairsStep(slots);
    var before := PairsOf(Items(slots[..n]));
    assert before + [] == before;
    if i < n {
      GetSlot(slots[..n], i);
    } else {
      GetAbsent(slots[..n], slots[n].item.key);
    }
    GetLast(before, Pair(slots[n].item.key, slots[n].item.value), slots[i].item.key);
  }

  // ---- What every written line satisfies ----

  predicate White(c: char) {
    '\t' <= c <= '\r' || c == ' ' || c == '\U{85}' || c == '\U{a0}' || c == '\U{1680}' || '\U{2000}' <= c <= '\U{200a}'
    || c == '\U{2028}' || c == '\U{2029}' || c == '\U{202f}' || c == '\U{205f}' || c == '\U{3000}'
  }

  /** No control character, and no blank at the end. */
  ghost predicate Solid(s: string) {
    s != "" && !White(s[|s| - 1]) && forall i :: 0 <= i < |s| ==> s[i] >= ' '
  }

  ghost predicate Good(i: Item) {
    Legible(i) && Solid(i.shown)
  }

  /** Field names are bare and never repeated. */
  predicate GoodKeys(slots: seq<Slot>) {
    DistinctSlots(slots) && forall i :: 0 <= i < |slots| ==> Bare(slots[i].item.key)
  }

  ghost predicate WellMade(slots: seq<Slot>) {
    GoodKeys(slots) && forall i :: 0 <= i < |slots| ==> Good(slots[i].item)
  }

  lemma BareIsSolid(s: string)
    requires Bare(s)
    ensures Solid(s) && Plain(s) && KeyLike(s)
  {
    assert BareChar(s[|s| - 1]);
    forall i | 0 <= i < |s| ensures PlainChar(s[i]) && s[i] != ':' && s[i] >= ' ' {
      assert BareChar(s[i]);
    }
  }

  lemma AtomGood(i: Item)
    requires i.shown == i.value && Bare(i.value)
    ensures Good(i)
  {
    BareIsSolid(i.value);
    hide Solid, Plain, Bare, KeyLike;
    AtomIsLegible(i.key, i.value);
  }

  lemma {:induction false} EscapedIsVisible(v: string)
    ensures forall i :: 0 <= i < |Escaped(v)| ==> Escaped(v)[i] >= ' '
  {
    if v != "" {
      EscapeIsVisible(v[0]);
      hide EscapeChar;
      EscapedIsVisible(v[1..]);
    }
  }

  lemma EscapeIsVisible(c: char)
    ensures forall i :: 0 <= i < |EscapeChar(c)| ==> EscapeChar(c)[i] >= ' '
  {
    if |EscapeChar(c)| == 6 {
      HexRoundTrip(c as int / 16);
      HexRoundTrip(c as int % 16);
      hide Hex;
    }
  }

  lemma QuotedIsSolid(v: string)
    ensures Solid(Quoted(v))
  {
    EscapedIsVisible(v);
    hide Escaped;
  }

  /** A rendered value never breaks its line. */
  lemma FieldIsSolid(v: string)
    ensures Solid(Field(v))
  {
    if Bare(v) {
      BareIsSolid(v);
    } else {
      QuotedIsSolid(v);
    }
  }

  lemma TextGood(i: Item)
    requires i.shown == Field(i.value)
    ensures Good(i)
  {
    FieldIsSolid(i.value);
    FieldIsLegible(i.key, i.value);
    hide Field, Solid, Legible;
    assert i == TextItem(i.key, i.value);
  }

  lemma SteadyTogether(a: string, b: string)
    requires Steady(a) && Steady(b)
    ensures Steady(a + b)
  {
    hide Scan, Steady;
    var s := a + b;
    forall t: Scanner | !t.quoted && !t.escaped ensures Scan(t, s) == t.(current := t.current + s) {
      SteadyBoth(a, b, t);
    }
    SteadyIf(s);
  }

  lemma SteadyIf(s: string)
    requires forall t: Scanner :: !t.quoted && !t.escaped ==> Scan(t, s) == t.(current := t.current + s)
    ensures Steady(s)
  {
    hide Scan;
  }

  lemma SteadyBoth(a: string, b: string, t: Scanner)
    requires Steady(a) && Steady(b) && !t.quoted && !t.escaped
    ensures Scan(t, a + b) == t.(current := t.current + (a + b))
  {
    hide Scan, Steady;
    var u := t.(current := t.current + a);
    SteadyAt(a, t);
    SteadyAt(b, u);
    Sequel(t, a, u, b);
  }

  lemma QuotedIsSteady(v: string)
    ensures Steady(Quoted(v))
  {
    forall t: Scanner | !t.quoted && !t.escaped ensures Scan(t, Quoted(v)) == t.(current := t.current + Quoted(v)) {
      ScanQuoted(t, v);
    }
  }

  lemma {:induction false} MoreIsGood(ids: seq<Id>)
    ensures Steady(More(ids)) && Solid(More(ids))
  {
    hide Steady, Quoted, UuidText;
    if ids == [] {
      PlainIsSteady("]");
    } else {
      var q := Quoted(UuidText(ids[0]));
      PlainIsSteady(",");
      QuotedIsSteady(UuidText(ids[0]));
      QuotedIsSolid(UuidText(ids[0]));
      MoreIsGood(ids[1..]);
      SteadyTogether(",", q);
      SteadyTogether("," + q, More(ids[1..]));
    }
  }

  lemma ArrayGood(i: Item, ids: seq<Id>)
    requires i.shown == i.value == IdArray(ids)
    ensures Good(i)
  {
    hide Steady, Quoted, UuidText, More;
    if ids == [] {
      PlainIsSteady("[]");
    } else {
      var q := Quoted(UuidText(ids[0]));
      PlainIsSteady("[");
      QuotedIsSteady(UuidText(ids[0]));
      QuotedIsSolid(UuidText(ids[0]));
      MoreIsGood(ids[1..]);
      SteadyTogether("[", q);
      SteadyTogether("[" + q, More(ids[1..]));
    }
  }

  /** A line the decoder's reader can take: it starts with `@`, holds no control character and
      does not end in a blank. */
  ghost predicate OneLine(line: string) {
    Solid(line) && line[0] == '@'
  }

  lemma {:induction false} ItemsAreGood(slots: seq<Slot>)
    requires forall i :: 0 <= i < |slots| ==> Bare(slots[i].item.key) && Good(slots[i].item)
    ensures forall i :: 0 <= i < |Items(slots)| ==> Bare(Items(slots)[i].key) && Good(Items(slots)[i])
  {
    hide Good, Bare;
    if slots != [] {
      ItemsAreGood(slots[..|slots| - 1]);
    }
  }

  lemma {:induction false} ShownIsSolid(tag: string, items: seq<Item>)
    requires Solid(tag) && forall i :: 0 <= i < |items| ==> Bare(items[i].key) && Good(items[i])
    ensures Solid(Line(tag, items)) && Line(tag, items)[0] == tag[0]
  {
    hide Good, Solid, Bare, Line;
    if items == [] {
      LineOfNone(tag);
    } else {
      var n := |items| - 1;
      ShownIsSolid(tag, items[..n]);
      GoodParts(items[n]);
      LineGrows(tag, items);
      SolidTogether(Line(tag, items[..n]), items[n].key, items[n].shown);
    }
  }

  lemma LineOfNone(tag: string)
    ensures Line(tag, []) == tag
  {
  }

  lemma GoodParts(i: Item)
    requires Bare(i.key) && Good(i)
    ensures Solid(i.key) && Solid(i.shown)
  {
    BareIsSolid(i.key);
  }

  lemma SolidTogether(a: string, key: string, shown: string)
    requires Solid(a) && Solid(key) && Solid(shown)
    ensures Solid(a + (" " + key + ":" + shown)) && (a + (" " + key + ":" + shown))[0] == a[0]
  {
    var s := a + (" " + key + ":" + shown);
    assert s[|s| - 1] == shown[|shown| - 1];
  }

  /** What holds of every line written from well-made slots. */
  lemma WrittenLine(tag: string, slots: seq<Slot>)
    requires WellMade(slots) && tag != "" && tag[0] == '@' && Bare(tag[1..])
    ensures ParseLine(Line(tag, Items(slots))) == Ok(Record(tag, PairsOf(Items(slots))))
    ensures OneLine(Line(tag, Items(slots)))
  {
    TagIsPlain(tag);
    ItemsAreGood(slots);
    var items := Items(slots);
    forall i | 0 <= i < |items| ensures KeyLike(items[i].key) && Legible(items[i]) {
      assert Good(items[i]);
      BareIsSolid(items[i].key);
    }
    hide Good, Legible, Plain, KeyLike, Solid, Bare, Items;
    LineRoundTrip(tag, items);
    ShownIsSolid(tag, items);
  }

  lemma TagIsPlain(tag: string)
    requires tag != "" && tag[0] == '@' && Bare(tag[1..])
    ensures Plain(tag) && Solid(tag)
  {
    var rest := tag[1..];
    BareIsSolid(rest);
    forall i | 0 <= i < |tag| ensures PlainChar(tag[i]) && tag[i] >= ' ' {
      if i > 0 {
        assert tag[i] == rest[i - 1] && PlainChar(rest[i - 1]);
      }
    }
    assert tag[|tag| - 1] == rest[|rest| - 1];
  }
}
