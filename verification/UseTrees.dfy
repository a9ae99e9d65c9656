/** Use trees, how they are written, and the proof that expanding the text finds exactly their
    repository leaves, left to right. */
module UseTrees {
  import opened Atlas
  import opened IdxRecords
  import opened IdxFile
  import opened UseExpander

  datatype UseTree =
    | Name(path: seq<string>, alias: Option<string>)
    | Glob(path: seq<string>)
    | Group(path: seq<string>, items: seq<UseTree>, trailing: bool)

  // ---- Writing ----

  predicate IdentChar(c: char) {
    c != ',' && c != '{' && c != '}' && c != ':' && c != '*' && !White(c)
  }

  predicate Ident(s: string) {
    s != "" && forall i :: 0 <= i < |s| ==> IdentChar(s[i])
  }

  predicate Idents(path: seq<string>) {
    forall i :: 0 <= i < |path| ==> Ident(path[i])
  }

  predicate Legal(t: UseTree) {
    Idents(t.path)
    && (t.Name? ==> t.path != [] && (t.alias.Some? ==> Ident(t.alias.value)))
    && (t.Group? ==> forall i :: 0 <= i < |t.items| ==> Legal(t.items[i]))
  }

  /** A path with its separators. */
  function PathText(path: seq<string>): string {
    if path == [] then ""
    else if |path| == 1 then path[0]
    else PathText(path[..|path| - 1]) + "::" + path[|path| - 1]
  }

  /** What stands before a `*` or a `{`. */
  function Lead(path: seq<string>): string {
    if path == [] then "" else PathText(path) + "::"
  }

  /** The text of a tree, with `gap` around the items of every group. */
  function Print(t: UseTree, gap: string): string
    decreases t
  {
    match t
    case Name(path, alias) => PathText(path) + (if alias.Some? then " as " + alias.value else "")
    case Glob(path) => Lead(path) + "*"
    case Group(path, items, trailing) => Lead(path) + "{" + Commas(Closed(Spaced(items, gap), gap, trailing)) + "}"
  }

  function Spaced(items: seq<UseTree>, gap: string): (r: seq<string>)
    ensures |r| == |items|
    decreases items
  {
    if items == [] then [] else Spaced(items[..|items| - 1], gap) + [gap + Print(items[|items| - 1], gap)]
  }

  /** The blanks before the closing brace, after a last comma or not. */
  function Closed(pieces: seq<string>, gap: string, trailing: bool): (r: seq<string>)
    ensures r != []
  {
    if pieces == [] || trailing then pieces + [gap] else pieces[..|pieces| - 1] + [pieces[|pieces| - 1] + gap]
  }

  predicate Blanks(gap: string) {
    forall i :: 0 <= i < |gap| ==> White(gap[i])
  }

  // ---- The leaves ----

  /** The leaf a full path imports: none for a bare keyword, none outside the repository. */
  function Leaf(full: seq<string>): seq<Import>
    requires full != []
  {
    if Keyword(full[|full| - 1]) || !Keyword(full[0]) then [] else [Import(PathText(full), full[|full| - 1])]
  }

  function Leaves(prefix: seq<string>, t: UseTree): seq<Import>
    requires Legal(t)
    decreases t
  {
    match t
    case Name(path, _) => Leaf(prefix + path)
    case Glob(_) => []
    case Group(path, items, _) => LeavesOf(prefix + path, items)
  }

  function LeavesOf(prefix: seq<string>, items: seq<UseTree>): seq<Import>
    requires forall i :: 0 <= i < |items| ==> Legal(items[i])
    decreases items
  {
    if items == [] then [] else LeavesOf(prefix, items[..|items| - 1]) + Leaves(prefix, items[|items| - 1])
  }

  // ---- Splitting printed items ----

  /** At any depth that is not negative, the text joins the part being read and leaves the depth. */
  ghost predicate Whole(text: string) {
    forall c: Cut :: c.depth >= 0 ==> CutOver(c, text) == c.(current := c.current + text)
  }

  /** The same inside braces. */
  ghost predicate Inner(text: string) {
    forall c: Cut :: c.depth >= 1 ==> CutOver(c, text) == c.(current := c.current + text)
  }

  lemma {:induction false} CutAppend(c: Cut, a: string, b: string)
    ensures CutOver(c, a + b) == CutOver(CutOver(c, a), b)
    decreases |a|
  {
    hide CutStep;
    if a == "" {
      assert a + b == b;
    } else {
      assert (a + b)[1..] == a[1..] + b;
      CutAppend(CutStep(c, a[0]), a[1..], b);
    }
  }

  predicate PlainChar(ch: char) {
    ch != ',' && ch != '{' && ch != '}'
  }

  lemma {:induction false} PlainCut(c: Cut, text: string)
    requires forall i :: 0 <= i < |text| ==> PlainChar(text[i])
    ensures CutOver(c, text) == c.(current := c.current + text)
    decreases |text|
  {
    if text == "" {
      assert c.current + text == c.current;
    } else {
      assert PlainChar(text[0]);
      PlainCut(CutStep(c, text[0]), text[1..]);
      RegroupText(c.current, [text[0]], text[1..]);
      assert [text[0]] + text[1..] == text;
    }
  }

  lemma PlainIsWhole(text: string)
    requires forall i :: 0 <= i < |text| ==> PlainChar(text[i])
    ensures Whole(text)
  {
    hide CutOver;
    forall c: Cut | c.depth >= 0 ensures CutOver(c, text) == c.(current := c.current + text) {
      PlainCut(c, text);
    }
  }

  lemma WholeAt(text: string, c: Cut)
    requires Whole(text) && c.depth >= 0
    ensures CutOver(c, text) == Cut(c.parts, c.current + text, c.depth)
  {
    hide CutOver;
  }

  lemma InnerAt(text: string, c: Cut)
    requires Inner(text) && c.depth >= 1
    ensures CutOver(c, text) == Cut(c.parts, c.current + text, c.depth)
  {
    hide CutOver;
  }

  lemma WholeIf(text: string)
    requires forall c: Cut :: c.depth >= 0 ==> CutOver(c, text) == c.(current := c.current + text)
    ensures Whole(text)
  {
  }

  lemma InnerIf(text: string)
    requires forall c: Cut :: c.depth >= 1 ==> CutOver(c, text) == c.(current := c.current + text)
    ensures Inner(text)
  {
  }

  lemma WholeIsInner(text: string)
    requires Whole(text)
    ensures Inner(text)
  {
    hide CutOver;
  }

  lemma WholeTogether(a: string, b: string)
    requires Whole(a) && Whole(b)
    ensures Whole(a + b)
  {
    hide CutOver, Whole;
    var s := a + b;
    forall c: Cut | c.depth >= 0 ensures CutOver(c, s) == c.(current := c.current + s) {
      CutAppend(c, a, b);
      WholeAt(a, c);
      WholeAt(b, Cut(c.parts, c.current + a, c.depth));
      RegroupText(c.current, a, b);
    }
    WholeIf(s);
  }

  lemma InnerTogether(a: string, b: string)
    requires Inner(a) && Inner(b)
    ensures Inner(a + b)
  {
    hide CutOver, Inner;
    var s := a + b;
    forall c: Cut | c.depth >= 1 ensures CutOver(c, s) == c.(current := c.current + s) {
      CutAppend(c, a, b);
      InnerAt(a, c);
      InnerAt(b, Cut(c.parts, c.current + a, c.depth));
      RegroupText(c.current, a, b);
    }
    InnerIf(s);
  }

  lemma CutOne(c: Cut, ch: char)
    ensures CutOver(c, [ch]) == CutStep(c, ch)
  {
    assert [ch][1..] == "";
    assert CutOver(CutStep(c, ch), "") == CutStep(c, ch);
  }

  lemma CommaIsInner()
    ensures Inner(",")
  {
    forall c: Cut | c.depth >= 1 ensures CutOver(c, ",") == c.(current := c.current + ",") {
      CutOne(c, ',');
    }
  }

  lemma BracedAt(inner: string, c: Cut)
    requires Inner(inner) && c.depth >= 0
    ensures CutOver(c, "{" + inner + "}") == Cut(c.parts, c.current + ("{" + inner + "}"), c.depth)
  {
    var open := Cut(c.parts, c.current + "{", c.depth + 1);
    var body := Cut(c.parts, c.current + "{" + inner, c.depth + 1);
    CutOne(c, '{');
    CutOne(body, '}');
    hide CutOver, Inner;
    InnerAt(inner, open);
    CutAppend(c, "{", inner);
    CutAppend(c, "{" + inner, "}");
    RegroupText(c.current, "{", inner);
    RegroupText(c.current, "{" + inner, "}");
  }

  lemma BracedIsWhole(inner: string)
    requires Inner(inner)
    ensures Whole("{" + inner + "}")
  {
    hide CutOver, Whole, Inner;
    var s := "{" + inner + "}";
    forall c: Cut | c.depth >= 0 ensures CutOver(c, s) == c.(current := c.current + s) {
      BracedAt(inner, c);
    }
    WholeIf(s);
  }

  ghost predicate AllWhole(parts: seq<string>) {
    forall i :: 0 <= i < |parts| ==> Whole(parts[i])
  }

  lemma {:induction false} CommasAreInner(parts: seq<string>)
    requires AllWhole(parts)
    ensures Inner(Commas(parts))
  {
    hide Whole, Inner;
    if parts == [] {
      NothingIsInner();
    } else if |parts| == 1 {
      WholeIsInner(parts[0]);
    } else {
      var n := |parts| - 1;
      CommasAreInner(parts[..n]);
      CommaIsInner();
      WholeIsInner(parts[n]);
      InnerTogether(Commas(parts[..n]), ",");
      InnerTogether(Commas(parts[..n]) + ",", parts[n]);
    }
  }

  lemma NothingIsInner()
    ensures Inner("")
  {
    forall c: Cut ensures c.current + "" == c.current {
    }
  }

  /** Joining whole parts with commas and splitting gives the parts. */
  lemma {:induction false} CutCommas(parts: seq<string>)
    requires AllWhole(parts) && parts != []
    ensures CutOver(Cut([], "", 0), Commas(parts)) == Cut(parts[..|parts| - 1], parts[|parts| - 1], 0)
  {
    hide CutOver, Whole;
    var n := |parts| - 1;
    if n == 0 {
      WholeAt(parts[0], Cut([], "", 0));
      assert "" + parts[0] == parts[0] && parts[..0] == [];
    } else {
      CutCommas(parts[..n]);
      var c := Cut(parts[..n - 1], parts[n - 1], 0);
      assert parts[..n][..n - 1] == parts[..n - 1];
      CutAppend(Cut([], "", 0), Commas(parts[..n]), ",");
      CutOne(c, ',');
      CutAppend(Cut([], "", 0), Commas(parts[..n]) + ",", parts[n]);
      assert parts[..n - 1] + [parts[n - 1]] == parts[..n];
      WholeAt(parts[n], Cut(parts[..n], "", 0));
      assert "" + parts[n] == parts[n];
    }
  }

  lemma SplitCommas(parts: seq<string>)
    requires AllWhole(parts) && parts != []
    ensures Split(Commas(parts)) == parts
  {
    hide CutOver, AllWhole;
    CutCommas(parts);
    assert parts[..|parts| - 1] + [parts[|parts| - 1]] == parts;
  }

  // ---- Printed trees are whole ----

  lemma IdentIsPlain(s: string)
    requires Ident(s)
    ensures forall i :: 0 <= i < |s| ==> PlainChar(s[i])
  {
    forall i | 0 <= i < |s| ensures PlainChar(s[i]) {
      assert IdentChar(s[i]);
    }
  }

  lemma {:induction false} PathIsPlain(path: seq<string>)
    requires Idents(path)
    ensures forall i :: 0 <= i < |PathText(path)| ==> PlainChar(PathText(path)[i])
    ensures forall i :: 0 <= i < |Lead(path)| ==> PlainChar(Lead(path)[i])
  {
    hide Ident;
    if path != [] {
      var n := |path| - 1;
      IdentIsPlain(path[n]);
      PathIsPlain(path[..n]);
    }
  }

  lemma BlanksArePlain(gap: string)
    requires Blanks(gap)
    ensures forall i :: 0 <= i < |gap| ==> PlainChar(gap[i])
  {
    forall i | 0 <= i < |gap| ensures PlainChar(gap[i]) {
      assert White(gap[i]);
    }
  }

  lemma {:induction false} PrintIsWhole(t: UseTree, gap: string)
    requires Legal(t) && Blanks(gap)
    ensures Whole(Print(t, gap))
    decreases t
  {
    hide Whole, Inner, Ident, PathText, Lead;
    PathIsPlain(t.path);
    match t {
      case Name(path, alias) =>
        if alias.Some? {
          IdentIsPlain(alias.value);
        }
        PlainIsWhole(Print(t, gap));
      case Glob(path) => PlainIsWhole(Print(t, gap));
      case Group(path, items, trailing) =>
        var pieces := Closed(Spaced(items, gap), gap, trailing);
        SpacedAreWhole(items, gap);
        ClosedAreWhole(Spaced(items, gap), gap, trailing);
        CommasAreInner(pieces);
        BracedIsWhole(Commas(pieces));
        PlainIsWhole(Lead(path));
        WholeTogether(Lead(path), "{" + Commas(pieces) + "}");
        assert Lead(path) + "{" + Commas(pieces) + "}" == Lead(path) + ("{" + Commas(pieces) + "}");
    }
  }

  lemma {:induction false} SpacedAreWhole(items: seq<UseTree>, gap: string)
    requires Blanks(gap) && forall i :: 0 <= i < |items| ==> Legal(items[i])
    ensures AllWhole(Spaced(items, gap))
    decreases items
  {
    hide Whole, Print, Legal;
    if items != [] {
      var n := |items| - 1;
      SpacedAreWhole(items[..n], gap);
      PrintIsWhole(items[n], gap);
      BlanksArePlain(gap);
      PlainIsWhole(gap);
      WholeTogether(gap, Print(items[n], gap));
    }
  }

  lemma ClosedAreWhole(pieces: seq<string>, gap: string, trailing: bool)
    requires AllWhole(pieces) && Blanks(gap)
    ensures AllWhole(Closed(pieces, gap, trailing))
  {
    hide Whole;
    BlanksArePlain(gap);
    PlainIsWhole(gap);
    if pieces != [] {
      WholeTogether(pieces[|pieces| - 1], gap);
    }
  }

  // ---- Trimming ----

  /** Not empty, and no blank at either end. */
  predicate Inked(s: string) {
    s != "" && !White(s[0]) && !White(s[|s| - 1])
  }

  lemma {:induction false} TrimStartBlanks(gap: string, s: string)
    requires Blanks(gap) && (s == "" || !White(s[0]))
    ensures TrimStart(gap + s) == s
    decreases |gap|
  {
    hide White;
    if gap == "" {
      assert gap + s == s;
    } else {
      assert White(gap[0]) && (gap + s)[1..] == gap[1..] + s;
      TrimStartBlanks(gap[1..], s);
    }
  }

  lemma {:induction false} TrimEndBlanks(s: string, gap: string)
    requires Blanks(gap) && (s == "" || !White(s[|s| - 1]))
    ensures TrimEnd(s + gap) == s
    decreases |gap|
  {
    hide White;
    if gap == "" {
      assert s + gap == s;
    } else {
      var n := |gap| - 1;
      assert White(gap[n]) && (s + gap)[..|s + gap| - 1] == s + gap[..n];
      TrimEndBlanks(s, gap[..n]);
    }
  }

  lemma TrimInked(gap: string, s: string)
    requires Blanks(gap) && Inked(s)
    ensures Trimmed(s) == s && Trimmed(gap + s) == s && Trimmed(gap + s + gap) == s
  {
    hide White, TrimStart, TrimEnd;
    TrimStartBlanks(gap, s);
    TrimStartBlanks("", s);
    TrimStartBlanks(gap, s + gap);
    TrimEndBlanks(s, gap);
    TrimEndBlanks(s, "");
    assert "" + s == s && s + "" == s && gap + s + gap == gap + (s + gap);
  }

  lemma TrimBlanks(gap: string)
    requires Blanks(gap)
    ensures Trimmed(gap) == ""
  {
    TrimStartBlanks(gap, "");
    assert gap + "" == gap;
  }

  lemma IdentIsInked(s: string)
    requires Ident(s)
    ensures Inked(s) && ':' !in s && ' ' !in s && '{' !in s && '}' !in s && s != "*"
  {
    assert IdentChar(s[0]) && IdentChar(s[|s| - 1]);
    forall i | 0 <= i < |s| ensures s[i] != ':' && s[i] != ' ' && s[i] != '{' && s[i] != '}' {
      assert IdentChar(s[i]);
    }
  }

  lemma {:induction false} PathIsInked(path: seq<string>)
    requires Idents(path) && path != []
    ensures Inked(PathText(path)) && ' ' !in PathText(path) && '{' !in PathText(path) && '}' !in PathText(path)
    ensures PathText(path)[|PathText(path)| - 1] != ':'
  {
    hide Ident, White;
    var n := |path| - 1;
    IdentIsInked(path[n]);
    if n > 0 {
      PathIsInked(path[..n]);
      var a := PathText(path[..n]);
      var s := a + "::" + path[n];
      assert s[0] == a[0] && s[|s| - 1] == path[n][|path[n]| - 1];
    }
  }

  lemma LeadShape(path: seq<string>)
    requires Idents(path)
    ensures ' ' !in Lead(path) && '{' !in Lead(path)
    ensures path != [] ==> Inked(Lead(path))
  {
    if path != [] {
      PathIsInked(path);
      hide PathText, Idents;
      assert Lead(path)[0] == PathText(path)[0] && Lead(path)[|Lead(path)| - 1] == ':';
    }
  }

  lemma InkedAround(a: string, b: string)
    requires (a == "" || Inked(a)) && Inked(b)
    ensures Inked(a + b)
  {
    hide White;
    if a != "" {
      assert (a + b)[0] == a[0];
    }
    assert (a + b)[|a + b| - 1] == b[|b| - 1];
  }

  lemma BraceInk(inner: string)
    ensures Inked("{" + inner + "}") && Inked("*")
  {
    var s := "{" + inner + "}";
    assert s[0] == '{' && s[|s| - 1] == '}';
  }

  lemma AliasInk(path: string, alias: string)
    requires Inked(path) && Inked(alias)
    ensures Inked(path + " as " + alias)
  {
    var s := path + " as " + alias;
    assert s[0] == path[0] && s[|s| - 1] == alias[|alias| - 1];
  }

  lemma PrintIsInked(t: UseTree, gap: string)
    requires Legal(t)
    ensures Inked(Print(t, gap))
  {
    hide Inked, Ident, PathText, Lead, Spaced, Closed;
    match t {
      case Name(path, alias) =>
        PathIsInked(path);
        if alias.Some? {
          IdentIsInked(alias.value);
          AliasInk(PathText(path), alias.value);
          assert PathText(path) + (" as " + alias.value) == PathText(path) + " as " + alias.value;
        } else {
          assert PathText(path) + "" == PathText(path);
        }
      case Glob(path) =>
        LeadShape(path);
        BraceInk("");
        NoLead();
        InkedAround(Lead(path), "*");
      case Group(path, items, trailing) =>
        var inner := Commas(Closed(Spaced(items, gap), gap, trailing));
        LeadShape(path);
        BraceInk(inner);
        NoLead();
        InkedAround(Lead(path), "{" + inner + "}");
        assert Lead(path) + "{" + inner + "}" == Lead(path) + ("{" + inner + "}");
    }
  }

  lemma NoLead()
    ensures Lead([]) == "" && PathText([]) == ""
  {
  }

  // ---- Searching printed text ----

  lemma {:induction false} BeforeIs(a: string, sep: string, b: string)
    requires sep != "" && sep[0] !in a
    ensures Before(a + sep + b, sep) == a && Before(a, sep) == a
    decreases |a|
  {
    if a == "" {
      assert (a + sep + b)[0..0 + |sep|] == sep;
    } else {
      assert (a + sep + b)[1..] == a[1..] + sep + b;
      assert (a + sep + b)[0..0 + |sep|][0] == a[0];
      BeforeIs(a[1..], sep, b);
      assert a[0] != sep[0];
      assert [a[0]] + a[1..] == a;
    }
  }

  lemma AfterStep(text: string)
    requires text != "" && text[|text| - 1] != ':'
    ensures AfterLast(text, "::") == AfterLast(text[..|text| - 1], "::") + [text[|text| - 1]]
  {
    assert "::"[1] == ':';
    assert |text| >= 2 ==> text[|text| - 2..|text| - 2 + 2][1] == text[|text| - 1];
  }

  lemma AfterStop(a: string)
    ensures AfterLast(a + "::", "::") == "" && AfterLast("", "::") == ""
  {
    var s := a + "::";
    assert s[|s| - 2..|s| - 2 + 2] == "::";
  }

  lemma {:induction false} AfterLastIs(a: string, b: string)
    requires ':' !in b
    ensures AfterLast(a + "::" + b, "::") == b && AfterLast(b, "::") == b
    decreases |b|
  {
    hide AfterLast;
    AfterStop(a);
    if b == "" {
      assert a + "::" + b == a + "::";
    } else {
      var n := |b| - 1;
      var s := a + "::" + b;
      assert s[..|s| - 1] == a + "::" + b[..n] && s[|s| - 1] == b[n];
      AfterStep(s);
      AfterStep(b);
      AfterLastIs(a, b[..n]);
      assert b[..n] + [b[n]] == b;
    }
  }

  lemma WithoutTailIs(a: string)
    requires a != "" && a[|a| - 1] != ':'
    ensures WithoutTail(a + "::", "::") == a
  {
    var s := a + "::";
    assert s[|s| - 2..|s| - 2 + 2] == "::" && s[..|s| - 2] == a;
    assert |a| >= 2 ==> a[|a| - 2..|a| - 2 + 2][1] == a[|a| - 1];
    assert "::"[1] == ':';
  }

  lemma SegmentOfLead(path: seq<string>)
    requires Idents(path)
    ensures Segment(Lead(path)) == PathText(path)
  {
    hide Trimmed, Inked, Idents;
    TrimBlanks("");
    if path == [] {
      NoLead();
    } else {
      PathIsInked(path);
      LeadShape(path);
      TrimInked("", Lead(path));
      TrimInked("", PathText(path));
      InkedNotEmpty(PathText(path));
      WithoutTailIs(PathText(path));
    }
  }

  lemma InkedNotEmpty(s: string)
    requires Inked(s)
    ensures s != ""
  {
  }

  lemma FirstIs(s: string, ch: char, n: nat)
    requires n < |s| && s[n] == ch && forall k :: 0 <= k < n ==> s[k] != ch
    ensures FirstOf(s, ch) == Some(n)
  {
    var i := FirstOf(s, ch);
    assert i.Some? ==> forall k :: 0 <= k < i.value ==> s[..i.value][k] != ch;
    assert i.Some? ==> forall k :: 0 <= k < i.value ==> s[..i.value][k] == s[k];
  }

  lemma LastOfEnd(s: string, ch: char)
    requires s != "" && s[|s| - 1] == ch
    ensures LastOf(s, ch) == Some(|s| - 1)
  {
  }

  lemma BracesFound(head: string, inner: string)
    requires '{' !in head
    ensures var s := head + "{" + inner + "}";
            FirstOf(s, '{') == Some(|head|) && LastOf(s, '}') == Some(|s| - 1)
            && s[..|head|] == head && s[|head| + 1..|s| - 1] == inner
  {
    var s := head + "{" + inner + "}";
    assert s[|head|] == '{' && s[|s| - 1] == '}' && forall k :: 0 <= k < |head| ==> s[k] == head[k];
    FirstIs(s, '{', |head|);
    LastOfEnd(s, '}');
  }

  lemma NoBrace(s: string)
    requires '{' !in s
    ensures FirstOf(s, '{') == None
  {
  }

  lemma {:induction false} PathsTogether(a: seq<string>, b: seq<string>)
    requires a != [] && b != []
    ensures PathText(a + b) == PathText(a) + "::" + PathText(b)
    decreases |b|
  {
    var n := |b| - 1;
    if n == 0 {
      assert (a + b)[..|a|] == a && a + b == a + [b[0]];
    } else {
      PathsTogether(a, b[..n]);
      assert (a + b)[..|a + b| - 1] == a + b[..n];
      var x, y, z := PathText(a) + "::", PathText(b[..n]), "::" + b[n];
      assert PathText(a + b) == x + y + "::" + b[n];
      assert x + y + "::" + b[n] == x + (y + "::" + b[n]);
    }
  }

  lemma JoinIs(prefix: seq<string>, path: seq<string>)
    requires Idents(prefix) && Idents(path)
    ensures JoinPath(PathText(prefix), PathText(path)) == PathText(prefix + path)
  {
    hide Inked, Ident;
    if prefix == [] {
      assert prefix + path == path;
    } else if path == [] {
      assert prefix + path == prefix;
    } else {
      PathIsInked(prefix);
      PathIsInked(path);
      InkedNotEmpty(PathText(prefix));
      InkedNotEmpty(PathText(path));
      PathsTogether(prefix, path);
    }
  }

  lemma RootIs(full: seq<string>)
    requires Idents(full) && full != []
    ensures Before(PathText(full), "::") == full[0]
  {
    IdentIsInked(full[0]);
    if |full| == 1 {
      BeforeIs(full[0], "::", "");
    } else {
      PathsTogether(full[..1], full[1..]);
      assert full[..1] + full[1..] == full && PathText(full[..1]) == full[0];
      BeforeIs(full[0], "::", PathText(full[1..]));
    }
  }

  lemma LastIs(path: seq<string>)
    requires Idents(path) && path != []
    ensures AfterLast(PathText(path), "::") == path[|path| - 1]
  {
    var n := |path| - 1;
    IdentIsInked(path[n]);
    hide Ident, Inked;
    AfterLastIs(if n == 0 then "" else PathText(path[..n]), path[n]);
  }

  // ---- Expanding printed text ----

  lemma NameIs(path: seq<string>, alias: Option<string>)
    requires Idents(path) && path != []
    ensures Trimmed(Before(PathText(path) + (if alias.Some? then " as " + alias.value else ""), " as ")) == PathText(path)
  {
    hide Trimmed, Inked, Idents, PathText, Before;
    PathIsInked(path);
    TrimInked("", PathText(path));
    var p := PathText(path);
    BeforeIs(p, " as ", if alias.Some? then alias.value else "");
    if alias.Some? {
      assert p + (" as " + alias.value) == p + " as " + alias.value;
    } else {
      assert p + "" == p;
    }
  }

  lemma FullIdents(prefix: seq<string>, path: seq<string>)
    requires Idents(prefix) && Idents(path)
    ensures Idents(prefix + path)
  {
    hide Ident;
  }

  lemma ExpandedName(prefix: seq<string>, path: seq<string>, alias: Option<string>)
    requires Idents(prefix) && Idents(path) && path != []
    ensures ExpandName(PathText(prefix), PathText(path) + (if alias.Some? then " as " + alias.value else "")) == Leaf(prefix + path)
  {
    hide Trimmed, Inked, Ident, PathText, Before, AfterLast, JoinPath;
    NameIs(path, alias);
    var last := path[|path| - 1];
    LastIs(path);
    IdentIsInked(last);
    TrimInked("", last);
    InkedNotEmpty(last);
    JoinIs(prefix, path);
    FullIdents(prefix, path);
    RootIs(prefix + path);
  }

  lemma ExpandedGlob(prefix: string, path: seq<string>)
    requires Idents(path)
    ensures ExpandName(prefix, Lead(path) + "*") == []
  {
    hide Inked, Ident, Before, PathText;
    var s := Lead(path) + "*";
    LeadShape(path);
    PrintIsInked(Glob(path), "");
    BeforeIs(s, " as ", "");
    TrimInked("", s);
    AfterLastIs(PathText(path), "*");
    BraceInk("");
    TrimInked("", "*");
    assert path != [] ==> PathText(path) + "::" + "*" == s;
    assert path == [] ==> s == "*";
  }

  lemma NameHasNoBrace(path: seq<string>, alias: Option<string>)
    requires Idents(path) && path != [] && (alias.Some? ==> Ident(alias.value))
    ensures '{' !in PathText(path) + (if alias.Some? then " as " + alias.value else "")
  {
    PathIsInked(path);
    if alias.Some? {
      IdentIsInked(alias.value);
      hide Ident, PathText;
      assert '{' !in " as ";
    }
  }

  /** The expansion of one printed tree. */
  lemma {:induction false} ExpandTree(prefix: seq<string>, t: UseTree, gap: string)
    requires Legal(t) && Idents(prefix) && Blanks(gap)
    ensures ExpandPart(PathText(prefix), Print(t, gap)) == Some(Leaves(prefix, t))
    decreases t, 1
  {
    hide Inked, Ident, PathText, Lead, Spaced, Closed, Commas, ExpandName, Expand, Segment, JoinPath, FirstOf, LastOf;
    PrintIsInked(t, gap);
    InkedNotEmpty(Print(t, gap));
    match t {
      case Name(path, alias) =>
        NameHasNoBrace(path, alias);
        NoBrace(Print(t, gap));
        ExpandedName(prefix, path, alias);
      case Glob(path) =>
        LeadShape(path);
        assert '{' !in Lead(path) + "*";
        NoBrace(Print(t, gap));
        ExpandedGlob(PathText(prefix), path);
      case Group(path, items, trailing) =>
        var inner := Commas(Closed(Spaced(items, gap), gap, trailing));
        LeadShape(path);
        BracesFound(Lead(path), inner);
        SegmentOfLead(path);
        JoinIs(prefix, path);
        FullIdents(prefix, path);
        ExpandItems(prefix + path, items, gap, trailing);
    }
  }

  lemma {:induction false} SpacedEach(items: seq<UseTree>, gap: string)
    ensures forall i :: 0 <= i < |items| ==> Spaced(items, gap)[i] == gap + Print(items[i], gap)
  {
    hide Print;
    if items != [] {
      SpacedEach(items[..|items| - 1], gap);
    }
  }

  lemma PieceTrims(items: seq<UseTree>, gap: string, trailing: bool, i: nat)
    requires Blanks(gap) && i < |items| && Legal(items[i])
    ensures |Closed(Spaced(items, gap), gap, trailing)| >= |items|
    ensures Trimmed(Closed(Spaced(items, gap), gap, trailing)[i]) == Print(items[i], gap)
  {
    hide Trimmed, Inked, Spaced, Print, Legal;
    SpacedEach(items, gap);
    PrintIsInked(items[i], gap);
    TrimInked(gap, Print(items[i], gap));
  }

  lemma LastPiece(items: seq<UseTree>, gap: string, trailing: bool)
    requires Blanks(gap)
    ensures var pieces := Closed(Spaced(items, gap), gap, trailing);
            if items == [] || trailing then |pieces| == |items| + 1 && Trimmed(pieces[|items|]) == "" else |pieces| == |items|
  {
    hide Trimmed, Spaced;
    TrimBlanks(gap);
  }

  /** The first `k` printed items of a group. */
  lemma {:induction false} ExpandFirst(prefix: seq<string>, items: seq<UseTree>, gap: string, trailing: bool,
                                       pieces: seq<string>, k: nat, bound: nat)
    requires Idents(prefix) && Blanks(gap) && k <= |items| && forall i :: 0 <= i < |items| ==> Legal(items[i])
    requires pieces == Closed(Spaced(items, gap), gap, trailing) && |pieces| >= |items|
    requires forall i :: 0 <= i < |pieces| ==> |pieces[i]| <= bound
    ensures ExpandParts(PathText(prefix), pieces, k, bound) == Some(LeavesOf(prefix, items[..k]))
    decreases items, 0, k
  {
    hide Ident, Legal, PathText, Print, ExpandParts, Spaced, Closed, Trimmed, Leaves;
    if k == 0 {
      NoParts(PathText(prefix), pieces, bound);
      assert items[..0] == [];
    } else {
      ExpandFirst(prefix, items, gap, trailing, pieces, k - 1, bound);
      PieceTrims(items, gap, trailing, k - 1);
      ExpandTree(prefix, items[k - 1], gap);
      OnePart(PathText(prefix), pieces, k - 1, bound);
      assert items[..k][..k - 1] == items[..k - 1];
    }
  }

  lemma EmptyPart(prefix: string)
    ensures ExpandPart(prefix, "") == Some([])
  {
  }

  /** The expansion of the text between a group's braces: the leaves of its items, in order. */
  lemma {:induction false} ExpandItems(prefix: seq<string>, items: seq<UseTree>, gap: string, trailing: bool)
    requires Idents(prefix) && Blanks(gap) && forall i :: 0 <= i < |items| ==> Legal(items[i])
    ensures Expand(PathText(prefix), Commas(Closed(Spaced(items, gap), gap, trailing))) == Some(LeavesOf(prefix, items))
    decreases items, 1
  {
    hide Whole, Ident, Legal, PathText, Commas, Split, Print, ExpandParts, Spaced, Closed, Trimmed, LeavesOf;
    var pieces := Closed(Spaced(items, gap), gap, trailing);
    var text := Commas(pieces);
    SpacedAreWhole(items, gap);
    ClosedAreWhole(Spaced(items, gap), gap, trailing);
    SplitCommas(pieces);
    PartsShorter(text);
    LastPiece(items, gap, trailing);
    ExpandFirst(prefix, items, gap, trailing, pieces, |items|, |text|);
    assert items[..|items|] == items;
    if |pieces| > |items| {
      OnePart(PathText(prefix), pieces, |items|, |text|);
      EmptyPart(PathText(prefix));
      assert LeavesOf(prefix, items) + [] == LeavesOf(prefix, items);
    }
  }

  /** What `parse_imports` finds for a `use` declaration written from tree `t`: its leaves under
      `crate`, `self` and `super`, fully qualified, in order. */
  lemma ExpandPrinted(t: UseTree, gap: string)
    requires Legal(t) && Blanks(gap)
    ensures Expand("", Print(t, gap)) == Some(Leaves([], t))
  {
    hide Ident, Legal, Split, Print, ExpandParts, ExpandPart, Trimmed, Leaves, Whole, Inked, PathText, Commas;
    var text := Print(t, gap);
    PrintIsWhole(t, gap);
    PrintIsInked(t, gap);
    TrimInked("", text);
    OnePiece(text);
    SplitCommas([text]);
    PartsShorter(text);
    NoParts("", [text], |text|);
    OnePart("", [text], 0, |text|);
    NoLead();
    ExpandTree([], t, gap);
    assert [] + Leaves([], t) == Leaves([], t);
  }

  lemma OnePiece(text: string)
    ensures Commas([text]) == text
  {
  }
}
