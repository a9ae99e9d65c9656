/** Expanding nested Rust `use` paths (`split_top_level`, `expand_use` and `join_path` of
    `adapter.rs`). */
module UseExpander {
  import opened Atlas
  import opened IdxRecords
  import opened IdxFile

  datatype Import = Import(path: string, item: string)

  // ---- Splitting at top-level commas ----

  /** The state of the split: finished parts, the part being read, and the brace depth. */
  datatype Cut = Cut(parts: seq<string>, current: string, depth: int)

  function CutStep(c: Cut, ch: char): Cut {
    if ch == '{' then c.(current := c.current + [ch], depth := c.depth + 1)
    else if ch == '}' then c.(current := c.current + [ch], depth := c.depth - 1)
    else if ch == ',' && c.depth == 0 then c.(parts := c.parts + [c.current], current := "")
    else c.(current := c.current + [ch])
  }

  function CutOver(c: Cut, text: string): Cut
    decreases |text|
  {
    if text == "" then c else CutOver(CutStep(c, text[0]), text[1..])
  }

  function PartsOf(c: Cut): seq<string> {
    c.parts + [c.current]
  }

  function Split(text: string): seq<string> {
    PartsOf(CutOver(Cut([], "", 0), text))
  }

  function Commas(parts: seq<string>): string {
    if parts == [] then ""
    else if |parts| == 1 then parts[0]
    else Commas(parts[..|parts| - 1]) + "," + parts[|parts| - 1]
  }

  lemma CommasMore(parts: seq<string>, part: string)
    requires parts != []
    ensures Commas(parts + [part]) == Commas(parts) + "," + part
  {
    assert (parts + [part])[..|parts|] == parts;
  }

  lemma CommasLonger(parts: seq<string>, part: string, ch: char)
    ensures Commas(parts + [part + [ch]]) == Commas(parts + [part]) + [ch]
  {
    if parts == [] {
      assert parts + [part] == [part] && parts + [part + [ch]] == [part + [ch]];
    } else {
      CommasMore(parts, part);
      CommasMore(parts, part + [ch]);
      RegroupText(Commas(parts) + ",", part, [ch]);
    }
  }

  lemma RegroupText(a: string, b: string, c: string)
    ensures a + b + c == a + (b + c)
  {
  }

  lemma StepKeepsText(c: Cut, ch: char)
    ensures Commas(PartsOf(CutStep(c, ch))) == Commas(PartsOf(c)) + [ch]
  {
    if ch == ',' && c.depth == 0 {
      CommasMore(c.parts + [c.current], "");
      var t := Commas(c.parts + [c.current]);
      assert t + "," + "" == t + [ch];
    } else {
      CommasLonger(c.parts, c.current, ch);
    }
  }

  lemma {:induction false} CutKeepsText(c: Cut, text: string)
    ensures Commas(PartsOf(CutOver(c, text))) == Commas(PartsOf(c)) + text
    decreases |text|
  {
    hide CutStep, PartsOf, Commas;
    if text == "" {
      assert Commas(PartsOf(c)) + "" == Commas(PartsOf(c));
    } else {
      StepKeepsText(c, text[0]);
      CutKeepsText(CutStep(c, text[0]), text[1..]);
      RegroupText(Commas(PartsOf(c)), [text[0]], text[1..]);
      assert [text[0]] + text[1..] == text;
    }
  }

  /** Whatever the text, balanced or not, the parts joined with commas give it back. */
  lemma SplitRejoins(text: string)
    ensures Commas(Split(text)) == text
  {
    CutKeepsText(Cut([], "", 0), text);
    assert [] + [""] == [""] && "" + text == text;
  }

  /** `split_top_level`. */
  method SplitTopLevel(text: string) returns (parts: seq<string>)
    ensures parts == Split(text) && Commas(parts) == text
  {
    parts := [];
    var depth, start := 0, 0;
    assert text[0..] == text && text[0..0] == "";
    for i := 0 to |text|
      invariant 0 <= start <= i
      invariant CutOver(Cut(parts, text[start..i], depth), text[i..]) == CutOver(Cut([], "", 0), text)
    {
      var c := text[i];
      assert text[i..][1..] == text[i + 1..] && text[start..i] + [c] == text[start..i + 1] && text[i + 1..i + 1] == "";
      if c == '{' {
        depth := depth + 1;
      } else if c == '}' {
        depth := depth - 1;
      } else if c == ',' && depth == 0 {
        parts := parts + [text[start..i]];
        start := i + 1;
      }
    }
    parts := parts + [text[start..]];
    SplitRejoins(text);
  }

  // ---- Text searches ----

  function FirstOf(text: string, ch: char): (i: Option<nat>)
    ensures i.Some? ==> i.value < |text| && text[i.value] == ch && ch !in text[..i.value]
    ensures i.None? ==> ch !in text
  {
    if text == "" then None
    else if text[0] == ch then Some(0)
    else match FirstOf(text[1..], ch) case None => None case Some(i) => assert text[..i + 1] == [text[0]] + text[1..][..i]; Some(i + 1)
  }

  function LastOf(text: string, ch: char): (i: Option<nat>)
    ensures i.Some? ==> i.value < |text| && text[i.value] == ch && ch !in text[i.value + 1..]
    ensures i.None? ==> ch !in text
  {
    if text == "" then None
    else
      var n := |text| - 1;
      assert text == text[..n] + [text[n]];
      if text[n] == ch then Some(n)
      else
        match LastOf(text[..n], ch)
        case None => None
        case Some(i) => assert text[i + 1..] == text[..n][i + 1..] + [text[n]]; Some(i)
  }

  predicate HereAt(text: string, sep: string, i: nat) {
    i + |sep| <= |text| && text[i..i + |sep|] == sep
  }

  /** `split(sep).next()`: the text before the first separator. */
  function Before(text: string, sep: string): string
    requires sep != ""
    decreases |text|
  {
    if text == "" || HereAt(text, sep, 0) then "" else [text[0]] + Before(text[1..], sep)
  }

  /** `rsplit(sep).next()`: the text after the last separator. */
  function AfterLast(text: string, sep: string): string
    requires sep != ""
    decreases |text|
  {
    if text == "" || (|sep| <= |text| && HereAt(text, sep, |text| - |sep|)) then ""
    else AfterLast(text[..|text| - 1], sep) + [text[|text| - 1]]
  }

  /** `trim_end_matches(sep)`. */
  function WithoutTail(text: string, sep: string): string
    requires sep != ""
    decreases |text|
  {
    if |sep| <= |text| && HereAt(text, sep, |text| - |sep|) then WithoutTail(text[..|text| - |sep|], sep) else text
  }

  // ---- Expanding ----

  function JoinPath(prefix: string, segment: string): string {
    if prefix == "" then segment else if segment == "" then prefix else prefix + "::" + segment
  }

  predicate Keyword(s: string) {
    s == "self" || s == "super" || s == "crate"
  }

  /** A part without braces: nothing for a glob, a bare keyword or an external root. */
  function ExpandName(prefix: string, part: string): seq<Import> {
    var name := Trimmed(Before(part, " as "));
    var leaf := Trimmed(AfterLast(name, "::"));
    var full := JoinPath(prefix, name);
    if leaf == "" || leaf == "*" || Keyword(leaf) || !Keyword(Before(full, "::")) then [] else [Import(full, leaf)]
  }

  function Segment(head: string): string {
    Trimmed(WithoutTail(Trimmed(head), "::"))
  }

  lemma {:induction false} TrimShrinks(s: string)
    ensures |TrimStart(s)| <= |s| && |TrimEnd(s)| <= |s|
  {
    if s != "" {
      if White(s[0]) {
        TrimShrinks(s[1..]);
      }
      if White(s[|s| - 1]) {
        TrimShrinks(s[..|s| - 1]);
      }
    }
  }

  lemma TrimmedShrinks(s: string)
    ensures |Trimmed(s)| <= |s|
  {
    TrimShrinks(s);
    TrimShrinks(TrimStart(s));
  }

  lemma PartsShorter(text: string)
    ensures forall i :: 0 <= i < |Split(text)| ==> |Split(text)[i]| <= |text|
  {
    SplitRejoins(text);
    PartsWithin(Split(text));
  }

  lemma {:induction false} PartsWithin(parts: seq<string>)
    ensures forall i :: 0 <= i < |parts| ==> |parts[i]| <= |Commas(parts)|
  {
    if |parts| > 1 {
      PartsWithin(parts[..|parts| - 1]);
    }
  }

  /** `expand_use`, with `None` for the slice whose bounds cross: a part whose last closing brace
      comes before its first opening one. */
  function Expand(prefix: string, text: string): Option<seq<Import>>
    decreases |text|, 2, 0
  {
    PartsShorter(text);
    ExpandParts(prefix, Split(text), |Split(text)|, |text|)
  }

  function ExpandParts(prefix: string, parts: seq<string>, k: nat, bound: nat): Option<seq<Import>>
    requires k <= |parts| && forall i :: 0 <= i < |parts| ==> |parts[i]| <= bound
    decreases bound, 1, k
  {
    if k == 0 then Some([])
    else
      match ExpandParts(prefix, parts, k - 1, bound)
      case None => None
      case Some(done) =>
        TrimmedShrinks(parts[k - 1]);
        match ExpandPart(prefix, Trimmed(parts[k - 1]))
        case None => None
        case Some(more) => Some(done + more)
  }

  /** One trimmed part. */
  function ExpandPart(prefix: string, part: string): Option<seq<Import>>
    decreases |part|, 0, 0
  {
    if part == "" then Some([])
    else
      match FirstOf(part, '{')
      case None => Some(ExpandName(prefix, part))
      case Some(brace) =>
        var close := if LastOf(part, '}').Some? then LastOf(part, '}').value else |part|;
        if close < brace + 1 then None else Expand(JoinPath(prefix, Segment(part[..brace])), part[brace + 1..close])
  }

  method ExpandUse(prefix: string, text: string) returns (out: Option<seq<Import>>)
    ensures out == Expand(prefix, text)
    decreases |text|
  {
    hide Split, Trimmed, ExpandName, Segment, JoinPath, ExpandParts;
    var parts := SplitTopLevel(text);
    PartsShorter(text);
    var found: seq<Import> := [];
    NoParts(prefix, parts, |text|);
    for k := 0 to |parts|
      invariant ExpandParts(prefix, parts, k, |text|) == Some(found)
    {
      var part := Trimmed(parts[k]);
      OnePart(prefix, parts, k, |text|);
      NoneStays(prefix, parts, k + 1, |text|);
      TrimmedShrinks(parts[k]);
      if part == "" {
        assert found + [] == found;
        continue;
      }
      var brace := FirstOf(part, '{');
      if brace.Some? {
        var last := LastOf(part, '}');
        var close := if last.Some? then last.value else |part|;
        if close < brace.value + 1 {
          return None;
        }
        var inner := ExpandUse(JoinPath(prefix, Segment(part[..brace.value])), part[brace.value + 1..close]);
        if inner == None {
          return None;
        }
        found := found + inner.value;
      } else {
        found := found + ExpandName(prefix, part);
      }
    }
    return Some(found);
  }

  lemma NoParts(prefix: string, parts: seq<string>, bound: nat)
    requires forall i :: 0 <= i < |parts| ==> |parts[i]| <= bound
    ensures ExpandParts(prefix, parts, 0, bound) == Some([])
  {
  }

  lemma OnePart(prefix: string, parts: seq<string>, k: nat, bound: nat)
    requires k < |parts| && forall i :: 0 <= i < |parts| ==> |parts[i]| <= bound
    requires ExpandParts(prefix, parts, k, bound).Some?
    ensures var part := ExpandPart(prefix, Trimmed(parts[k]));
            ExpandParts(prefix, parts, k + 1, bound) ==
            if part == None then None else Some(ExpandParts(prefix, parts, k, bound).value + part.value)
  {
    hide ExpandPart, Trimmed;
  }

  lemma NoneStaysOnce(prefix: string, parts: seq<string>, k: nat, bound: nat)
    requires k < |parts| && forall i :: 0 <= i < |parts| ==> |parts[i]| <= bound
    ensures ExpandParts(prefix, parts, k, bound) == None ==> ExpandParts(prefix, parts, k + 1, bound) == None
  {
    hide ExpandPart, Trimmed;
  }

  lemma {:induction false} NoneStays(prefix: string, parts: seq<string>, k: nat, bound: nat)
    requires k <= |parts| && forall i :: 0 <= i < |parts| ==> |parts[i]| <= bound
    ensures ExpandParts(prefix, parts, k, bound) == None ==> ExpandParts(prefix, parts, |parts|, bound) == None
    decreases |parts| - k
  {
    hide ExpandParts;
    if k < |parts| {
      NoneStaysOnce(prefix, parts, k, bound);
      NoneStays(prefix, parts, k + 1, bound);
    }
  }
}
