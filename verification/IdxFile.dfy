/** An IDX file as lines: joining what the encoder writes, and cutting a text back into the lines
    the decoder looks at. */
module IdxFile {
  import opened Atlas
  import opened IdxText
  import opened IdxLines
  import opened IdxRecords

  function Joined(lines: seq<string>): string {
    if lines == [] then "" else lines[0] + "\n" + Joined(lines[1..])
  }

  // ---- Cutting a text into lines ----

  /** `replace("\r\n", "\n")`. */
  function Normalised(s: string): string {
    if s == "" then ""
    else if |s| >= 2 && s[0] == '\r' && s[1] == '\n' then "\n" + Normalised(s[2..])
    else [s[0]] + Normalised(s[1..])
  }

  function NewlineAt(s: string): (i: Option<nat>)
    ensures i.Some? ==> i.value < |s|
  {
    if s == "" then None
    else if s[0] == '\n' then Some(0)
    else match NewlineAt(s[1..]) case None => None case Some(i) => Some(i + 1)
  }

  /** `lines`; a carriage return before the newline is left for `Trimmed`. */
  function LinesOf(s: string): seq<string>
    decreases |s|
  {
    if s == "" then []
    else
      match NewlineAt(s)
      case None => [s]
      case Some(i) => [s[..i]] + LinesOf(s[i + 1..])
  }

  function TrimStart(s: string): string {
    if s != "" && White(s[0]) then TrimStart(s[1..]) else s
  }

  function TrimEnd(s: string): string {
    if s != "" && White(s[|s| - 1]) then TrimEnd(s[..|s| - 1]) else s
  }

  function Trimmed(s: string): string {
    TrimEnd(TrimStart(s))
  }

  /** The trimmed lines, without the empty ones. */
  function Kept(lines: seq<string>): seq<string> {
    if lines == [] then []
    else
      var line := Trimmed(lines[|lines| - 1]);
      Kept(lines[..|lines| - 1]) + (if line != "" then [line] else [])
  }

  function RecordLines(text: string): seq<string> {
    Kept(LinesOf(Normalised(text)))
  }

  // ---- What was joined is cut the same way ----

  ghost predicate Visible(s: string) {
    forall i :: 0 <= i < |s| ==> s[i] >= ' '
  }

  lemma {:induction false} JoinedHasNoReturn(lines: seq<string>)
    requires forall i :: 0 <= i < |lines| ==> Visible(lines[i])
    ensures '\r' !in Joined(lines)
  {
    if lines != [] {
      assert '\r' !in lines[0];
      JoinedHasNoReturn(lines[1..]);
    }
  }

  lemma {:induction false} NormalisedKeeps(s: string)
    requires '\r' !in s
    ensures Normalised(s) == s
  {
    if s != "" {
      NormalisedKeeps(s[1..]);
    }
  }

  lemma {:induction false} NewlineAfter(line: string, rest: string)
    requires Visible(line)
    ensures NewlineAt(line + "\n" + rest) == Some(|line|)
  {
    if line != "" {
      NewlineAfter(line[1..], rest);
      assert (line + "\n" + rest)[1..] == line[1..] + "\n" + rest;
    }
  }

  lemma LinesStep(line: string, rest: string)
    requires Visible(line)
    ensures LinesOf(line + "\n" + rest) == [line] + LinesOf(rest)
  {
    NewlineAfter(line, rest);
    hide NewlineAt, Visible;
    var s := line + "\n" + rest;
    assert s[..|line|] == line && s[|line| + 1..] == rest;
  }

  lemma {:induction false} LinesOfJoined(lines: seq<string>)
    requires forall i :: 0 <= i < |lines| ==> Visible(lines[i])
    ensures LinesOf(Joined(lines)) == lines
    decreases |lines|
  {
    hide Visible, LinesOf;
    if lines == [] {
      NoLines();
    } else {
      LinesStep(lines[0], Joined(lines[1..]));
      LinesOfJoined(lines[1..]);
    }
  }

  lemma NoLines()
    ensures LinesOf("") == []
  {
  }

  lemma TrimmedKeeps(line: string)
    requires OneLine(line)
    ensures Trimmed(line) == line && Visible(line)
  {
  }

  lemma NotEmpty(line: string)
    requires OneLine(line)
    ensures line != ""
  {
  }

  lemma KeptStep(lines: seq<string>)
    requires lines != [] && OneLine(lines[|lines| - 1])
    ensures Kept(lines) == Kept(lines[..|lines| - 1]) + [lines[|lines| - 1]]
  {
    hide Trimmed, OneLine, Visible;
    TrimmedKeeps(lines[|lines| - 1]);
    NotEmpty(lines[|lines| - 1]);
  }

  lemma {:induction false} KeptKeeps(lines: seq<string>)
    requires forall i :: 0 <= i < |lines| ==> OneLine(lines[i])
    ensures Kept(lines) == lines
  {
    hide OneLine, Trimmed, Visible;
    if lines != [] {
      KeptKeeps(lines[..|lines| - 1]);
      KeptStep(lines);
    }
  }

  /** The decoder sees exactly the lines the encoder wrote. */
  lemma FileRoundTrip(lines: seq<string>)
    requires forall i :: 0 <= i < |lines| ==> OneLine(lines[i])
    ensures RecordLines(Joined(lines)) == lines
  {
    forall i | 0 <= i < |lines| ensures Visible(lines[i]) {
      TrimmedKeeps(lines[i]);
    }
    hide Visible, OneLine;
    JoinedHasNoReturn(lines);
    NormalisedKeeps(Joined(lines));
    LinesOfJoined(lines);
    KeptKeeps(lines);
  }

  // ---- The first token of a line ----

  /** The length of the text up to the first blank outside quotes. */
  function TokenEnd(s: string, quoted: bool, escaped: bool): Result<nat, TextError>
    decreases |s|
  {
    if s == "" then (if quoted then Err(UnterminatedQuote) else Ok(0))
    else if !escaped && s[0] == ' ' && !quoted then Ok(0)
    else
      match TokenEnd(s[1..], if !escaped && s[0] == '"' then !quoted else quoted, !escaped && s[0] == '\\' && quoted)
      case Err(e) => Err(e)
      case Ok(n) => Ok(n + 1)
  }

  lemma {:induction false} TokenEndInside(s: string, quoted: bool, escaped: bool)
    ensures TokenEnd(s, quoted, escaped).Ok? ==> TokenEnd(s, quoted, escaped).value <= |s|
    decreases |s|
  {
    if s != "" {
      TokenEndInside(s[1..], if !escaped && s[0] == '"' then !quoted else quoted, !escaped && s[0] == '\\' && quoted);
    }
  }

  /** `split_first_token`: the token and what follows the blank. */
  function SplitFirst(s: string): Result<(string, string), TextError> {
    TokenEndInside(s, false, false);
    match TokenEnd(s, false, false)
    case Err(e) => Err(e)
    case Ok(n) => if n < |s| then Ok((s[..n], TrimStart(s[n + 1..]))) else Ok((s, ""))
  }

  method SplitFirstToken(input: string) returns (r: Result<(string, string), TextError>)
    ensures r == SplitFirst(input)
  {
    var inQuotes, escaped := false, false;
    assert input[0..] == input;
    TokenEndInside(input, false, false);
    for i := 0 to |input|
      invariant match TokenEnd(input[i..], inQuotes, escaped)
                case Err(e) => TokenEnd(input, false, false) == Err(e)
                case Ok(n) => TokenEnd(input, false, false) == Ok(i + n)
    {
      assert input[i..][1..] == input[i + 1..];
      var ch := input[i];
      if escaped {
        escaped := false;
        continue;
      }
      if ch == '\\' && inQuotes {
        escaped := true;
        continue;
      }
      if ch == '"' {
        inQuotes := !inQuotes;
        continue;
      }
      if ch == ' ' && !inQuotes {
        return Ok((input[..i], TrimStart(input[i + 1..])));
      }
    }
    if inQuotes {
      return Err(UnterminatedQuote);
    }
    return Ok((input, ""));
  }

  function More(r: Result<nat, TextError>, k: nat): Result<nat, TextError> {
    match r
    case Err(e) => Err(e)
    case Ok(n) => Ok(n + k)
  }

  lemma {:induction false} EndAfterPlain(s: string, rest: string, quoted: bool)
    requires forall i :: 0 <= i < |s| ==> s[i] != '"' && s[i] != '\\' && (!quoted ==> s[i] != ' ')
    ensures TokenEnd(s + rest, quoted, false) == More(TokenEnd(rest, quoted, false), |s|)
    decreases |s|
  {
    if s == "" {
      assert s + rest == rest;
    } else {
      assert (s + rest)[1..] == s[1..] + rest;
      EndAfterPlain(s[1..], rest, quoted);
    }
  }

  /** After the backslash and the character it escapes, nothing special follows. */
  lemma EscapeShape(c: char)
    ensures var e := EscapeChar(c);
            |e| >= 1 && (|e| == 1 ==> e[0] != '"' && e[0] != '\\')
            && (|e| >= 2 ==> e[0] == '\\' && forall i :: 2 <= i < |e| ==> e[i] != '"' && e[i] != '\\')
  {
    if c < ' ' {
      HexRoundTrip(c as int / 16);
      HexRoundTrip(c as int % 16);
    }
  }

  lemma EndAfterPair(e: string, rest: string)
    requires |e| >= 2 && e[0] == '\\' && forall i :: 2 <= i < |e| ==> e[i] != '"' && e[i] != '\\'
    ensures TokenEnd(e + rest, true, false) == More(TokenEnd(rest, true, false), |e|)
  {
    var s := e + rest;
    var after := e[2..];
    assert s[1..][0] == e[1] && s[1..][1..] == after + rest;
    assert TokenEnd(s, true, false) == More(TokenEnd(s[1..], true, true), 1);
    assert TokenEnd(s[1..], true, true) == More(TokenEnd(after + rest, true, false), 1);
    EndAfterPlain(after, rest, true);
  }

  lemma EndAfterEscape(c: char, rest: string)
    ensures TokenEnd(EscapeChar(c) + rest, true, false) == More(TokenEnd(rest, true, false), |EscapeChar(c)|)
  {
    hide EscapeChar, TokenEnd;
    EscapeShape(c);
    if |EscapeChar(c)| == 1 {
      EndAfterPlain(EscapeChar(c), rest, true);
    } else {
      EndAfterPair(EscapeChar(c), rest);
    }
  }

  lemma {:induction false} EndAfterEscaped(v: string, rest: string)
    ensures TokenEnd(Escaped(v) + rest, true, false) == More(TokenEnd(rest, true, false), |Escaped(v)|)
    decreases |v|
  {
    hide EscapeChar, TokenEnd;
    if v == "" {
      assert Escaped(v) + rest == rest;
    } else {
      EscapedStep(v, rest);
      EndAfterEscape(v[0], Escaped(v[1..]) + rest);
      EndAfterEscaped(v[1..], rest);
    }
  }

  lemma EndAtQuotes(rest: string, inner: string)
    requires rest != "" && rest[0] == ' '
    ensures TokenEnd("\"" + rest, true, false) == Ok(1)
    ensures TokenEnd("\"" + inner, false, false) == More(TokenEnd(inner, true, false), 1)
  {
    assert ("\"" + rest)[1..] == rest && ("\"" + inner)[1..] == inner;
  }

  lemma EndAfterQuoted(v: string, rest: string)
    requires rest != "" && rest[0] == ' '
    ensures TokenEnd(Quoted(v) + rest, false, false) == Ok(|Quoted(v)|)
  {
    hide TokenEnd, Escaped;
    var inner := Escaped(v) + ("\"" + rest);
    EndAfterEscaped(v, "\"" + rest);
    EndAtQuotes(rest, inner);
    assert Quoted(v) + rest == "\"" + inner;
  }

  /** A rendered value followed by a blank is split off whole. */
  lemma FirstTokenIsField(v: string, rest: string)
    ensures SplitFirst(Field(v) + " " + rest) == Ok((Field(v), TrimStart(rest)))
  {
    var f, s := Field(v), Field(v) + " " + rest;
    if Bare(v) {
      forall i | 0 <= i < |v| ensures v[i] != '"' && v[i] != '\\' && v[i] != ' ' {
        assert BareChar(v[i]);
      }
      EndAfterPlain(v, " " + rest, false);
      assert TokenEnd(" " + rest, false, false) == Ok(0);
    } else {
      EndAfterQuoted(v, " " + rest);
    }
    assert f + (" " + rest) == s;
    hide TokenEnd, Field;
    assert s[..|f|] == f && s[|f| + 1..] == rest;
  }
}
