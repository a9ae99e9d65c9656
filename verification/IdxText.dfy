/** The text layer of the IDX format: quoting a value (`idx/escape.rs`) and splitting a record
    line into its tag and fields (`tokenize` of `idx/decode.rs`). */
module IdxText {
  import opened Atlas

  datatype Pair = Pair(key: string, value: string)

  datatype Record = Record(tag: string, fields: seq<Pair>)

  datatype TextError = UnterminatedQuote | EmptyLine | NoSeparator(token: string) | BadQuoted(value: string)

  // ---- Writing: JSON strings (section 7 of RFC 8259) ----

  const HEX := "0123456789abcdef"

  function Hex(d: int): char
    requires 0 <= d < 16
  {
    HEX[d]
  }

  /** One character of a JSON string. */
  function EscapeChar(c: char): (e: string)
    ensures |e| == 1 || |e| == 2 || |e| == 6
  {
    if c == '"' then "\\\""
    else if c == '\\' then "\\\\"
    else if c == '\U{08}' then "\\b"
    else if c == '\U{0c}' then "\\f"
    else if c == '\n' then "\\n"
    else if c == '\r' then "\\r"
    else if c == '\t' then "\\t"
    else if c < ' ' then "\\u00" + [Hex(c as int / 16), Hex(c as int % 16)]
    else [c]
  }

  function Escaped(v: string): string {
    if v == "" then "" else EscapeChar(v[0]) + Escaped(v[1..])
  }

  function Quoted(v: string): string {
    "\"" + Escaped(v) + "\""
  }

  predicate BareChar(c: char) {
    '0' <= c <= '9' || 'A' <= c <= 'Z' || 'a' <= c <= 'z' || c == '-' || c == '_' || c == '.' || c == '/'
  }

  predicate Bare(v: string) {
    v != "" && forall i :: 0 <= i < |v| ==> BareChar(v[i])
  }

  /** `field`: a bare atom as it is, anything else quoted. */
  function Field(v: string): string {
    if Bare(v) then v else Quoted(v)
  }

  // ---- Reading a JSON string ----

  datatype Read = Read(value: string, rest: string)

  function HexValue(c: char): (r: Option<int>)
    ensures r.Some? ==> 0 <= r.value < 16
  {
    if '0' <= c <= '9' then Some(c as int - '0' as int)
    else if 'a' <= c <= 'f' then Some(c as int - 'a' as int + 10)
    else if 'A' <= c <= 'F' then Some(c as int - 'A' as int + 10)
    else None
  }

  function Hex4(s: string): (r: Option<int>)
    requires |s| >= 4
    ensures r.Some? ==> 0 <= r.value < 0x1_0000
  {
    var a, b, c, d := HexValue(s[0]), HexValue(s[1]), HexValue(s[2]), HexValue(s[3]);
    if a.Some? && b.Some? && c.Some? && d.Some?
    then Some(((a.value * 16 + b.value) * 16 + c.value) * 16 + d.value)
    else None
  }

  /** The character after a backslash, and how much text spells it; surrogates come in pairs. */
  function Unescape(s: string): Option<(char, nat)> {
    if s == "" then None
    else
      match s[0]
      case '"' => Some(('"', 1))
      case '\\' => Some(('\\', 1))
      case '/' => Some(('/', 1))
      case 'b' => Some(('\U{08}', 1))
      case 'f' => Some(('\U{0c}', 1))
      case 'n' => Some(('\n', 1))
      case 'r' => Some(('\r', 1))
      case 't' => Some(('\t', 1))
      case 'u' => UnescapeUnicode(s[1..])
      case _ => None
  }

  function UnescapeUnicode(s: string): Option<(char, nat)> {
    if |s| < 4 || Hex4(s).None? then None
    else
      var n := Hex4(s).value;
      if n < 0xD800 || 0xE000 <= n then Some((n as char, 5))
      else if 0xDC00 <= n || |s| < 10 || s[4] != '\\' || s[5] != 'u' || Hex4(s[6..]).None? then None
      else
        var m := Hex4(s[6..]).value;
        if 0xDC00 <= m < 0xE000 then Some((((n - 0xD800) * 0x400 + (m - 0xDC00) + 0x1_0000) as char, 11)) else None
  }

  /** The text up to the closing quote, unescaped. */
  function Body(s: string): Option<Read>
    decreases |s|
  {
    if s == "" then None
    else if s[0] == '"' then Some(Read("", s[1..]))
    else if s[0] == '\\' then
      match Unescape(s[1..])
      case None => None
      case Some((c, n)) =>
        if |s| < 1 + n then None
        else
          match Body(s[1 + n..])
          case None => None
          case Some(more) => Some(Read([c] + more.value, more.rest))
    else if s[0] < ' ' then None
    else
      match Body(s[1..])
      case None => None
      case Some(more) => Some(Read([s[0]] + more.value, more.rest))
  }

  predicate Blank(c: char) {
    c == ' ' || c == '\t' || c == '\n' || c == '\r'
  }

  /** A whole JSON string; only blanks may follow it. */
  function FromJson(s: string): Option<string> {
    if s == "" || s[0] != '"' then None
    else
      match Body(s[1..])
      case None => None
      case Some(r) => if forall i :: 0 <= i < |r.rest| ==> Blank(r.rest[i]) then Some(r.value) else None
  }

  // ---- What was escaped is read back ----

  lemma HexRoundTrip(d: int)
    requires 0 <= d < 16
    ensures HexValue(Hex(d)) == Some(d)
    ensures BareChar(Hex(d))
  {
  }

  lemma ControlEscape(c: char, rest: string)
    requires c < ' '
    ensures UnescapeUnicode("00" + [Hex(c as int / 16), Hex(c as int % 16)] + rest) == Some((c, 5))
  {
    var s := "00" + [Hex(c as int / 16), Hex(c as int % 16)] + rest;
    HexRoundTrip(c as int / 16);
    HexRoundTrip(c as int % 16);
    assert s[0] == '0' && s[1] == '0' && s[2] == Hex(c as int / 16) && s[3] == Hex(c as int % 16);
    hide Hex;
    assert Hex4(s) == Some(c as int);
  }

  /** One escaped character is read as that character. */
  lemma ReadEscaped(c: char, rest: string)
    ensures Body(EscapeChar(c) + rest) ==
            if Body(rest).None? then None else Some(Read([c] + Body(rest).value.value, Body(rest).value.rest))
  {
    hide Body, EscapeChar;
    if |EscapeChar(c)| == 1 {
      ReadPlain(c, rest);
    } else if |EscapeChar(c)| == 2 {
      ReadShort(c, rest);
    } else {
      ReadControl(c, rest);
    }
  }

  lemma PlainShape(c: char)
    requires |EscapeChar(c)| == 1
    ensures EscapeChar(c) == [c] && c != '"' && c != '\\' && c >= ' '
  {
  }

  lemma ReadPlain(c: char, rest: string)
    requires |EscapeChar(c)| == 1
    ensures Body(EscapeChar(c) + rest) ==
            if Body(rest).None? then None else Some(Read([c] + Body(rest).value.value, Body(rest).value.rest))
  {
    hide EscapeChar, Unescape;
    PlainShape(c);
    assert ([c] + rest)[1..] == rest;
  }

  lemma ControlShape(c: char, rest: string)
    requires |EscapeChar(c)| > 2
    ensures c < ' '
    ensures var s, digits := EscapeChar(c) + rest, "00" + [Hex(c as int / 16), Hex(c as int % 16)];
            s[0] == '\\' && s[1..] == "u" + (digits + rest) && |s| >= 6 && s[6..] == rest
  {
  }

  lemma ReadControl(c: char, rest: string)
    requires |EscapeChar(c)| > 2
    ensures Body(EscapeChar(c) + rest) ==
            if Body(rest).None? then None else Some(Read([c] + Body(rest).value.value, Body(rest).value.rest))
  {
    hide EscapeChar, Hex, UnescapeUnicode;
    ControlShape(c, rest);
    ControlEscape(c, rest);
    var tail := "00" + [Hex(c as int / 16), Hex(c as int % 16)] + rest;
    assert ("u" + tail)[1..] == tail;
  }

  lemma ReadShort(c: char, rest: string)
    requires |EscapeChar(c)| == 2
    ensures Body(EscapeChar(c) + rest) ==
            if Body(rest).None? then None else Some(Read([c] + Body(rest).value.value, Body(rest).value.rest))
  {
    var s := EscapeChar(c) + rest;
    assert s[1..][0] == EscapeChar(c)[1] && s[1 + 1..] == rest;
    assert Unescape(s[1..]) == Some((c, 1));
  }

  lemma ClosingQuote(rest: string)
    ensures Body("\"" + rest) == Some(Read("", rest))
  {
    assert ("\"" + rest)[1..] == rest;
  }

  lemma EscapedStep(v: string, rest: string)
    requires v != ""
    ensures Escaped(v) + rest == EscapeChar(v[0]) + (Escaped(v[1..]) + rest)
  {
    hide EscapeChar;
  }

  lemma {:induction false} BodyRoundTrip(v: string, rest: string)
    ensures Body(Escaped(v) + ("\"" + rest)) == Some(Read(v, rest))
  {
    hide Body, Escaped, EscapeChar;
    if v == "" {
      assert Escaped("") == "" by { EscapedNothing(); }
      assert "" + ("\"" + rest) == "\"" + rest;
      ClosingQuote(rest);
    } else {
      BodyRoundTrip(v[1..], rest);
      EscapedStep(v, "\"" + rest);
      ReadEscaped(v[0], Escaped(v[1..]) + ("\"" + rest));
      assert [v[0]] + v[1..] == v;
    }
  }

  lemma EscapedNothing()
    ensures Escaped("") == ""
  {
  }

  lemma JsonRoundTrip(v: string)
    ensures FromJson(Quoted(v)) == Some(v)
  {
    BodyRoundTrip(v, "");
    hide Body, Escaped;
    assert Quoted(v)[1..] == Escaped(v) + ("\"" + "");
  }

  // ---- Splitting a line ----

  /** The state of the scan: finished tokens, the one being read, and the two quote flags. */
  datatype Scanner = Scanner(tokens: seq<string>, current: string, quoted: bool, escaped: bool)

  const START := Scanner([], "", false, false)

  function Step(s: Scanner, ch: char): Scanner {
    if s.escaped then s.(current := s.current + [ch], escaped := false)
    else if ch == '\\' && s.quoted then s.(current := s.current + [ch], escaped := true)
    else if ch == '"' then s.(current := s.current + [ch], quoted := !s.quoted)
    else if ch == ' ' && !s.quoted then
      (if s.current != "" then s.(tokens := s.tokens + [s.current], current := "") else s)
    else s.(current := s.current + [ch])
  }

  function Scan(s: Scanner, line: string): Scanner
    decreases |line|
  {
    if line == "" then s else Scan(Step(s, line[0]), line[1..])
  }

  /** The first colon splits a field; a value that opens with a quote is a JSON string. */
  function ValueOf(shown: string): Option<string> {
    if shown != "" && shown[0] == '"' then FromJson(shown) else Some(shown)
  }

  function ColonAt(token: string): Option<nat> {
    if token == "" then None
    else if token[0] == ':' then Some(0)
    else match ColonAt(token[1..]) case None => None case Some(i) => Some(i + 1)
  }

  lemma ColonInside(token: string)
    ensures ColonAt(token).Some? ==> ColonAt(token).value < |token|
  {
  }

  function FieldOf(token: string): Result<Pair, TextError> {
    ColonInside(token);
    match ColonAt(token)
    case None => Err(NoSeparator(token))
    case Some(i) =>
      match ValueOf(token[i + 1..])
      case None => Err(BadQuoted(token[i + 1..]))
      case Some(v) => Ok(Pair(token[..i], v))
  }

  /** The fields of the tokens, or the first error. */
  function FieldsOf(tokens: seq<string>): Result<seq<Pair>, TextError> {
    if tokens == [] then Ok([])
    else
      match FieldsOf(tokens[..|tokens| - 1])
      case Err(e) => Err(e)
      case Ok(done) =>
        match FieldOf(tokens[|tokens| - 1])
        case Err(e) => Err(e)
        case Ok(pair) => Ok(done + [pair])
  }

  function TokensOf(s: Scanner): seq<string> {
    if s.current != "" then s.tokens + [s.current] else s.tokens
  }

  /** What a record line says. */
  function ParseLine(line: string): Result<Record, TextError> {
    var s := Scan(START, line);
    var tokens := TokensOf(s);
    if s.quoted then Err(UnterminatedQuote)
    else if tokens == [] then Err(EmptyLine)
    else
      match FieldsOf(tokens[1..])
      case Err(e) => Err(e)
      case Ok(fields) => Ok(Record(tokens[0], fields))
  }

  lemma {:induction false} ErrorStays(tokens: seq<string>, k: nat)
    requires k <= |tokens| && FieldsOf(tokens[..k]).Err?
    ensures FieldsOf(tokens) == Err(FieldsOf(tokens[..k]).error)
    decreases |tokens|
  {
    var n := |tokens| - 1;
    if k <= n {
      assert tokens[..n][..k] == tokens[..k];
      ErrorStays(tokens[..n], k);
    } else {
      assert tokens[..k] == tokens;
    }
  }

  lemma FieldsStep(tokens: seq<string>, k: nat)
    requires k < |tokens| && FieldsOf(tokens[..k]).Ok?
    ensures FieldsOf(tokens[..k + 1]) == match FieldOf(tokens[k])
                                         case Err(e) => Err(e)
                                         case Ok(pair) => Ok(FieldsOf(tokens[..k]).value + [pair])
  {
    assert tokens[..k + 1][..k] == tokens[..k];
  }

  /** `tokenize`. */
  method Tokenize(line: string) returns (r: Result<Record, TextError>)
    ensures r == ParseLine(line)
  {
    var tokens: seq<string>, current, inQuotes, escaped := [], "", false, false;
    assert line[0..] == line;
    for i := 0 to |line|
      invariant Scan(Scanner(tokens, current, inQuotes, escaped), line[i..]) == Scan(START, line)
    {
      var ch := line[i];
      assert line[i..][1..] == line[i + 1..];
      if escaped {
        current := current + [ch];
        escaped := false;
        continue;
      }
      if ch == '\\' && inQuotes {
        escaped := true;
        current := current + [ch];
        continue;
      }
      if ch == '"' {
        inQuotes := !inQuotes;
        current := current + [ch];
        continue;
      }
      if ch == ' ' && !inQuotes {
        if current != "" {
          tokens := tokens + [current];
          current := "";
        }
        continue;
      }
      current := current + [ch];
    }
    if current != "" {
      tokens := tokens + [current];
    }
    if inQuotes {
      return Err(UnterminatedQuote);
    }
    if tokens == [] {
      return Err(EmptyLine);
    }
    var tag := tokens[0];
    tokens := tokens[1..];
    assert ParseLine(line) == match FieldsOf(tokens) case Err(e) => Err(e) case Ok(fields) => Ok(Record(tag, fields));
    var fields: seq<Pair> := [];
    hide ParseLine, Scan, Step, FieldOf, FieldsOf;
    FieldsStart(tokens);
    for k := 0 to |tokens|
      invariant FieldsOf(tokens[..k]) == Ok(fields)
    {
      FieldsStep(tokens, k);
      var field := FieldOf(tokens[k]);
      if field.Err? {
        ErrorStays(tokens, k + 1);
        return Err(field.error);
      }
      fields := fields + [field.value];
    }
    assert tokens[..|tokens|] == tokens;
    return Ok(Record(tag, fields));
  }

  lemma FieldsStart(tokens: seq<string>)
    ensures FieldsOf(tokens[..0]) == Ok([])
  {
  }
}
