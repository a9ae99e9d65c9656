/** The append-only journal (`jsonl.rs`) as bytes on disk: what is read back after a write that a
    crash cut short, and after the next append. */
module Journals {
  import opened Atlas
  import opened Bytes
  import opened IdxAtoms
  import opened IdxText
  import opened IdxRecords
  import opened IdxFile

  const NEWLINE: Byte := 10
  const RETURN: Byte := 13

  /** How entries are spelled: printing and parsing one line, and the text tests of the reader. */
  datatype Codec<!T> = Codec(
    print_: T -> seq<Byte>, parse: seq<Byte> -> Option<T>, utf8: seq<Byte> -> bool, blank: seq<Byte> -> bool)

  datatype Finding = TruncatedTail(bytes: nat)

  datatype JournalError = NotText | Corrupt(line: nat)

  datatype Reading<T> = Reading(entries: seq<T>, findings: seq<Finding>)

  // ---- Cutting the file ----

  function NewlineIn(s: seq<Byte>): (i: Option<nat>)
    ensures i.Some? ==> i.value < |s|
  {
    if s == [] then None
    else if s[0] == NEWLINE then Some(0)
    else match NewlineIn(s[1..]) case None => None case Some(i) => Some(i + 1)
  }

  /** A terminated line also loses a carriage return. */
  function WithoutReturn(line: seq<Byte>): seq<Byte> {
    if line != [] && line[|line| - 1] == RETURN then line[..|line| - 1] else line
  }

  function RawLines(file: seq<Byte>): seq<seq<Byte>>
    decreases |file|
  {
    if file == [] then []
    else
      match NewlineIn(file)
      case None => [file]
      case Some(i) => [WithoutReturn(file[..i])] + RawLines(file[i + 1..])
  }

  predicate EndsCleanly(file: seq<Byte>) {
    file == [] || file[|file| - 1] == NEWLINE
  }

  // ---- Reading ----

  /** The first `k` lines: only the very last line of an unterminated file may fail to parse. */
  function ReadLines<T>(c: Codec<T>, raw: seq<seq<Byte>>, k: nat, clean: bool): Result<Reading<T>, JournalError>
    requires k <= |raw|
  {
    if k == 0 then Ok(Reading([], []))
    else
      var before :- ReadLines(c, raw, k - 1, clean);
      var line := raw[k - 1];
      if c.blank(line) then Ok(before)
      else
        match c.parse(line)
        case Some(e) => Ok(before.(entries := before.entries + [e]))
        case None =>
          if k == |raw| && !clean then Ok(before.(findings := before.findings + [TruncatedTail(|line|)])) else Err(Corrupt(k))
  }

  /** A file with a line that is not text cannot be read at all. */
  function Read<T>(c: Codec<T>, file: seq<Byte>): Result<Reading<T>, JournalError> {
    var raw := RawLines(file);
    if exists i :: 0 <= i < |raw| && !c.utf8(raw[i]) then Err(NotText) else ReadLines(c, raw, |raw|, EndsCleanly(file))
  }

  lemma {:induction false} ErrorStays<T>(c: Codec<T>, raw: seq<seq<Byte>>, k: nat, n: nat, clean: bool)
    requires k <= n <= |raw| && ReadLines(c, raw, k, clean).Err?
    ensures ReadLines(c, raw, n, clean) == Err(ReadLines(c, raw, k, clean).error)
    decreases n
  {
    if k < n {
      ErrorStays(c, raw, k, n - 1, clean);
    }
  }

  method ReadAllWithFindings<T>(c: Codec<T>, file: seq<Byte>) returns (r: Result<Reading<T>, JournalError>)
    ensures r == Read(c, file)
  {
    hide RawLines, ReadLines;
    var raw := RawLines(file);
    if exists i :: 0 <= i < |raw| && !c.utf8(raw[i]) {
      return Err(NotText);
    }
    var clean := EndsCleanly(file);
    var entries: seq<T>, findings: seq<Finding> := [], [];
    NothingRead(c, raw, clean);
    for index := 0 to |raw|
      invariant ReadLines(c, raw, index, clean) == Ok(Reading(entries, findings))
    {
      OneLine(c, raw, index, clean);
      var line := raw[index];
      if c.blank(line) {
        continue;
      }
      match c.parse(line) {
        case Some(entry) => entries := entries + [entry];
        case None =>
          if index == |raw| - 1 && !clean {
            findings := findings + [TruncatedTail(|line|)];
          } else {
            ErrorStays(c, raw, index + 1, |raw|, clean);
            return Err(Corrupt(index + 1));
          }
      }
    }
    return Ok(Reading(entries, findings));
  }

  lemma NothingRead<T>(c: Codec<T>, raw: seq<seq<Byte>>, clean: bool)
    ensures ReadLines(c, raw, 0, clean) == Ok(Reading([], []))
  {
  }

  lemma OneLine<T>(c: Codec<T>, raw: seq<seq<Byte>>, k: nat, clean: bool)
    requires k < |raw| && ReadLines(c, raw, k, clean).Ok?
    ensures var before, line := ReadLines(c, raw, k, clean).value, raw[k];
            ReadLines(c, raw, k + 1, clean) ==
            if c.blank(line) then Ok(before)
            else if c.parse(line).Some? then Ok(before.(entries := before.entries + [c.parse(line).value]))
            else if k + 1 == |raw| && !clean then Ok(before.(findings := before.findings + [TruncatedTail(|line|)]))
            else Err(Corrupt(k + 1))
  {
  }

  // ---- What is asked of the spelling ----

  /** One entry is one JSON object on one line: it parses back, and neither a part of it nor a part
      with another whole one after it parses. */
  ghost predicate Lawful<T(!new)>(c: Codec<T>) {
    && (forall e :: c.parse(c.print_(e)) == Some(e) && c.utf8(c.print_(e)) && !c.blank(c.print_(e)))
    && (forall e :: c.print_(e) != [] && NEWLINE !in c.print_(e) && c.print_(e)[|c.print_(e)| - 1] != RETURN)
    && (forall e, n :: 0 < n < |c.print_(e)| ==> c.parse(c.print_(e)[..n]) == None && !c.blank(c.print_(e)[..n]))
    && (forall e, f, n :: 0 < n <= |c.print_(e)| ==> Unparsed(c, c.print_(e)[..n] + c.print_(f)))
    && (forall e, f, n :: 0 < n <= |c.print_(e)| ==> c.utf8(c.print_(e)[..n] + c.print_(f)) == c.utf8(c.print_(e)[..n]))
  }

  predicate Unparsed<T>(c: Codec<T>, line: seq<Byte>) {
    c.parse(line) == None && !c.blank(line)
  }

  /** What `append` writes, entry after entry. */
  function Written<T>(c: Codec<T>, entries: seq<T>): seq<Byte> {
    if entries == [] then [] else Written(c, entries[..|entries| - 1]) + (c.print_(entries[|entries| - 1]) + [NEWLINE])
  }

  function LinesOfEntries<T>(c: Codec<T>, entries: seq<T>): (lines: seq<seq<Byte>>)
    ensures |lines| == |entries| && forall i :: 0 <= i < |lines| ==> lines[i] == c.print_(entries[i])
  {
    seq(|entries|, i requires 0 <= i < |entries| => c.print_(entries[i]))
  }

  lemma {:induction false} NewlineFirst(line: seq<Byte>, rest: seq<Byte>)
    requires NEWLINE !in line
    ensures NewlineIn(line + [NEWLINE] + rest) == Some(|line|)
  {
    if line != [] {
      assert (line + [NEWLINE] + rest)[1..] == line[1..] + [NEWLINE] + rest;
      NewlineFirst(line[1..], rest);
    }
  }

  lemma {:induction false} NoNewline(line: seq<Byte>)
    requires NEWLINE !in line
    ensures NewlineIn(line) == None
  {
    if line != [] {
      NoNewline(line[1..]);
    }
  }

  lemma RawLinesStep(line: seq<Byte>, rest: seq<Byte>)
    requires NEWLINE !in line && line != [] && line[|line| - 1] != RETURN
    ensures RawLines(line + [NEWLINE] + rest) == [line] + RawLines(rest)
  {
    hide NewlineIn;
    NewlineFirst(line, rest);
    var file := line + [NEWLINE] + rest;
    assert file[..|line|] == line && file[|line| + 1..] == rest;
  }

  lemma {:induction false} RawLinesOfWritten<T(!new)>(c: Codec<T>, entries: seq<T>, rest: seq<Byte>)
    requires Lawful(c)
    ensures RawLines(Written(c, entries) + rest) == LinesOfEntries(c, entries) + RawLines(rest)
    decreases |entries|
  {
    hide RawLines;
    if entries == [] {
      assert Written(c, entries) + rest == rest;
    } else {
      var n := |entries| - 1;
      var line := c.print_(entries[n]);
      RawLinesOfWritten(c, entries[..n], line + [NEWLINE] + rest);
      RawLinesStep(line, rest);
      Regrouped(Written(c, entries[..n]), line + [NEWLINE], rest);
      assert LinesOfEntries(c, entries) == LinesOfEntries(c, entries[..n]) + [line];
    }
  }

  lemma Regrouped(a: seq<Byte>, b: seq<Byte>, rest: seq<Byte>)
    ensures a + b + rest == a + (b + rest)
  {
  }

  lemma {:induction false} ReadWholeLines<T(!new)>(c: Codec<T>, entries: seq<T>, raw: seq<seq<Byte>>, k: nat, clean: bool)
    requires Lawful(c) && k <= |entries| <= |raw| && forall i :: 0 <= i < |entries| ==> raw[i] == c.print_(entries[i])
    ensures ReadLines(c, raw, k, clean) == Ok(Reading(entries[..k], []))
  {
    if k > 0 {
      ReadWholeLines(c, entries, raw, k - 1, clean);
      assert entries[..k] == entries[..k - 1] + [entries[k - 1]];
    }
  }

  // ---- A write cut short ----

  /** The journal after whole entries and the first `n` bytes of one more line. */
  function Torn<T>(c: Codec<T>, entries: seq<T>, last: T, n: nat): seq<Byte>
    requires n <= |c.print_(last)|
  {
    Written(c, entries) + c.print_(last)[..n]
  }

  lemma RawLinesOfTorn<T(!new)>(c: Codec<T>, entries: seq<T>, last: T, n: nat)
    requires Lawful(c) && n <= |c.print_(last)|
    ensures RawLines(Torn(c, entries, last, n)) ==
            LinesOfEntries(c, entries) + if n == 0 then [] else [c.print_(last)[..n]]
    ensures n > 0 ==> !EndsCleanly(Torn(c, entries, last, n))
    ensures n == 0 ==> EndsCleanly(Torn(c, entries, last, n))
  {
    var tail := c.print_(last)[..n];
    RawLinesOfWritten(c, entries, tail);
    assert NEWLINE !in tail;
    NoNewline(tail);
    WrittenEndsCleanly(c, entries);
    hide Written;
    if n > 0 {
      assert tail[n - 1] == c.print_(last)[n - 1] && tail[n - 1] in tail;
      assert Torn(c, entries, last, n)[|Torn(c, entries, last, n)| - 1] == tail[n - 1];
    } else {
      assert Written(c, entries) + [] == Written(c, entries);
      assert LinesOfEntries(c, entries) + [] == LinesOfEntries(c, entries);
    }
  }

  lemma WrittenEndsCleanly<T>(c: Codec<T>, entries: seq<T>)
    ensures EndsCleanly(Written(c, entries))
  {
    if entries != [] {
      var line := c.print_(entries[|entries| - 1]) + [NEWLINE];
      assert line[|line| - 1] == NEWLINE;
    }
  }

  lemma TornLine<T(!new)>(c: Codec<T>, last: T, n: nat)
    requires Lawful(c) && 0 < n <= |c.print_(last)|
    ensures var tail := c.print_(last)[..n];
            |tail| == n && !c.blank(tail) && c.parse(tail) == if n == |c.print_(last)| then Some(last) else None
  {
    assert n == |c.print_(last)| ==> c.print_(last)[..n] == c.print_(last);
  }

  /** What reading gives after a torn write: the whole entries, and the tail reported rather than
      parsed.  A tail that lacks only its newline is an entry; a tail that stops inside a
      character makes the file unreadable. */
  lemma ReadTorn<T(!new)>(c: Codec<T>, entries: seq<T>, last: T, n: nat)
    requires Lawful(c) && n <= |c.print_(last)|
    ensures Read(c, Torn(c, entries, last, n)) ==
            if n == 0 then Ok(Reading(entries, []))
            else if !c.utf8(c.print_(last)[..n]) then Err(NotText)
            else if n == |c.print_(last)| then Ok(Reading(entries + [last], []))
            else Ok(Reading(entries, [TruncatedTail(n)]))
  {
    if n == 0 {
      assert Torn(c, entries, last, 0) == Written(c, entries);
      ReadWritten(c, entries);
    } else {
      ReadTornTail(c, entries, last, n);
    }
  }

  lemma ReadTornTail<T(!new)>(c: Codec<T>, entries: seq<T>, last: T, n: nat)
    requires Lawful(c) && 0 < n <= |c.print_(last)|
    ensures Read(c, Torn(c, entries, last, n)) ==
            if !c.utf8(c.print_(last)[..n]) then Err(NotText)
            else if n == |c.print_(last)| then Ok(Reading(entries + [last], []))
            else Ok(Reading(entries, [TruncatedTail(n)]))
  {
    RawLinesOfTorn(c, entries, last, n);
    hide RawLines, Torn, EndsCleanly, ReadLines;
    var raw := RawLines(Torn(c, entries, last, n));
    var m := |entries|;
    assert |raw| == m + 1 && raw[m] == c.print_(last)[..n];
    ReadWholeLines(c, entries, raw, m, false);
    assert entries[..m] == entries;
    TornLine(c, last, n);
    TextIff(c, entries, c.print_(last)[..n], raw);
    hide Lawful;
    OneLine(c, raw, m, false);
    assert !EndsCleanly(Torn(c, entries, last, n));
    assert [] + [TruncatedTail(n)] == [TruncatedTail(n)];
  }

  lemma TextIff<T(!new)>(c: Codec<T>, entries: seq<T>, tail: seq<Byte>, raw: seq<seq<Byte>>)
    requires Lawful(c) && |raw| > |entries| && raw[|entries|] == tail
    requires forall i :: 0 <= i < |entries| ==> raw[i] == c.print_(entries[i])
    ensures !c.utf8(tail) ==> exists i :: 0 <= i < |raw| && !c.utf8(raw[i])
    ensures c.utf8(tail) && |raw| == |entries| + 1 ==> !exists i :: 0 <= i < |raw| && !c.utf8(raw[i])
  {
    assert c.utf8(raw[|entries|]) == c.utf8(tail);
  }

  /** The journal after the process restarts and appends `next`, then any more entries. */
  function Resumed<T>(c: Codec<T>, entries: seq<T>, last: T, n: nat, next: T, more: seq<T>): seq<Byte>
    requires n <= |c.print_(last)|
  {
    Torn(c, entries, last, n) + (c.print_(next) + [NEWLINE] + Written(c, more))
  }

  /** The append starts on the torn line: the journal is readable again exactly when the cut fell
      on a line boundary.  Otherwise the joined line is corruption, whatever is appended later. */
  lemma ReadableAgainIff<T(!new)>(c: Codec<T>, entries: seq<T>, last: T, n: nat, next: T, more: seq<T>)
    requires Lawful(c) && n <= |c.print_(last)|
    ensures Read(c, Resumed(c, entries, last, n, next, more)).Ok? <==> n == 0
    ensures n == 0 ==> Read(c, Resumed(c, entries, last, n, next, more)) == Ok(Reading(entries + [next] + more, []))
    ensures n > 0 ==>
              Read(c, Resumed(c, entries, last, n, next, more)) ==
              Err(if c.utf8(c.print_(last)[..n]) then Corrupt(|entries| + 1) else NotText)
  {
    if n == 0 {
      ResumedCleanly(c, entries, last, next, more);
    } else {
      ResumedJoined(c, entries, last, n, next, more);
    }
  }

  lemma {:induction false} WrittenTogether<T>(c: Codec<T>, a: seq<T>, b: seq<T>)
    ensures Written(c, a + b) == Written(c, a) + Written(c, b)
    decreases |b|
  {
    if b == [] {
      assert a + b == a && Written(c, a) + [] == Written(c, a);
    } else {
      var n := |b| - 1;
      WrittenTogether(c, a, b[..n]);
      assert (a + b)[..|a + b| - 1] == a + b[..n];
      Regrouped(Written(c, a), Written(c, b[..n]), c.print_(b[n]) + [NEWLINE]);
    }
  }

  lemma ReadWritten<T(!new)>(c: Codec<T>, entries: seq<T>)
    requires Lawful(c)
    ensures Read(c, Written(c, entries)) == Ok(Reading(entries, []))
  {
    RawLinesOfWritten(c, entries, []);
    WrittenEndsCleanly(c, entries);
    hide RawLines, Written, EndsCleanly;
    assert Written(c, entries) + [] == Written(c, entries);
    assert RawLines([]) == [] by { NoLines(); }
    assert LinesOfEntries(c, entries) + [] == LinesOfEntries(c, entries);
    var raw := RawLines(Written(c, entries));
    ReadWholeLines(c, entries, raw, |entries|, true);
    assert entries[..|entries|] == entries;
  }

  lemma NoLines()
    ensures RawLines([]) == []
  {
  }

  lemma ResumedCleanly<T(!new)>(c: Codec<T>, entries: seq<T>, last: T, next: T, more: seq<T>)
    requires Lawful(c)
    ensures Read(c, Resumed(c, entries, last, 0, next, more)) == Ok(Reading(entries + [next] + more, []))
  {
    hide Read;
    WrittenTogether(c, entries, [next]);
    WrittenTogether(c, entries + [next], more);
    assert Written(c, [next]) == c.print_(next) + [NEWLINE] by { assert [next][..0] == []; }
    assert Torn(c, entries, last, 0) == Written(c, entries);
    Regrouped(Written(c, entries), c.print_(next) + [NEWLINE], Written(c, more));
    ReadWritten(c, entries + [next] + more);
  }

  lemma ResumedJoined<T(!new)>(c: Codec<T>, entries: seq<T>, last: T, n: nat, next: T, more: seq<T>)
    requires Lawful(c) && 0 < n <= |c.print_(last)|
    ensures Read(c, Resumed(c, entries, last, n, next, more)) ==
            Err(if c.utf8(c.print_(last)[..n]) then Corrupt(|entries| + 1) else NotText)
  {
    var tail := c.print_(last)[..n];
    var joined := tail + c.print_(next);
    var file := Resumed(c, entries, last, n, next, more);
    JoinedFile(c, entries, last, n, next, more);
    JoinedLine(c, last, n, next);
    RawLinesOfWritten(c, entries, joined + [NEWLINE] + Written(c, more));
    RawLinesStep(joined, Written(c, more));
    RawLinesOfWritten(c, more, []);
    NoLines();
    hide RawLines, Resumed, Torn, Written, ReadLines;
    assert Written(c, more) + [] == Written(c, more) && LinesOfEntries(c, more) + [] == LinesOfEntries(c, more);
    var raw := RawLines(file);
    assert raw == LinesOfEntries(c, entries) + ([joined] + LinesOfEntries(c, more));
    var m := |entries|;
    ReadWholeLines(c, entries, raw, m, EndsCleanly(file));
    OneLine(c, raw, m, EndsCleanly(file));
    ResumedEndsCleanly(c, entries, last, n, next, more);
    ErrorStays(c, raw, m + 1, |raw|, EndsCleanly(file));
    AllTextIff(c, entries, joined, more, raw);
  }

  lemma AllTextIff<T(!new)>(c: Codec<T>, entries: seq<T>, joined: seq<Byte>, more: seq<T>, raw: seq<seq<Byte>>)
    requires Lawful(c) && raw == LinesOfEntries(c, entries) + ([joined] + LinesOfEntries(c, more))
    ensures (exists i :: 0 <= i < |raw| && !c.utf8(raw[i])) <==> !c.utf8(joined)
  {
    assert raw[|entries|] == joined;
    forall i | 0 <= i < |raw| && i != |entries| ensures c.utf8(raw[i]) {
      assert raw[i] == c.print_(if i < |entries| then entries[i] else more[i - |entries| - 1]);
    }
  }

  lemma JoinedFile<T>(c: Codec<T>, entries: seq<T>, last: T, n: nat, next: T, more: seq<T>)
    requires n <= |c.print_(last)|
    ensures Resumed(c, entries, last, n, next, more) ==
            Written(c, entries) + (c.print_(last)[..n] + c.print_(next) + [NEWLINE] + Written(c, more))
  {
    hide Written;
    var a, t, p, m := Written(c, entries), c.print_(last)[..n], c.print_(next), Written(c, more);
    Regrouped(a, t, p + [NEWLINE] + m);
    Regrouped(t, p + [NEWLINE], m);
    Regrouped(t, p, [NEWLINE]);
  }

  lemma JoinedLine<T(!new)>(c: Codec<T>, last: T, n: nat, next: T)
    requires Lawful(c) && 0 < n <= |c.print_(last)|
    ensures var joined := c.print_(last)[..n] + c.print_(next);
            && Unparsed(c, joined) && c.utf8(joined) == c.utf8(c.print_(last)[..n])
            && NEWLINE !in joined && joined != [] && joined[|joined| - 1] != RETURN
  {
    var tail, joined := c.print_(last)[..n], c.print_(last)[..n] + c.print_(next);
    assert NEWLINE !in tail;
    assert joined[|joined| - 1] == c.print_(next)[|c.print_(next)| - 1];
  }

  lemma ResumedEndsCleanly<T>(c: Codec<T>, entries: seq<T>, last: T, n: nat, next: T, more: seq<T>)
    requires n <= |c.print_(last)|
    ensures EndsCleanly(Resumed(c, entries, last, n, next, more))
  {
    WrittenEndsCleanly(c, more);
    hide Written, Torn;
    var end := c.print_(next) + [NEWLINE] + Written(c, more);
    assert end[|end| - 1] == NEWLINE;
  }

  // ---- The applied markers ----

  /** `applied_ids`: the lines that are ids; anything else is passed over. */
  function AppliedIn(lines: seq<string>): set<Id> {
    set i | 0 <= i < |lines| && ParseUuid(Trimmed(lines[i])).Some? :: ParseUuid(Trimmed(lines[i])).value
  }

  function AppliedIds(file: string): set<Id> {
    AppliedIn(LinesOf(file))
  }

  function MarkerLines(ids: seq<Id>): (lines: seq<string>)
    ensures |lines| == |ids| && forall i :: 0 <= i < |ids| ==> lines[i] == UuidText(ids[i])
  {
    seq(|ids|, i requires 0 <= i < |ids| => UuidText(ids[i]))
  }

  lemma {:induction false} LinesBeforeTail(lines: seq<string>, tail: string)
    requires forall i :: 0 <= i < |lines| ==> Visible(lines[i])
    ensures LinesOf(Joined(lines) + tail) == lines + LinesOf(tail)
    decreases |lines|
  {
    hide Visible, LinesOf;
    if lines == [] {
      assert Joined(lines) + tail == tail;
    } else {
      LinesStep(lines[0], Joined(lines[1..]) + tail);
      LinesBeforeTail(lines[1..], tail);
      RegroupText(lines[0] + "\n", Joined(lines[1..]), tail);
    }
  }

  lemma RegroupText(a: string, b: string, c: string)
    ensures a + b + c == a + (b + c)
  {
  }

  lemma UuidLine(id: Id, n: nat)
    requires n <= 36
    ensures Visible(UuidText(id)[..n]) && Trimmed(UuidText(id)[..n]) == UuidText(id)[..n]
  {
    UuidTextIsBare(id);
    var t := UuidText(id)[..n];
    hide UuidText;
    forall i | 0 <= i < n ensures t[i] >= ' ' && !White(t[i]) {
      assert BareChar(UuidText(id)[i]);
    }
  }

  lemma WholeMarker(id: Id)
    ensures Trimmed(UuidText(id)) == UuidText(id) && Visible(UuidText(id)) && ParseUuid(UuidText(id)) == Some(id)
  {
    UuidLine(id, 36);
    UuidRoundTrip(id);
    hide ParseUuid;
    assert UuidText(id)[..36] == UuidText(id);
  }

  lemma AppliedTogether(a: seq<string>, b: seq<string>)
    ensures AppliedIn(a + b) == AppliedIn(a) + AppliedIn(b)
  {
    hide ParseUuid, Trimmed;
    var lines := a + b;
    forall id | id in AppliedIn(a) ensures id in AppliedIn(lines) {
      var i :| 0 <= i < |a| && ParseUuid(Trimmed(a[i])) == Some(id);
      assert lines[i] == a[i];
    }
    forall id | id in AppliedIn(b) ensures id in AppliedIn(lines) {
      var i :| 0 <= i < |b| && ParseUuid(Trimmed(b[i])) == Some(id);
      assert lines[|a| + i] == b[i];
    }
    forall id | id in AppliedIn(lines) ensures id in AppliedIn(a) + AppliedIn(b) {
      var i :| 0 <= i < |lines| && ParseUuid(Trimmed(lines[i])) == Some(id);
      assert lines[i] == if i < |a| then a[i] else b[i - |a|];
    }
  }

  lemma AppliedOne(line: string)
    ensures AppliedIn([line]) == if ParseUuid(Trimmed(line)).Some? then {ParseUuid(Trimmed(line)).value} else {}
  {
    hide ParseUuid, Trimmed;
    assert [line][0] == line;
  }

  lemma AppliedMarkers(ids: seq<Id>)
    ensures AppliedIn(MarkerLines(ids)) == set id | id in ids
    ensures forall i :: 0 <= i < |ids| ==> Visible(MarkerLines(ids)[i])
  {
    hide UuidText, Trimmed, Visible, ParseUuid;
    var lines := MarkerLines(ids);
    forall i | 0 <= i < |ids| ensures ParseUuid(Trimmed(lines[i])) == Some(ids[i]) && Visible(lines[i]) {
      WholeMarker(ids[i]);
    }
    forall id | id in ids ensures id in AppliedIn(lines) {
      var i :| 0 <= i < |ids| && ids[i] == id;
      assert ParseUuid(Trimmed(lines[i])) == Some(id);
    }
  }

  lemma MarkersOf(ids: seq<Id>, tail: seq<string>)
    ensures AppliedIn(MarkerLines(ids) + tail) == (set id | id in ids) + AppliedIn(tail)
    ensures forall i :: 0 <= i < |ids| ==> Visible(MarkerLines(ids)[i])
  {
    hide AppliedIn, MarkerLines;
    AppliedMarkers(ids);
    AppliedTogether(MarkerLines(ids), tail);
  }

  lemma OneMarkerLine(line: string)
    requires Visible(line) && line != ""
    ensures LinesOf(line) == [line] && LinesOf(line + "\n") == [line]
  {
    NewlineAfter(line, "");
    NoNewlineIn(line);
    hide NewlineAt, Visible;
    var s := line + "\n";
    assert line + "\n" + "" == s && s[..|line|] == line && s[|line| + 1..] == "";
  }

  lemma {:induction false} NoNewlineIn(line: string)
    requires Visible(line)
    ensures NewlineAt(line) == None
  {
    if line != "" {
      NoNewlineIn(line[1..]);
    }
  }

  /** A marker cut short is passed over; one that lacks only its newline counts. */
  lemma ReadTornMarker(ids: seq<Id>, last: Id, n: nat)
    requires n <= 36
    ensures AppliedIds(Joined(MarkerLines(ids)) + UuidText(last)[..n]) == (set id | id in ids) + if n == 36 then {last} else {}
  {
    hide UuidText, Trimmed, Visible, MarkerLines, Joined, AppliedIn, LinesOf;
    var tail := UuidText(last)[..n];
    UuidLine(last, n);
    MarkersOf(ids, LinesOf(tail));
    LinesBeforeTail(MarkerLines(ids), tail);
    if n == 0 {
      NoMarkerLines();
    } else {
      OneMarkerLine(tail);
      AppliedOne(tail);
      WholeMarker(last);
      assert n == 36 ==> tail == UuidText(last);
    }
  }

  lemma NoMarkerLines()
    ensures AppliedIn(LinesOf("")) == {}
  {
  }

  lemma JoinedMarker(last: Id, n: nat, next: Id)
    requires 0 < n <= 36
    ensures var line := UuidText(last)[..n] + UuidText(next);
            Visible(line) && line != "" && ParseUuid(Trimmed(line)) == None
  {
    UuidLine(last, n);
    WholeMarker(next);
    UuidTextIsBare(next);
    UuidTextIsBare(last);
    hide UuidText;
    var line := UuidText(last)[..n] + UuidText(next);
    assert BareChar(line[0]) && BareChar(UuidText(next)[35]) && line[|line| - 1] == UuidText(next)[35];
    assert Trimmed(line) == line;
  }

  /** The marker written after a torn one starts on its line and is lost: it counts exactly when
      the cut fell on a line boundary. */
  lemma NextMarkerCountsIff(ids: seq<Id>, last: Id, n: nat, next: Id)
    requires n <= 36 && next !in ids
    ensures next in AppliedIds(Joined(MarkerLines(ids)) + (UuidText(last)[..n] + UuidText(next) + "\n")) <==> n == 0
  {
    hide UuidText, Trimmed, Visible, MarkerLines, Joined, ParseUuid, AppliedIn, LinesOf;
    var line := UuidText(last)[..n] + UuidText(next);
    if n == 0 {
      assert line == UuidText(next);
      WholeMarker(next);
    } else {
      JoinedMarker(last, n, next);
    }
    OneMarkerLine(line);
    MarkersOf(ids, [line]);
    AppliedOne(line);
    LinesBeforeTail(MarkerLines(ids), line + "\n");
  }
}
