/** The IDX records that carry notes, not structure: what the reader demands of them, and the ones
    the scanner's own entities give rise to. */
module IdxOthers {
  import opened Atlas
  import opened Sorting
  import opened IdxText
  import opened IdxLines
  import opened IdxAtoms
  import opened IdxRecords
  import opened IdxEntries

  function RecordTags(): seq<string> {
    ["@purpose", "@decision", "@constraint", "@task", "@requirement", "@question", "@finding", "@permission", "@activity",
     "@summary"]
  }

  function Authorities(): seq<string> {
    ["system", "human", "project", "tool", "model"]
  }

  function States(): seq<string> {
    ["active", "superseded", "contested", "resolved"]
  }

  function SourceKinds(): seq<string> {
    ["file", "git", "build", "test", "issue", "conversation", "terminal", "agent", "human"]
  }

  // ---- What the reader demands ----

  function OneOf(value: Option<string>, known: seq<string>): Result<(), FieldError> {
    if value.None? || value.value in known then Ok(()) else Err(Invalid(value.value))
  }

  /** A synthesised id, told by its slash, is replaced by a fresh one; any other must be stable. */
  function CheckRecordId(id: Option<string>): Result<(), FieldError> {
    if id.None? || '/' in id.value || ParseUuid(id.value).Some? then Ok(()) else Err(Invalid(id.value))
  }

  function CheckRecord(fields: seq<Pair>): Result<(), FieldError> {
    var _ :- CheckRecordId(Get(fields, "id"));
    var _ :- OptUuid(fields, "scope");
    var _ :- OneOf(Get(fields, "authority"), Authorities());
    var _ :- Confident(Or(Get(fields, "confidence"), "1"));
    var _ :- OneOf(if Get(fields, "state").Some? then Get(fields, "state") else Get(fields, "status"), States());
    var _ :- Need(fields, "text");
    Ok(())
  }

  function CheckSource(fields: seq<Pair>): Result<(), FieldError> {
    var _ :- Need(fields, "id");
    var kind :- Need(fields, "kind");
    var _ :- OneOf(Some(kind), SourceKinds());
    var _ :- Need(fields, "locator");
    Ok(())
  }

  function CheckConflict(fields: seq<Pair>): Result<(), FieldError> {
    var _ :- NeedUuid(fields, "id");
    var _ :- NeedUuid(fields, "left");
    var _ :- NeedUuid(fields, "right");
    var state :- Need(fields, "state");
    var _ :- OneOf(Some(state), ["open", "resolved"]);
    var severity :- Need(fields, "severity");
    var _ :- Checked(severity, ParseCode(severity));
    Ok(())
  }

  /** Tags nobody knows are carried along unread. */
  function CheckOther(tag: string, fields: seq<Pair>): Result<(), FieldError> {
    if tag in RecordTags() then CheckRecord(fields)
    else if tag == "@source" then CheckSource(fields)
    else if tag == "@conflict" then CheckConflict(fields)
    else Ok(())
  }

  // ---- What the scanner's entities give rise to ----

  /** The remarks an entity carries beside its structure. */
  datatype Notes = Notes(summary: string, clauses: seq<string>, uncertainty: seq<string>)

  function SummarySlots(id: Id, text: string): seq<Slot> {
    [Present(AtomItem("id", UuidText(id))), Present(AtomItem("source", "parsed")), Present(AtomItem("confidence", "1")),
     Present(TextItem("text", text))]
  }

  function SummaryLine(id: Id, text: string): string {
    Line("@summary", Items(SummarySlots(id, text)))
  }

  function Decimal(n: nat): string {
    if n < 10 then [Hex(n)] else Decimal(n / 10) + [Hex(n % 10)]
  }

  function ClauseId(id: Id, index: nat): string {
    UuidText(id) + "/purpose/" + Decimal(index)
  }

  /** A goal of the project, as a constraint on the entity that carries it. */
  function ClauseSlots(id: Id, index: nat, clause: string): seq<Slot> {
    [Present(TextItem("id", ClauseId(id, index))), Present(AtomItem("scope", UuidText(id))),
     Present(AtomItem("authority", "human")), Present(AtomItem("source", "PURPOSE.md")),
     Present(AtomItem("confidence", "1")), Present(TextItem("text", clause))]
  }

  function ClauseLine(id: Id, index: nat, clause: string): string {
    Line("@constraint", Items(ClauseSlots(id, index, clause)))
  }

  function UncertaintyId(id: Id, index: nat): string {
    UuidText(id) + "/uncertainty/" + Decimal(index)
  }

  function UncertaintySlots(id: Id, index: nat, text: string): seq<Slot> {
    [Present(TextItem("id", UncertaintyId(id, index))), Present(AtomItem("scope", UuidText(id))), Present(TextItem("text", text))]
  }

  function UncertaintyLine(id: Id, index: nat, text: string): string {
    Line("@uncertainty", Items(UncertaintySlots(id, index, text)))
  }

  lemma SummarySlotsMade(id: Id, text: string)
    ensures WellMade(SummarySlots(id, text))
    ensures CheckOther("@summary", PairsOf(Items(SummarySlots(id, text)))) == Ok(())
  {
    SummaryWords();
    SummaryKeys(id, text);
    UuidTextIsBare(id);
    UuidRoundTrip(id);
    hide Bare, Good, UuidText, GoodKeys, Field, Items, Get, ParseUuid;
    var s := SummarySlots(id, text);
    AtomGood(s[0].item);
    AtomGood(s[1].item);
    AtomGood(s[2].item);
    TextGood(s[3].item);
    SummaryFields(id, text);
  }

  lemma SummaryWords()
    ensures Bare("parsed") && Bare("1") && "@summary" in RecordTags()
  {
    assert RecordTags()[9] == "@summary";
  }

  lemma SummaryKeys(id: Id, text: string)
    ensures GoodKeys(SummarySlots(id, text))
  {
    hide UuidText, Field;
  }

  lemma SummaryFields(id: Id, text: string)
    ensures var f := PairsOf(Items(SummarySlots(id, text)));
            && Get(f, "id") == Some(UuidText(id)) && Get(f, "scope") == None && Get(f, "authority") == None
            && Get(f, "confidence") == Some("1") && Get(f, "state") == None && Get(f, "status") == None
            && Get(f, "text") == Some(text)
  {
    hide Items, Get, UuidText, Field, DistinctSlots, Bare;
    var s := SummarySlots(id, text);
    SummaryKeys(id, text);
    GetSlot(s, 0);
    GetSlot(s, 2);
    GetSlot(s, 3);
    GetAbsent(s, "scope");
    GetAbsent(s, "authority");
    GetAbsent(s, "state");
    GetAbsent(s, "status");
  }

  lemma ClauseSlotsMade(id: Id, index: nat, clause: string)
    ensures WellMade(ClauseSlots(id, index, clause))
    ensures CheckOther("@constraint", PairsOf(Items(ClauseSlots(id, index, clause)))) == Ok(())
  {
    ClauseWords();
    ClauseKeys(id, index, clause);
    ClauseIdHasSlash(id, index);
    UuidTextIsBare(id);
    UuidRoundTrip(id);
    hide Bare, Good, UuidText, ClauseId, GoodKeys, Field, Items, Get, ParseUuid;
    var s := ClauseSlots(id, index, clause);
    TextGood(s[0].item);
    AtomGood(s[1].item);
    AtomGood(s[2].item);
    AtomGood(s[3].item);
    AtomGood(s[4].item);
    TextGood(s[5].item);
    ClauseFields(id, index, clause);
  }

  lemma ClauseWords()
    ensures Bare("human") && Bare("PURPOSE.md") && Bare("1") && "@constraint" in RecordTags() && "human" in Authorities()
  {
    assert RecordTags()[2] == "@constraint" && Authorities()[1] == "human";
  }

  lemma ClauseIdHasSlash(id: Id, index: nat)
    ensures '/' in ClauseId(id, index)
  {
    hide UuidText, Decimal;
    assert ClauseId(id, index)[|UuidText(id)|] == '/';
  }

  lemma ClauseKeys(id: Id, index: nat, clause: string)
    ensures GoodKeys(ClauseSlots(id, index, clause))
  {
    hide UuidText, ClauseId, Field;
  }

  lemma ClauseFields(id: Id, index: nat, clause: string)
    ensures var f := PairsOf(Items(ClauseSlots(id, index, clause)));
            && Get(f, "id") == Some(ClauseId(id, index)) && Get(f, "scope") == Some(UuidText(id))
            && Get(f, "authority") == Some("human") && Get(f, "confidence") == Some("1")
            && Get(f, "state") == None && Get(f, "status") == None && Get(f, "text") == Some(clause)
  {
    hide Items, Get, UuidText, ClauseId, Field, DistinctSlots, Bare;
    var s := ClauseSlots(id, index, clause);
    ClauseKeys(id, index, clause);
    GetSlot(s, 0);
    GetSlot(s, 1);
    GetSlot(s, 2);
    GetSlot(s, 4);
    GetSlot(s, 5);
    GetAbsent(s, "state");
    GetAbsent(s, "status");
  }

  lemma UncertaintySlotsMade(id: Id, index: nat, text: string)
    ensures WellMade(UncertaintySlots(id, index, text))
    ensures CheckOther("@uncertainty", PairsOf(Items(UncertaintySlots(id, index, text)))) == Ok(())
  {
    UncertaintyKeys(id, index, text);
    UuidTextIsBare(id);
    hide Bare, Good, UuidText, UncertaintyId, GoodKeys, Field, Items, CheckRecord;
    var s := UncertaintySlots(id, index, text);
    TextGood(s[0].item);
    AtomGood(s[1].item);
    TextGood(s[2].item);
  }

  lemma UncertaintyKeys(id: Id, index: nat, text: string)
    ensures GoodKeys(UncertaintySlots(id, index, text)) && "@uncertainty" !in RecordTags()
  {
    hide UuidText, UncertaintyId, Field;
  }

  // ---- In the encoder's order ----

  function SummaryLines(entities: seq<Entity>, notes: Id -> Notes): seq<string> {
    if entities == [] then []
    else
      var last := entities[|entities| - 1];
      SummaryLines(entities[..|entities| - 1], notes)
      + (if notes(last.id).summary != "" then [SummaryLine(last.id, notes(last.id).summary)] else [])
  }

  function Clauses(id: Id, clauses: seq<string>): seq<(string, string)> {
    seq(|clauses|, i requires 0 <= i < |clauses| => (ClauseId(id, i), ClauseLine(id, i, clauses[i])))
  }

  function Uncertainties(id: Id, texts: seq<string>): seq<(string, string)> {
    seq(|texts|, i requires 0 <= i < |texts| => (UncertaintyId(id, i), UncertaintyLine(id, i, texts[i])))
  }

  function AllClauses(entities: seq<Entity>, notes: Id -> Notes): seq<(string, string)> {
    if entities == [] then []
    else
      var last := entities[|entities| - 1];
      AllClauses(entities[..|entities| - 1], notes) + Clauses(last.id, notes(last.id).clauses)
  }

  function AllUncertainties(entities: seq<Entity>, notes: Id -> Notes): seq<(string, string)> {
    if entities == [] then []
    else
      var last := entities[|entities| - 1];
      AllUncertainties(entities[..|entities| - 1], notes) + Uncertainties(last.id, notes(last.id).uncertainty)
  }

  predicate ByFirst(a: (string, string), b: (string, string)) {
    TextLeq(a.0, b.0)
  }

  function Seconds(pairs: seq<(string, string)>): (lines: seq<string>)
    ensures |lines| == |pairs| && forall i :: 0 <= i < |pairs| ==> lines[i] == pairs[i].1
  {
    seq(|pairs|, i requires 0 <= i < |pairs| => pairs[i].1)
  }

  /** Lines in the order of their ids. */
  function InIdOrder(pairs: seq<(string, string)>): seq<string> {
    Seconds(SortBy(pairs, ByFirst))
  }

  lemma InIdOrderMembers(pairs: seq<(string, string)>, line: string)
    requires line in InIdOrder(pairs)
    ensures exists p :: p in pairs && p.1 == line
  {
    ByFirstIsOrder();
    SortBySorts(pairs, ByFirst);
    var sorted := SortBy(pairs, ByFirst);
    hide SortBy, ByFirst, TotalPreorder;
    var i :| 0 <= i < |sorted| && sorted[i].1 == line;
    assert sorted[i] in multiset(sorted) && sorted[i] in multiset(pairs);
  }

  lemma ByFirstIsOrder()
    ensures TotalPreorder(ByFirst)
  {
    forall a: (string, string), b: (string, string) ensures ByFirst(a, b) || ByFirst(b, a) {
      TextLeqTotal(a.0, b.0);
    }
    forall a: (string, string), b: (string, string), c: (string, string) | ByFirst(a, b) && ByFirst(b, c) ensures ByFirst(a, c) {
      TextLeqTransitive(a.0, b.0, c.0);
    }
  }
}
