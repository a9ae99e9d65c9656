/** `order_codes` (`texture/mod.rs`): the pixels follow the entity records of the IDX file. */
module TextureOrder {
  import opened Atlas
  import opened Sorting
  import opened IdxAtoms
  import opened IdxEntries
  import opened IdxEvidence
  import opened IdxWriter

  datatype Row = Row(scale: Scale, id: string, code: Code)

  predicate RowOrder(a: Row, b: Row) {
    a.scale.Rank() < b.scale.Rank() || (a.scale.Rank() == b.scale.Rank() && TextLeq(a.id, b.id))
  }

  function CodesIn(rows: seq<Row>): (codes: seq<Code>)
    ensures |codes| == |rows| && forall i :: 0 <= i < |rows| ==> codes[i] == rows[i].code
  {
    seq(|rows|, i requires 0 <= i < |rows| => rows[i].code)
  }

  function OrderCodes(rows: seq<Row>): seq<Code> {
    CodesIn(SortBy(rows, RowOrder))
  }

  /** The light row of an entity; one that was never assessed is Unknown. */
  function RowOf(e: Entity): Row {
    Row(e.scale, UuidText(e.id), if e.green.Some? then e.green.value.overall else Unknown)
  }

  function Rows(entities: seq<Entity>): seq<Row> {
    if entities == [] then [] else [RowOf(entities[0])] + Rows(entities[1..])
  }

  lemma {:induction false} RowsEach(entities: seq<Entity>)
    ensures |Rows(entities)| == |entities| && forall i :: 0 <= i < |entities| ==> Rows(entities)[i] == RowOf(entities[i])
  {
    hide RowOf;
    if entities != [] {
      RowsEach(entities[1..]);
    }
  }

  lemma SameOrder(a: Entity, b: Entity)
    ensures RowOrder(RowOf(a), RowOf(b)) == EntityOrder(a, b)
  {
    hide UuidText;
  }

  lemma {:induction false} InsertRow(e: Entity, s: seq<Entity>)
    ensures Rows(Insert(e, s, EntityOrder)) == Insert(RowOf(e), Rows(s), RowOrder)
    decreases |s|
  {
    hide RowOf, RowOrder, EntityOrder;
    if s == [] {
      assert [e][1..] == [] && [e] + s == [e];
    } else {
      SameOrder(e, s[0]);
      if EntityOrder(e, s[0]) {
        assert ([e] + s)[1..] == s;
      } else {
        InsertRow(e, s[1..]);
        var rest := Insert(e, s[1..], EntityOrder);
        assert ([s[0]] + rest)[1..] == rest && Rows(s)[1..] == Rows(s[1..]);
      }
    }
  }

  lemma {:induction false} SortRows(s: seq<Entity>)
    ensures SortBy(Rows(s), RowOrder) == Rows(SortBy(s, EntityOrder))
    decreases |s|
  {
    hide RowOf, RowOrder, EntityOrder, Insert;
    if s != [] {
      SortRows(s[1..]);
      InsertRow(s[0], SortBy(s[1..], EntityOrder));
      assert Rows(s)[1..] == Rows(s[1..]);
    }
  }

  lemma {:induction false} LineOfEntity(entities: seq<Entity>)
    ensures |EntityLines(entities)| == |entities|
    ensures forall d :: 0 <= d < |entities| ==> EntityLines(entities)[d] == EntityLine(entities[d])
  {
    hide EntityLine;
    if entities != [] {
      LineOfEntity(entities[..|entities| - 1]);
    }
  }

  /** Pixel `d` of the texture is the entity of the `d`-th `@entity` record: the records start
      after the three preamble lines and the purposes. */
  lemma PixelsFollowRecords(s: Snap, o: Others, project: string, legend: string, d: nat)
    requires d < |Entities(s)|
    ensures var e, first := Entities(s)[d], 3 + |o.purposes|;
            && |OrderCodes(Rows(s.entities))| == |Entities(s)|
            && OrderCodes(Rows(s.entities))[d] == RowOf(e).code
            && |AllLines(s, o, project, legend)| > first + d && AllLines(s, o, project, legend)[first + d] == EntityLine(e)
  {
    hide RowOf, EntityLine, EntityOrder, RowOrder, HeaderLine, GeneratedLine, EdgeLines, EvidenceLines, Listing, Exhibits, GreenLines,
         SocketLines, FitLines, HoleLines, Rows, SortBy, EntityLines;
    SortRows(s.entities);
    RowsEach(Entities(s));
    LineOfEntity(Entities(s));
    var start := Preamble(s, project, legend) + o.purposes;
    var first := start + EntityLines(Entities(s));
    assert first[|start| + d] == EntityLine(Entities(s)[d]);
    assert AllLines(s, o, project, legend)[..|first|] == first;
  }
}
