/** `encode_atlas_idx` at Galaxy scope: the lines of a snapshot in their canonical order. */
module IdxWriter {
  import opened Atlas
  import opened Sorting
  import opened IdxText
  import opened IdxLines
  import opened IdxAtoms
  import opened IdxRecords
  import opened IdxFile
  import opened IdxEntries
  import opened IdxEvidence

  /** A snapshot's entities and edges. */
  datatype Snap = Snap(id: string, timestamp: string, entities: seq<Entity>, edges: seq<Edge>)

  /** The lines of the records beside them, block by block. */
  datatype Others = Others(purposes: seq<string>, summaries: seq<string>, records: seq<string>, conflicts: seq<string>,
                           sources: seq<string>, uncertainties: seq<string>)

  // ---- Canonical order ----

  predicate ByIdText(a: Id, b: Id) {
    TextLeq(UuidText(a), UuidText(b))
  }

  /** By scale rank, then by the spelling of the id. */
  predicate EntityOrder(a: Entity, b: Entity) {
    a.scale.Rank() < b.scale.Rank() || (a.scale.Rank() == b.scale.Rank() && ByIdText(a.id, b.id))
  }

  predicate EdgeOrder(a: Edge, b: Edge) {
    ByIdText(a.id, b.id)
  }

  predicate SocketOrder(a: Socket, b: Socket) {
    ByIdText(a.id, b.id)
  }

  lemma ByIdTextOrders()
    ensures forall a: Id, b: Id :: ByIdText(a, b) || ByIdText(b, a)
    ensures forall a: Id, b: Id, c: Id :: ByIdText(a, b) && ByIdText(b, c) ==> ByIdText(a, c)
    ensures forall a: Id, b: Id :: ByIdText(a, b) && ByIdText(b, a) ==> a == b
  {
    forall a: Id, b: Id ensures (ByIdText(a, b) || ByIdText(b, a)) && (ByIdText(a, b) && ByIdText(b, a) ==> a == b) {
      TextLeqTotal(UuidText(a), UuidText(b));
      hide UuidText, TextLeq;
      if UuidText(a) == UuidText(b) {
        UuidTextIsUnique(a, b);
      }
    }
    forall a: Id, b: Id, c: Id | ByIdText(a, b) && ByIdText(b, c) ensures ByIdText(a, c) {
      hide UuidText, TextLeq;
      TextLeqTransitive(UuidText(a), UuidText(b), UuidText(c));
    }
  }

  lemma OrdersAreTotal()
    ensures TotalPreorder(EntityOrder) && TotalPreorder(EdgeOrder) && TotalPreorder(SocketOrder)
  {
    ByIdTextOrders();
    hide ByIdText;
  }

  function IdsOf(entities: seq<Entity>): set<Id> {
    set e | e in entities :: e.id
  }

  /** The edges with an end among the entities. */
  function Touching(edges: seq<Edge>, ids: set<Id>): seq<Edge> {
    if edges == [] then []
    else
      var last := edges[|edges| - 1];
      Touching(edges[..|edges| - 1], ids) + (if last.source in ids || last.target in ids then [last] else [])
  }

  function SocketsOf(entities: seq<Entity>): seq<Socket> {
    if entities == [] then [] else SocketsOf(entities[..|entities| - 1]) + entities[|entities| - 1].sockets
  }

  function Entities(s: Snap): seq<Entity> {
    SortBy(s.entities, EntityOrder)
  }

  function Edges(s: Snap): seq<Edge> {
    SortBy(Touching(s.edges, IdsOf(s.entities)), EdgeOrder)
  }

  function Sockets(s: Snap): seq<Socket> {
    SortBy(SocketsOf(Entities(s)), SocketOrder)
  }

  // ---- The lines ----

  function HeaderSlots(project: string, id: string): seq<Slot> {
    [Present(AtomItem("v", "1")), Present(AtomItem("kind", "atlas")), Present(AtomItem("scale", "galaxy")),
     Present(TextItem("project", project)), Present(TextItem("snapshot", id))]
  }

  function HeaderLine(project: string, id: string): string {
    Line("@creature-context", Items(HeaderSlots(project, id)))
  }

  const AFTER_TIMESTAMP := "producer:creature-context deterministic:true"

  /** The timestamp is positional. */
  function GeneratedLine(timestamp: string): string {
    "@generated " + (Field(timestamp) + " " + AFTER_TIMESTAMP)
  }

  function EntityLines(entities: seq<Entity>): seq<string> {
    if entities == [] then [] else EntityLines(entities[..|entities| - 1]) + [EntityLine(entities[|entities| - 1])]
  }

  function EdgeLines(edges: seq<Edge>): seq<string> {
    if edges == [] then [] else EdgeLines(edges[..|edges| - 1]) + [EdgeLine(edges[|edges| - 1])]
  }

  function OfTarget(target: Id, evidence: seq<Evidence>): (r: seq<Exhibit>)
    ensures |r| == |evidence| && forall i :: 0 <= i < |evidence| ==> r[i] == Exhibit(target, evidence[i])
  {
    seq(|evidence|, i requires 0 <= i < |evidence| => Exhibit(target, evidence[i]))
  }

  function EntityExhibits(entities: seq<Entity>): seq<Exhibit> {
    if entities == [] then []
    else
      var last := entities[|entities| - 1];
      EntityExhibits(entities[..|entities| - 1]) + OfTarget(last.id, last.evidence)
  }

  function EdgeExhibits(edges: seq<Edge>): seq<Exhibit> {
    if edges == [] then []
    else
      var last := edges[|edges| - 1];
      EdgeExhibits(edges[..|edges| - 1]) + OfTarget(last.id, last.evidence)
  }

  /** All evidence, the entities' before the edges'. */
  function Exhibits(s: Snap): seq<Exhibit> {
    EntityExhibits(Entities(s)) + EdgeExhibits(Edges(s))
  }

  function EvidenceLines(xs: seq<Exhibit>): seq<string> {
    if xs == [] then [] else EvidenceLines(xs[..|xs| - 1]) + [EvidenceLine(xs[|xs| - 1])]
  }

  function GreenLines(entities: seq<Entity>): seq<string> {
    if entities == [] then []
    else
      var last := entities[|entities| - 1];
      GreenLines(entities[..|entities| - 1]) + (if last.green.Some? then [GreenLine(last.id, last.green.value)] else [])
  }

  function SocketLines(sockets: seq<Socket>): seq<string> {
    if sockets == [] then [] else SocketLines(sockets[..|sockets| - 1]) + [SocketLine(sockets[|sockets| - 1])]
  }

  function FitLines(sockets: seq<Socket>): seq<string> {
    if sockets == [] then []
    else
      var last := sockets[|sockets| - 1];
      FitLines(sockets[..|sockets| - 1]) + (if last.resolution.Fit? then [FitLine(last.id, last.resolution)] else [])
  }

  function HoleLines(sockets: seq<Socket>): seq<string> {
    if sockets == [] then []
    else
      var last := sockets[|sockets| - 1];
      HoleLines(sockets[..|sockets| - 1]) + (if last.resolution.Hole? then [HoleLine(last)] else [])
  }

  function Preamble(s: Snap, project: string, legend: string): seq<string> {
    [HeaderLine(project, s.id), GeneratedLine(s.timestamp), legend]
  }

  /** Every block in its place. */
  function AllLines(s: Snap, others: Others, project: string, legend: string): seq<string> {
    Preamble(s, project, legend) + others.purposes + EntityLines(Entities(s)) + others.summaries + EdgeLines(Edges(s))
    + others.records + EvidenceLines(Listing(Exhibits(s))) + GreenLines(Entities(s)) + others.conflicts + others.sources
    + SocketLines(Sockets(s)) + FitLines(Sockets(s)) + HoleLines(Sockets(s)) + others.uncertainties
  }

  // ---- The encoder ----

  lemma {:induction false} JoinedMore(lines: seq<string>, line: string)
    ensures Joined(lines + [line]) == Joined(lines) + line + "\n"
  {
    if lines == [] {
      assert lines + [line] == [line] && [line][1..] == [];
    } else {
      JoinedMore(lines[1..], line);
      assert (lines + [line])[1..] == lines[1..] + [line];
    }
  }

  lemma LineAdded(done: seq<string>, line: string, out: string)
    requires out == Joined(done)
    ensures out + line + "\n" == Joined(done + [line])
  {
    JoinedMore(done, line);
  }

  lemma EntityPrefix(entities: seq<Entity>, i: nat)
    requires i < |entities|
    ensures EntityLines(entities[..i + 1]) == EntityLines(entities[..i]) + [EntityLine(entities[i])]
  {
    hide EntityLine;
    assert entities[..i + 1][..i] == entities[..i];
  }

  lemma GreenPrefix(entities: seq<Entity>, i: nat)
    requires i < |entities|
    ensures entities[i].green.Some? ==>
              GreenLines(entities[..i + 1]) == GreenLines(entities[..i]) + [GreenLine(entities[i].id, entities[i].green.value)]
    ensures entities[i].green.None? ==> GreenLines(entities[..i + 1]) == GreenLines(entities[..i])
  {
    hide GreenLine;
    assert entities[..i + 1][..i] == entities[..i];
  }

  lemma EdgePrefix(edges: seq<Edge>, i: nat)
    requires i < |edges|
    ensures EdgeLines(edges[..i + 1]) == EdgeLines(edges[..i]) + [EdgeLine(edges[i])]
  {
    hide EdgeLine;
    assert edges[..i + 1][..i] == edges[..i];
  }

  lemma SocketPrefix(sockets: seq<Socket>, i: nat)
    requires i < |sockets|
    ensures SocketLines(sockets[..i + 1]) == SocketLines(sockets[..i]) + [SocketLine(sockets[i])]
  {
    hide SocketLine;
    assert sockets[..i + 1][..i] == sockets[..i];
  }

  lemma FitPrefix(sockets: seq<Socket>, i: nat)
    requires i < |sockets|
    ensures sockets[i].resolution.Fit? ==>
              FitLines(sockets[..i + 1]) == FitLines(sockets[..i]) + [FitLine(sockets[i].id, sockets[i].resolution)]
    ensures !sockets[i].resolution.Fit? ==> FitLines(sockets[..i + 1]) == FitLines(sockets[..i])
  {
    hide FitLine;
    assert sockets[..i + 1][..i] == sockets[..i];
  }

  lemma HolePrefix(sockets: seq<Socket>, i: nat)
    requires i < |sockets|
    ensures sockets[i].resolution.Hole? ==> HoleLines(sockets[..i + 1]) == HoleLines(sockets[..i]) + [HoleLine(sockets[i])]
    ensures !sockets[i].resolution.Hole? ==> HoleLines(sockets[..i + 1]) == HoleLines(sockets[..i])
  {
    hide HoleLine;
    assert sockets[..i + 1][..i] == sockets[..i];
  }

  /** The text of `AllLines`, written piece by piece. */
  method EncodeAtlasIdx(s: Snap, others: Others, project: string, legend: string) returns (out: string)
    ensures out == Joined(AllLines(s, others, project, legend))
  {
    hide EntityLine, EdgeLine, GreenLine, SocketLine, FitLine, HoleLine, HeaderLine, GeneratedLine, SortBy, Touching,
      SocketsOf, Joined, Listing, EntityExhibits, EdgeExhibits, EvidenceLines, EntityLines, EdgeLines, GreenLines, SocketLines,
      FitLines, HoleLines;
    var entities, edges := Entities(s), Edges(s);
    ghost var done: seq<string> := [];
    out := "";
    assert out == Joined(done) by { NothingJoined(); }
    out, done := Append(out, done, HeaderLine(project, s.id));
    out, done := Append(out, done, GeneratedLine(s.timestamp));
    out, done := Append(out, done, legend);
    assert done == Preamble(s, project, legend);
    out, done := AppendAll(out, done, others.purposes);
    out, done := AppendEntities(out, done, entities);
    out, done := AppendAll(out, done, others.summaries);
    out, done := AppendEdges(out, done, edges);
    out, done := AppendAll(out, done, others.records);
    out, done := AppendEvidence(out, done, EntityExhibits(entities) + EdgeExhibits(edges));
    out, done := AppendGreen(out, done, entities);
    out, done := AppendAll(out, done, others.conflicts);
    var sockets := SortBy(SocketsOf(entities), SocketOrder);
    out, done := AppendAll(out, done, others.sources);
    out, done := AppendSockets(out, done, sockets);
    out, done := AppendAll(out, done, others.uncertainties);
  }

  lemma NothingJoined()
    ensures Joined([]) == ""
  {
  }

  method Append(out: string, ghost done: seq<string>, line: string) returns (more: string, ghost lines: seq<string>)
    requires out == Joined(done)
    ensures lines == done + [line] && more == Joined(lines)
  {
    LineAdded(done, line, out);
    more := out + line;
    more := more + "\n";
    lines := done + [line];
  }

  lemma OneMore(done: seq<string>, block: seq<string>, line: string)
    ensures done + block + [line] == done + (block + [line])
  {
  }

  method AppendAll(out: string, ghost done: seq<string>, block: seq<string>) returns (more: string, ghost lines: seq<string>)
    requires out == Joined(done)
    ensures lines == done + block && more == Joined(lines)
  {
    hide Joined;
    assert block[..|block|] == block && done + block[..0] == done;
    more, lines := out, done;
    for i := 0 to |block|
      invariant lines == done + block[..i] && more == Joined(lines)
    {
      OneMore(done, block[..i], block[i]);
      assert block[..i] + [block[i]] == block[..i + 1];
      more, lines := Append(more, lines, block[i]);
    }
  }

  // ---- The evidence table ----

  /** The table holds the line of the last exhibit of each stable id. */
  ghost predicate Tabled(xs: seq<Exhibit>, kept: map<string, Exhibit>, table: map<string, string>) {
    && table.Keys == kept.Keys
    && (forall k :: k in kept ==> StableId(kept[k]) == k && table[k] == EvidenceLine(kept[k]))
    && (forall x :: x in Final(xs) <==> StableId(x) in kept && kept[StableId(x)] == x)
  }

  lemma NothingTabled()
    ensures Tabled([], map[], map[])
  {
  }

  lemma TableNext(xs: seq<Exhibit>, x: Exhibit, kept: map<string, Exhibit>, table: map<string, string>)
    requires Tabled(xs, kept, table)
    ensures Tabled(xs + [x], kept[StableId(x) := x], table[StableId(x) := EvidenceLine(x)])
  {
    hide StableId, EvidenceLine, Final;
    FinalNext(xs, x);
    WithoutMembers(Final(xs), StableId(x));
  }

  method TableOf(xs: seq<Exhibit>) returns (table: map<string, string>, ghost kept: map<string, Exhibit>)
    ensures Tabled(xs, kept, table)
  {
    hide Tabled, StableId, EvidenceLine;
    table, kept := map[], map[];
    NothingTabled();
    assert xs[..|xs|] == xs;
    for i := 0 to |xs|
      invariant Tabled(xs[..i], kept, table)
    {
      TableNext(xs[..i], xs[i], kept, table);
      assert xs[..i] + [xs[i]] == xs[..i + 1];
      kept := kept[StableId(xs[i]) := xs[i]];
      table := table[StableId(xs[i]) := EvidenceLine(xs[i])];
    }
  }

  lemma LeastText(texts: set<string>) returns (least: string)
    requires texts != {}
    ensures least in texts && forall t :: t in texts ==> TextLeq(least, t)
  {
    var first :| first in texts;
    TextLeqTotal(first, first);
    least := first;
    var rest := texts - {first};
    assert forall t :: t in texts <==> t == first || t in rest;
    if rest != {} {
      var other := LeastText(rest);
      TextLeqTotal(first, other);
      least := if TextLeq(first, other) then first else other;
      forall t | t in texts ensures TextLeq(least, t) {
        if t in rest {
          TextLeqTransitive(least, other, t);
        }
      }
    }
  }

  /** The exhibits whose ids are not left, ascending and below every id that is. */
  ghost predicate Written(kept: map<string, Exhibit>, left: set<string>, xs: seq<Exhibit>) {
    && Ascending(xs)
    && (forall x :: x in xs <==> StableId(x) in kept && kept[StableId(x)] == x && StableId(x) !in left)
    && (forall x, k :: x in xs && k in left ==> TextLeq(StableId(x), k))
  }

  lemma WriteNext(kept: map<string, Exhibit>, left: set<string>, xs: seq<Exhibit>, k: string)
    requires Written(kept, left, xs) && left <= kept.Keys && k in left
    requires (forall t :: t in left ==> TextLeq(k, t)) && StableId(kept[k]) == k
    ensures Written(kept, left - {k}, xs + [kept[k]])
  {
    hide StableId, TextLeq;
    var x := kept[k];
    forall i | 0 <= i < |xs| ensures ExhibitOrder(xs[i], x) && StableId(xs[i]) != StableId(x) {
      assert xs[i] in xs;
    }
  }

  lemma NothingWritten(kept: map<string, Exhibit>)
    ensures Written(kept, kept.Keys, [])
  {
  }

  lemma AllWritten(xs: seq<Exhibit>, kept: map<string, Exhibit>, table: map<string, string>, written: seq<Exhibit>)
    requires Tabled(xs, kept, table) && Written(kept, {}, written)
    ensures written == Listing(xs)
  {
    hide StableId, EvidenceLine, Final, Listing, Ascending;
    ListingIs(xs);
    AscendingIsUnique(written, Listing(xs));
  }

  lemma EvidenceNext(xs: seq<Exhibit>, x: Exhibit)
    ensures EvidenceLines(xs + [x]) == EvidenceLines(xs) + [EvidenceLine(x)]
  {
    hide EvidenceLine;
    assert (xs + [x])[..|xs|] == xs;
  }

  lemma TabledLine(xs: seq<Exhibit>, kept: map<string, Exhibit>, table: map<string, string>, k: string)
    requires Tabled(xs, kept, table) && k in kept
    ensures k in table && table[k] == EvidenceLine(kept[k]) && StableId(kept[k]) == k
  {
    hide StableId, EvidenceLine, Final;
  }

  /** Every evidence line once, in the order of the stable ids. */
  method AppendEvidence(out: string, ghost done: seq<string>, xs: seq<Exhibit>) returns (more: string,
                        ghost lines: seq<string>)
    requires out == Joined(done)
    ensures lines == done + EvidenceLines(Listing(xs)) && more == Joined(lines)
  {
    hide Joined, Tabled, Written, StableId, EvidenceLine, Listing, Final;
    var table, kept := TableOf(xs);
    more, lines := out, done;
    assert done + EvidenceLines([]) == done;
    hide EvidenceLines;
    SameKeys(xs, kept, table);
    NothingWritten(kept);
    var left := table.Keys;
    ghost var written: seq<Exhibit> := [];
    while left != {}
      invariant left <= kept.Keys && Written(kept, left, written)
      invariant lines == done + EvidenceLines(written) && more == Joined(lines)
    {
      ghost var least := LeastText(left);
      var k :| k in left && forall t :: t in left ==> TextLeq(k, t);
      TabledLine(xs, kept, table, k);
      WriteNext(kept, left, written, k);
      EvidenceNext(written, kept[k]);
      OneMore(done, EvidenceLines(written), table[k]);
      left := left - {k};
      written := written + [kept[k]];
      more, lines := Append(more, lines, table[k]);
    }
    AllWritten(xs, kept, table, written);
  }

  lemma SameKeys(xs: seq<Exhibit>, kept: map<string, Exhibit>, table: map<string, string>)
    requires Tabled(xs, kept, table)
    ensures table.Keys == kept.Keys
  {
    hide StableId, EvidenceLine, Final;
  }

  // ---- The other blocks ----

  method AppendEntities(out: string, ghost done: seq<string>, entities: seq<Entity>) returns (more: string,
                        ghost lines: seq<string>)
    requires out == Joined(done)
    ensures lines == done + EntityLines(entities) && more == Joined(lines)
  {
    assert entities[..|entities|] == entities;
    assert done + EntityLines([]) == done;
    hide EntityLine, EntityLines, Joined;
    more, lines := out, done;
    for i := 0 to |entities|
      invariant lines == done + EntityLines(entities[..i]) && more == Joined(lines)
    {
      EntityPrefix(entities, i);
      OneMore(done, EntityLines(entities[..i]), EntityLine(entities[i]));
      more, lines := Append(more, lines, EntityLine(entities[i]));
    }
  }

  method AppendEdges(out: string, ghost done: seq<string>, edges: seq<Edge>) returns (more: string,
                     ghost lines: seq<string>)
    requires out == Joined(done)
    ensures lines == done + EdgeLines(edges) && more == Joined(lines)
  {
    assert edges[..|edges|] == edges;
    assert done + EdgeLines([]) == done;
    hide EdgeLine, EdgeLines, Joined;
    more, lines := out, done;
    for i := 0 to |edges|
      invariant lines == done + EdgeLines(edges[..i]) && more == Joined(lines)
    {
      EdgePrefix(edges, i);
      OneMore(done, EdgeLines(edges[..i]), EdgeLine(edges[i]));
      more, lines := Append(more, lines, EdgeLine(edges[i]));
    }
  }

  method AppendGreen(out: string, ghost done: seq<string>, entities: seq<Entity>) returns (more: string,
                     ghost lines: seq<string>)
    requires out == Joined(done)
    ensures lines == done + GreenLines(entities) && more == Joined(lines)
  {
    assert entities[..|entities|] == entities;
    assert done + GreenLines([]) == done;
    hide GreenLine, GreenLines, Joined;
    more, lines := out, done;
    for i := 0 to |entities|
      invariant lines == done + GreenLines(entities[..i]) && more == Joined(lines)
    {
      GreenPrefix(entities, i);
      var e := entities[i];
      if e.green.Some? {
        OneMore(done, GreenLines(entities[..i]), GreenLine(e.id, e.green.value));
        more, lines := Append(more, lines, GreenLine(e.id, e.green.value));
      }
    }
  }

  method AppendSockets(out: string, ghost done: seq<string>, sockets: seq<Socket>) returns (more: string,
                       ghost lines: seq<string>)
    requires out == Joined(done)
    ensures lines == done + SocketLines(sockets) + FitLines(sockets) + HoleLines(sockets) && more == Joined(lines)
  {
    hide SocketLine, FitLine, HoleLine, Joined;
    more, lines := out, done;
    assert sockets[..|sockets|] == sockets;
    assert done + SocketLines([]) == done;
    for i := 0 to |sockets|
      invariant lines == done + SocketLines(sockets[..i]) && more == Joined(lines)
    {
      SocketPrefix(sockets, i);
      OneMore(done, SocketLines(sockets[..i]), SocketLine(sockets[i]));
      more, lines := Append(more, lines, SocketLine(sockets[i]));
    }
    ghost var withSockets := lines;
    assert withSockets + FitLines([]) == withSockets;
    for i := 0 to |sockets|
      invariant lines == withSockets + FitLines(sockets[..i]) && more == Joined(lines)
    {
      FitPrefix(sockets, i);
      if sockets[i].resolution.Fit? {
        OneMore(withSockets, FitLines(sockets[..i]), FitLine(sockets[i].id, sockets[i].resolution));
        more, lines := Append(more, lines, FitLine(sockets[i].id, sockets[i].resolution));
      }
    }
    ghost var withFits := lines;
    assert withFits + HoleLines([]) == withFits;
    for i := 0 to |sockets|
      invariant lines == withFits + HoleLines(sockets[..i]) && more == Joined(lines)
    {
      HolePrefix(sockets, i);
      if sockets[i].resolution.Hole? {
        OneMore(withFits, HoleLines(sockets[..i]), HoleLine(sockets[i]));
        more, lines := Append(more, lines, HoleLine(sockets[i]));
      }
    }
  }
}
