/** The relationship index (`module_map.rs`): edges by source and by target, each list by id. */
module ModuleMaps {
  import opened Atlas
  import opened Sorting

  datatype ModuleMap = ModuleMap(outgoing: map<Id, seq<Edge>>, incoming: map<Id, seq<Edge>>)

  predicate EdgeById(a: Edge, b: Edge) {
    a.id <= b.id
  }

  predicate Visible(e: Edge, includeInferred: bool) {
    includeInferred || e.plane != InferredPlane
  }

  function OnlyVisible(edges: seq<Edge>, includeInferred: bool): seq<Edge> {
    if edges == [] then []
    else (if Visible(edges[0], includeInferred) then [edges[0]] else []) + OnlyVisible(edges[1..], includeInferred)
  }

  lemma {:induction false} OnlyVisibleMembers(edges: seq<Edge>, includeInferred: bool)
    ensures forall e :: e in OnlyVisible(edges, includeInferred) <==> e in edges && Visible(e, includeInferred)
  {
    if edges != [] {
      OnlyVisibleMembers(edges[1..], includeInferred);
      assert edges == [edges[0]] + edges[1..];
    }
  }

  function At(index: map<Id, seq<Edge>>, id: Id): seq<Edge> {
    if id in index then index[id] else []
  }

  function Outgoing(m: ModuleMap, id: Id, includeInferred: bool): seq<Edge> {
    OnlyVisible(At(m.outgoing, id), includeInferred)
  }

  function Incoming(m: ModuleMap, id: Id, includeInferred: bool): seq<Edge> {
    OnlyVisible(At(m.incoming, id), includeInferred)
  }

  /** The edges whose `end` (source or target) is `id`, in list order. */
  function Having(edges: seq<Edge>, end: Edge -> Id, id: Id): seq<Edge> {
    if edges == [] then []
    else
      var last := edges[|edges| - 1];
      Having(edges[..|edges| - 1], end, id) + (if end(last) == id then [last] else [])
  }

  function SourceOf(e: Edge): Id { e.source }

  function TargetOf(e: Edge): Id { e.target }

  lemma {:induction false} HavingMembers(edges: seq<Edge>, end: Edge -> Id, id: Id)
    ensures forall e :: e in Having(edges, end, id) <==> e in edges && end(e) == id
  {
    if edges != [] {
      var n := |edges| - 1;
      HavingMembers(edges[..n], end, id);
      assert edges == edges[..n] + [edges[n]];
    }
  }

  /** Appends every edge to the list of its `end`. */
  method Fill(edges: seq<Edge>, end: Edge -> Id) returns (index: map<Id, seq<Edge>>)
    ensures forall id :: At(index, id) == Having(edges, end, id)
  {
    index := map[];
    for i := 0 to |edges|
      invariant forall id :: At(index, id) == Having(edges[..i], end, id)
    {
      assert edges[..i + 1][..i] == edges[..i];
      var id := end(edges[i]);
      index := index[id := At(index, id) + [edges[i]]];
    }
    assert edges[..|edges|] == edges;
  }

  /** Sorts every list by edge id. */
  method SortLists(index: map<Id, seq<Edge>>) returns (sorted: map<Id, seq<Edge>>)
    ensures forall id :: At(sorted, id) == SortBy(At(index, id), EdgeById)
  {
    sorted := index;
    var left := index.Keys;
    while left != {}
      invariant sorted.Keys == index.Keys && left <= index.Keys
      invariant forall id :: id in left ==> sorted[id] == index[id]
      invariant forall id :: id in index && id !in left ==> sorted[id] == SortBy(index[id], EdgeById)
    {
      var id :| id in left;
      left := left - {id};
      sorted := sorted[id := SortBy(sorted[id], EdgeById)];
    }
  }

  /** `m` indexes exactly the edges of the snapshot. */
  ghost predicate Indexes(m: ModuleMap, edges: seq<Edge>) {
    forall id ::
      && At(m.outgoing, id) == SortBy(Having(edges, SourceOf, id), EdgeById)
      && At(m.incoming, id) == SortBy(Having(edges, TargetOf, id), EdgeById)
  }

  method FromEdges(edges: seq<Edge>) returns (m: ModuleMap)
    ensures Indexes(m, edges)
  {
    hide Having, SortBy, At;
    var outgoing := Fill(edges, SourceOf);
    var incoming := Fill(edges, TargetOf);
    outgoing := SortLists(outgoing);
    incoming := SortLists(incoming);
    m := ModuleMap(outgoing, incoming);
  }

  lemma EdgeOrder()
    ensures TotalPreorder(EdgeById)
  {
  }

  lemma SortedMembers(edges: seq<Edge>)
    ensures forall e :: e in SortBy(edges, EdgeById) <==> e in edges
  {
    EdgeOrder();
    SortBySorts(edges, EdgeById);
    var sorted := SortBy(edges, EdgeById);
    forall e ensures e in sorted <==> e in edges {
      assert e in multiset(sorted) <==> e in multiset(edges);
    }
  }

  /** What the two filters return: the visible edges leaving, and entering, an entity. */
  lemma FiltersAreExact(m: ModuleMap, edges: seq<Edge>, id: Id, includeInferred: bool)
    requires Indexes(m, edges)
    ensures forall e :: e in Outgoing(m, id, includeInferred) <==> e in edges && e.source == id && Visible(e, includeInferred)
    ensures forall e :: e in Incoming(m, id, includeInferred) <==> e in edges && e.target == id && Visible(e, includeInferred)
  {
    hide Having, SortBy, OnlyVisible, Visible;
    var leaving, entering := Having(edges, SourceOf, id), Having(edges, TargetOf, id);
    HavingMembers(edges, SourceOf, id);
    HavingMembers(edges, TargetOf, id);
    SortedMembers(leaving);
    SortedMembers(entering);
    OnlyVisibleMembers(At(m.outgoing, id), includeInferred);
    OnlyVisibleMembers(At(m.incoming, id), includeInferred);
  }
}
