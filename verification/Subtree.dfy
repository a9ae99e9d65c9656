/** Reading one directory back (`load_planet_subtree` of `repository.rs`): the rows are exactly the
    Planet's descendants, and they come with every file before its symbols. */
module Subtrees {
  import opened Atlas
  import opened Hierarchy
  import opened Sorting
  import opened Stores
  import opened RollUp
  import opened Isolation
  import IdxWriter

  ghost predicate Stamped<T>(table: map<Id, Row<T>>, id: Id, snapshot: string) {
    id in table && table[id].snapshot == snapshot
  }

  function HasParent(id: Id): Entity -> bool {
    (e: Entity) => e.parent == Some(id)
  }

  function HasSource(id: Id): Edge -> bool {
    (e: Edge) => e.source == id
  }

  /** The ids a query yields: the stamped rows it wants, each once, ordered by the id's text. */
  ghost predicate Selected<T>(ids: seq<Id>, table: map<Id, Row<T>>, snapshot: string, wanted: T -> bool) {
    && Sorted(ids, IdxWriter.ByIdText) && NoDuplicates(ids)
    && forall id :: id in ids <==> Stamped(table, id, snapshot) && wanted(table[id].value)
  }

  lemma IdOrder()
    ensures TotalPreorder(IdxWriter.ByIdText)
    ensures forall a: Id, b: Id :: IdxWriter.ByIdText(a, b) && IdxWriter.ByIdText(b, a) ==> a == b
  {
    IdxWriter.ByIdTextOrders();
    hide IdxWriter.ByIdText;
  }

  lemma {:induction false} CountsAreMembers(ids: seq<Id>, x: Id)
    ensures NoDuplicates(ids) ==> multiset(ids)[x] == if x in ids then 1 else 0
    ensures (forall y: Id :: multiset(ids)[y] <= 1) ==> NoDuplicates(ids)
  {
    if ids != [] {
      var n := |ids| - 1;
      assert ids == ids[..n] + [ids[n]];
      CountsAreMembers(ids[..n], x);
      if forall y: Id :: multiset(ids)[y] <= 1 {
        assert forall y: Id :: multiset(ids[..n])[y] <= multiset(ids)[y];
        assert multiset(ids)[ids[n]] == multiset(ids[..n])[ids[n]] + 1;
        assert ids[n] !in ids[..n];
      }
    }
  }

  /** The order clause leaves a query only one answer. */
  lemma SelectionIsUnique<T>(a: seq<Id>, b: seq<Id>, table: map<Id, Row<T>>, snapshot: string, wanted: T -> bool)
    requires Selected(a, table, snapshot, wanted) && Selected(b, table, snapshot, wanted)
    ensures a == b
  {
    IdOrder();
    hide IdxWriter.ByIdText, Sorted, NoDuplicates;
    forall x: Id ensures multiset(a)[x] == multiset(b)[x] {
      CountsAreMembers(a, x);
      CountsAreMembers(b, x);
    }
    SortedIsUnique(a, b, IdxWriter.ByIdText);
  }

  lemma SortedSelection<T>(found: seq<Id>, table: map<Id, Row<T>>, snapshot: string, wanted: T -> bool)
    requires NoDuplicates(found) && forall id :: id in found <==> Stamped(table, id, snapshot) && wanted(table[id].value)
    ensures Selected(SortBy(found, IdxWriter.ByIdText), table, snapshot, wanted)
  {
    hide IdxWriter.ByIdText, Sorted, NoDuplicates, SortBy;
    IdOrder();
    SortBySorts(found, IdxWriter.ByIdText);
    var ids := SortBy(found, IdxWriter.ByIdText);
    forall x: Id { CountsAreMembers(found, x); }
    forall x: Id ensures x in ids <==> x in found { assert x in multiset(ids) <==> x in multiset(found); }
    CountsAreMembers(ids, 0);
  }

  /** One prepared statement run over a table, whatever order the table is stored in. */
  method Select<T>(table: map<Id, Row<T>>, snapshot: string, wanted: T -> bool) returns (ids: seq<Id>)
    ensures Selected(ids, table, snapshot, wanted)
  {
    hide Selected;
    ids := [];
    var left := table.Keys;
    while left != {}
      invariant left <= table.Keys && NoDuplicates(ids)
      invariant forall id :: id in ids <==> Stamped(table, id, snapshot) && wanted(table[id].value) && id !in left
    {
      var id :| id in left;
      left := left - {id};
      if table[id].snapshot == snapshot && wanted(table[id].value) {
        ids := ids + [id];
      }
    }
    SortedSelection(ids, table, snapshot, wanted);
    ids := SortBy(ids, IdxWriter.ByIdText);
  }

  function Flat(batches: seq<seq<Id>>): seq<Id> {
    if batches == [] then [] else Flat(batches[..|batches| - 1]) + batches[|batches| - 1]
  }

  /** One query per id, in order: the batches are what the queries yield. */
  ghost predicate Batched<T(!new)>(batches: seq<seq<Id>>, table: map<Id, Row<T>>, snapshot: string, ids: seq<Id>,
                                   wanted: Id -> T -> bool) {
    |batches| == |ids| && forall i :: 0 <= i < |ids| ==> Selected(batches[i], table, snapshot, wanted(ids[i]))
  }

  lemma {:induction false} FlatMembers<T(!new)>(batches: seq<seq<Id>>, table: map<Id, Row<T>>, snapshot: string, ids: seq<Id>,
                                          wanted: Id -> T -> bool)
    requires Batched(batches, table, snapshot, ids, wanted)
    ensures forall x :: x in Flat(batches) <==>
              exists i :: 0 <= i < |ids| && Stamped(table, x, snapshot) && wanted(ids[i])(table[x].value)
  {
    hide Sorted, NoDuplicates;
    if batches != [] {
      var n := |ids| - 1;
      FlatMembers(batches[..n], table, snapshot, ids[..n], wanted);
      assert forall i :: 0 <= i < n ==> ids[..n][i] == ids[i];
      forall x ensures x in Flat(batches) <==>
                 exists i :: 0 <= i < |ids| && Stamped(table, x, snapshot) && wanted(ids[i])(table[x].value)
      {
        if x in batches[n] {
          assert Stamped(table, x, snapshot) && wanted(ids[n])(table[x].value);
        }
      }
    }
  }

  /** What one load yields: the Planet's files, then their symbols file by file. */
  ghost predicate IsLoaded(table: map<Id, Row<Entity>>, planet: Id, snapshot: string, files: seq<Id>, loaded: seq<Id>) {
    && Selected(files, table, snapshot, HasParent(planet)) && files <= loaded
    && exists symbols :: Batched(symbols, table, snapshot, files, HasParent) && loaded == files + Flat(symbols)
  }

  ghost predicate IsSymbol(table: map<Id, Row<Entity>>, snapshot: string, files: seq<Id>, id: Id) {
    Stamped(table, id, snapshot) && exists f :: f in files && table[id].value.parent == Some(f)
  }

  lemma LoadedMembers(table: map<Id, Row<Entity>>, planet: Id, snapshot: string, files: seq<Id>, loaded: seq<Id>)
    requires IsLoaded(table, planet, snapshot, files, loaded)
    ensures forall id :: id in loaded <==> id in files || IsSymbol(table, snapshot, files, id)
    ensures forall i :: |files| <= i < |loaded| ==> IsSymbol(table, snapshot, files, loaded[i])
  {
    hide Sorted, NoDuplicates, Selected;
    var symbols :| Batched(symbols, table, snapshot, files, HasParent) && loaded == files + Flat(symbols);
    FlatMembers(symbols, table, snapshot, files, HasParent);
    forall x ensures x in Flat(symbols) <==> IsSymbol(table, snapshot, files, x) {
      if x in Flat(symbols) {
        var i :| 0 <= i < |files| && Stamped(table, x, snapshot) && HasParent(files[i])(table[x].value);
        assert files[i] in files;
      }
      if IsSymbol(table, snapshot, files, x) {
        var f :| f in files && table[x].value.parent == Some(f);
        var i :| 0 <= i < |files| && files[i] == f;
        assert HasParent(files[i])(table[x].value);
      }
    }
    assert forall i :: |files| <= i < |loaded| ==> loaded[i] == Flat(symbols)[i - |files|];
  }

  /** The edges of a load: for the Planet and then for each file, those sourced there, in order of
      id text. */
  ghost predicate EdgesLoaded(table: map<Id, Row<Edge>>, planet: Id, snapshot: string, files: seq<Id>, loaded: seq<Id>) {
    exists batches :: Batched(batches, table, snapshot, [planet] + files, HasSource) && loaded == Flat(batches)
  }

  /** They are exactly the stamped edges out of the Planet or a file, each once when no file is
      the Planet. */
  lemma LoadedEdgesAre(table: map<Id, Row<Edge>>, planet: Id, snapshot: string, files: seq<Id>, loaded: seq<Id>)
    requires EdgesLoaded(table, planet, snapshot, files, loaded) && NoDuplicates(files) && planet !in files
    ensures forall x :: x in loaded <==>
              Stamped(table, x, snapshot) && (table[x].value.source == planet || table[x].value.source in files)
    ensures NoDuplicates(loaded)
  {
    hide Selected;
    var sources := [planet] + files;
    var batches :| Batched(batches, table, snapshot, sources, HasSource) && loaded == Flat(batches);
    FlatMembers(batches, table, snapshot, sources, HasSource);
    forall x | Stamped(table, x, snapshot) && table[x].value.source in sources ensures x in loaded {
      var i :| 0 <= i < |sources| && sources[i] == table[x].value.source;
      assert HasSource(sources[i])(table[x].value);
    }
    EdgesOnce(batches, table, snapshot, sources);
  }

  lemma {:induction false} EdgesOnce(batches: seq<seq<Id>>, table: map<Id, Row<Edge>>, snapshot: string, sources: seq<Id>)
    requires Batched(batches, table, snapshot, sources, HasSource) && NoDuplicates(sources)
    ensures NoDuplicates(Flat(batches))
  {
    hide Sorted;
    if batches != [] {
      var n := |sources| - 1;
      EdgesOnce(batches[..n], table, snapshot, sources[..n]);
      FlatMembers(batches[..n], table, snapshot, sources[..n], HasSource);
      Apart(Flat(batches[..n]), batches[n]);
    }
  }

  lemma Apart(a: seq<Id>, b: seq<Id>)
    requires NoDuplicates(a) && NoDuplicates(b) && forall x :: x in a ==> x !in b
    ensures NoDuplicates(a + b)
  {
    forall i, j | 0 <= i < j < |a + b| ensures (a + b)[i] != (a + b)[j] {
      if i < |a| <= j {
        assert a[i] in a && b[j - |a|] in b;
      }
    }
  }

  /** One answer only, order and multiplicity included. */
  lemma LoadIsDeterministic(table: map<Id, Row<Edge>>, planet: Id, snapshot: string, files: seq<Id>, a: seq<Id>, b: seq<Id>)
    requires EdgesLoaded(table, planet, snapshot, files, a) && EdgesLoaded(table, planet, snapshot, files, b)
    ensures a == b
  {
    hide Selected;
    var x :| Batched(x, table, snapshot, [planet] + files, HasSource) && a == Flat(x);
    var y :| Batched(y, table, snapshot, [planet] + files, HasSource) && b == Flat(y);
    forall i | 0 <= i < |x| ensures x[i] == y[i] {
      SelectionIsUnique(x[i], y[i], table, snapshot, HasSource(([planet] + files)[i]));
    }
    assert x == y;
  }

  method LoadPlanetSubtree(entities: map<Id, Row<Entity>>, edges: map<Id, Row<Edge>>, planet: Id, snapshot: string)
    returns (files: seq<Id>, loaded: seq<Id>, loadedEdges: seq<Id>)
    ensures IsLoaded(entities, planet, snapshot, files, loaded)
    ensures EdgesLoaded(edges, planet, snapshot, files, loadedEdges)
  {
    hide Selected;
    files := Select(entities, snapshot, HasParent(planet));
    loaded := files;
    ghost var symbols: seq<seq<Id>> := [];
    for i := 0 to |files|
      invariant Batched(symbols, entities, snapshot, files[..i], HasParent)
      invariant loaded == files + Flat(symbols)
    {
      var more := Select(entities, snapshot, HasParent(files[i]));
      assert files[..i + 1] == files[..i] + [files[i]];
      assert (symbols + [more])[..|symbols|] == symbols;
      assert files + (Flat(symbols) + more) == loaded + more;
      symbols := symbols + [more];
      loaded := loaded + more;
    }
    assert files[..|files|] == files;
    loadedEdges := LoadEdges(edges, snapshot, [planet] + files);
  }

  method LoadEdges(edges: map<Id, Row<Edge>>, snapshot: string, sources: seq<Id>) returns (loaded: seq<Id>)
    ensures exists batches :: Batched(batches, edges, snapshot, sources, HasSource) && loaded == Flat(batches)
  {
    hide Selected;
    loaded := [];
    ghost var batches: seq<seq<Id>> := [];
    for i := 0 to |sources|
      invariant Batched(batches, edges, snapshot, sources[..i], HasSource) && loaded == Flat(batches)
    {
      var some := Select(edges, snapshot, HasSource(sources[i]));
      assert sources[..i + 1] == sources[..i] + [sources[i]];
      assert (batches + [some])[..|batches|] == batches;
      batches := batches + [some];
      loaded := loaded + some;
    }
    assert sources[..|sources|] == sources;
  }

  // ---- What it means ----

  /** The stamped rows agree with the tree below the Planet: nothing there is missing, and every
      row that claims a parent there has it. */
  ghost predicate HoldsBelow(table: map<Id, Row<Entity>>, m: Hierarchy.Index, planet: Id, snapshot: string) {
    && (forall x :: Below(m, x, planet) ==> Stamped(table, x, snapshot) && table[x].value.parent == m[x].parent)
    && (forall x :: Stamped(table, x, snapshot) && table[x].value.parent.Some? && Under(m, table[x].value.parent.value, planet)
                    ==> x in m && m[x].parent == table[x].value.parent)
  }

  lemma FilesHang(table: map<Id, Row<Entity>>, planet: Id, snapshot: string, files: seq<Id>, loaded: seq<Id>)
    requires IsLoaded(table, planet, snapshot, files, loaded)
    ensures forall f :: f in files <==> Stamped(table, f, snapshot) && table[f].value.parent == Some(planet)
    ensures files <= loaded
  {
    hide Sorted, NoDuplicates;
  }

  lemma LoadedLiesBelow(table: map<Id, Row<Entity>>, m: Hierarchy.Index, planet: Id, snapshot: string,
                        files: seq<Id>, loaded: seq<Id>, x: Id)
    requires IsLoaded(table, planet, snapshot, files, loaded) && HoldsBelow(table, m, planet, snapshot) && x in loaded
    ensures Below(m, x, planet)
  {
    LoadedMembers(table, planet, snapshot, files, loaded);
    hide Sorted, NoDuplicates, IsLoaded;
    assert x in files ==> Stamped(table, x, snapshot) && table[x].value.parent == Some(planet) by {
      FilesHang(table, planet, snapshot, files, loaded);
    }
    PlanetIsUnderItself(m, planet);
    if x !in files {
      var f :| f in files && table[x].value.parent == Some(f);
      FileIsUnder(m, f, planet);
    }
  }

  lemma BelowIsLoaded(table: map<Id, Row<Entity>>, m: Hierarchy.Index, planet: Id, snapshot: string, files: seq<Id>,
                      loaded: seq<Id>, x: Id)
    requires IsLoaded(table, planet, snapshot, files, loaded) && HoldsBelow(table, m, planet, snapshot)
    requires Below(m, x, planet)
    requires forall y :: Climb(m, y, 3) != Some(planet)
    ensures x in loaded
  {
    LoadedMembers(table, planet, snapshot, files, loaded);
    FilesHang(table, planet, snapshot, files, loaded);
    hide Sorted, NoDuplicates, IsLoaded;
    TwoSteps(m, planet, x);
    if m[x].parent != Some(planet) {
      var f := m[x].parent.value;
      FileIsUnder(m, f, planet);
      assert f in files;
    }
  }

  /** Files lie directly under the Planet, symbols under files, and nothing under a symbol: the
      load finds exactly what lies below the Planet. */
  lemma LoadedIsBelow(table: map<Id, Row<Entity>>, m: Hierarchy.Index, planet: Id, snapshot: string, files: seq<Id>,
                      loaded: seq<Id>, x: Id)
    requires IsLoaded(table, planet, snapshot, files, loaded) && HoldsBelow(table, m, planet, snapshot)
    requires forall y :: Climb(m, y, 3) != Some(planet)
    ensures x in loaded <==> Below(m, x, planet)
  {
    hide IsLoaded, HoldsBelow, Below, Climb;
    if x in loaded { LoadedLiesBelow(table, m, planet, snapshot, files, loaded, x); }
    if Below(m, x, planet) { BelowIsLoaded(table, m, planet, snapshot, files, loaded, x); }
  }

  lemma PlanetIsUnderItself(m: Hierarchy.Index, planet: Id)
    ensures Under(m, planet, planet)
  {
    assert Climb(m, planet, 0) == Some(planet);
  }

  lemma FileIsUnder(m: Hierarchy.Index, f: Id, planet: Id)
    requires f in m && m[f].parent == Some(planet)
    ensures Below(m, f, planet) && Under(m, f, planet)
  {
    ChildIsBelow(m, f, planet);
  }

  lemma TwoSteps(m: Hierarchy.Index, planet: Id, x: Id)
    requires Below(m, x, planet) && forall y :: Climb(m, y, 3) != Some(planet)
    ensures m[x].parent == Some(planet) || (m[x].parent.value in m && m[m[x].parent.value].parent == Some(planet))
  {
    var p := m[x].parent.value;
    var n: nat :| Climb(m, p, n) == Some(planet);
    if n == 1 {
      assert Climb(m, p, 0) == Some(p);
    } else if n >= 2 {
      ClimbReaches(m, p, n - 2);
      var y := Climb(m, p, n - 2).value;
      assert Climb(m, x, 0) == Some(x) && Climb(m, x, 1) == Some(p);
      ClimbOn(m, x, p, 1, n);
      Late(m, x, n + 1, planet);
    }
  }

  /** A chain that reaches some height passes every lower one. */
  lemma {:induction false} ClimbReaches(m: Hierarchy.Index, x: Id, n: nat)
    requires Climb(m, x, n + 2).Some?
    ensures Climb(m, x, n).Some?
  {
    assert Climb(m, x, n + 1).Some?;
  }

  lemma Late(m: Hierarchy.Index, x: Id, n: nat, planet: Id)
    requires n >= 3 && Climb(m, x, n) == Some(planet)
    ensures exists y :: Climb(m, y, 3) == Some(planet)
  {
    if Climb(m, x, n - 3) == None {
      PastTheTop(m, x, n - 3, n);
    } else {
      var y := Climb(m, x, n - 3).value;
      ClimbOn(m, x, y, n - 3, 3);
    }
  }

  // ---- The order it comes in ----

  ghost function RowsAt(table: map<Id, Row<Entity>>, ids: seq<Id>): (r: seq<Entity>)
    requires forall id :: id in ids ==> id in table
    ensures |r| == |ids| && forall i :: 0 <= i < |r| ==> r[i] == table[ids[i]].value
  {
    seq(|ids|, i requires 0 <= i < |ids| => table[ids[i]].value)
  }

  ghost predicate KeyedById(table: map<Id, Row<Entity>>) {
    forall id :: id in table ==> table[id].value.id == id
  }

  /** Under the shared roots, a reloaded directory lists parents first again, so evaluating it
      meets the same order as the first evaluation. */
  lemma ReloadedIsParentFirst(table: map<Id, Row<Entity>>, planet: Id, snapshot: string, files: seq<Id>,
                              loaded: seq<Id>, tops: seq<Entity>)
    requires IsLoaded(table, planet, snapshot, files, loaded) && KeyedById(table) && planet !in loaded
    requires forall a, b :: a in tops && b in tops ==> !NestedIn(a, b)
    requires forall a, id :: a in tops && id in loaded ==> a.parent != Some(id)
    requires forall a, f :: a in tops && a.id == planet && f in files ==> a.scale != table[f].value.scale
    requires forall id :: id in loaded ==> id in table
    ensures ParentFirst(tops + RowsAt(table, loaded))
  {
    hide IsLoaded;
    FilesHang(table, planet, snapshot, files, loaded);
    var rows := RowsAt(table, loaded);
    var all := tops + rows;
    forall r | r in rows ensures r.id in loaded {
      var k :| 0 <= k < |rows| && rows[k] == r;
      assert loaded[k] in loaded;
    }
    forall i, j | 0 <= i < |all| && 0 <= j < |all| && NestedIn(all[i], all[j]) ensures j < i {
      OneOfThem(tops, rows, i);
      OneOfThem(tops, rows, j);
      if i >= |tops| {
        LoadedParent(table, planet, snapshot, files, loaded, i - |tops|);
        if j >= |tops| {
          LoadedParent(table, planet, snapshot, files, loaded, j - |tops|);
        }
      }
    }
  }

  lemma LoadedParent(table: map<Id, Row<Entity>>, planet: Id, snapshot: string, files: seq<Id>, loaded: seq<Id>, i: nat)
    requires IsLoaded(table, planet, snapshot, files, loaded) && i < |loaded| && planet !in loaded
    ensures loaded[i] in table && loaded[i] != planet
    ensures if i < |files| then loaded[i] in files && table[loaded[i]].value.parent == Some(planet)
            else loaded[i] !in files && table[loaded[i]].value.parent.Some? && table[loaded[i]].value.parent.value in files
  {
    LoadedMembers(table, planet, snapshot, files, loaded);
    FilesHang(table, planet, snapshot, files, loaded);
    hide IsLoaded;
    assert loaded[i] in loaded;
    if i < |files| {
      assert files[i] == loaded[i] && files[i] in files;
    }
  }
}
