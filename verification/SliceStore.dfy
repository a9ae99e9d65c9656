/** What `scan_layered` leaves in the store: directories written one by one, patched, stitched and
    rolled up, against one replacement with the whole snapshot. */
module SliceStores {
  import opened Atlas
  import opened ScanIndex
  import opened ImportEdges
  import opened Slices
  import opened Stores

  /** What enriching a file adds, under the ids it ends with: symbols and the edges to them. */
  datatype Found = Found(symbols: seq<Entity>, edges: seq<Edge>)

  /** A directory's snapshot once enriched, reconciled and evaluated. */
  datatype Part = Part(entities: seq<Entity>, edges: seq<Edge>)

  function SymbolsOf(found: FileEntry -> Found, files: seq<FileEntry>): seq<Entity> {
    if files == [] then []
    else
      var n := |files| - 1;
      SymbolsOf(found, files[..n]) + found(files[n]).symbols
  }

  function SymbolEdges(found: FileEntry -> Found, files: seq<FileEntry>): seq<Edge> {
    if files == [] then []
    else
      var n := |files| - 1;
      SymbolEdges(found, files[..n]) + found(files[n]).edges
  }

  lemma {:induction false} FoundMembers(found: FileEntry -> Found, files: seq<FileEntry>)
    ensures forall s :: s in SymbolsOf(found, files) <==> exists f :: f in files && s in found(f).symbols
    ensures forall l :: l in SymbolEdges(found, files) <==> exists f :: f in files && l in found(f).edges
  {
    if files != [] {
      var n := |files| - 1;
      FoundMembers(found, files[..n]);
      assert files == files[..n] + [files[n]];
      assert forall f :: f in files <==> f in files[..n] || f == files[n];
    }
  }

  function IdsOf(rows: seq<Entity>): seq<Id> {
    seq(|rows|, i requires 0 <= i < |rows| => rows[i].id)
  }

  lemma IdsMembers(rows: seq<Entity>, id: Id)
    ensures id in IdsOf(rows) <==> exists e :: e in rows && e.id == id
  {
    if e :| e in rows && e.id == id {
      var i :| 0 <= i < |rows| && rows[i] == e;
      assert IdsOf(rows)[i] == id;
    }
  }

  /** Symbols take no root's id, and their edges lead from their file. */
  ghost predicate FoundFits(x: Index, found: FileEntry -> Found) {
    forall f :: f in x.files ==>
      (forall s :: s in found(f).symbols ==> s.id != x.universe.id && s.id != x.galaxy.id)
      && (forall l :: l in found(f).edges ==> l.source == f.id)
  }

  /** The directory's snapshot: the roots, its slice and the symbols of its files. Evaluating fills
      in Green and keeps ids and edges. */
  ghost predicate IsPart(x: Index, found: FileEntry -> Found, key: string, part: Part) {
    var files := FilesOf(x.files, key);
    && IdsOf(part.entities) == IdsOf([x.universe, x.galaxy] + Rows(x, files) + SymbolsOf(found, files))
    && part.edges == [RootEdge(x)] + RowEdges(x, Rows(x, files)) + SymbolEdges(found, files)
  }

  function WithoutRoots(x: Index, rows: seq<Entity>): seq<Entity> {
    if rows == [] then []
    else
      var last := rows[|rows| - 1];
      WithoutRoots(x, rows[..|rows| - 1]) + (if last.id != x.universe.id && last.id != x.galaxy.id then [last] else [])
  }

  function NotFromUniverse(x: Index, edges: seq<Edge>): seq<Edge> {
    if edges == [] then []
    else
      var last := edges[|edges| - 1];
      NotFromUniverse(x, edges[..|edges| - 1]) + (if last.source != x.universe.id then [last] else [])
  }

  lemma {:induction false} WithoutRootsMembers(x: Index, rows: seq<Entity>)
    ensures forall e :: e in WithoutRoots(x, rows) <==> e in rows && e.id != x.universe.id && e.id != x.galaxy.id
  {
    if rows != [] {
      var n := |rows| - 1;
      WithoutRootsMembers(x, rows[..n]);
      assert rows == rows[..n] + [rows[n]];
    }
  }

  lemma {:induction false} NotFromUniverseMembers(x: Index, edges: seq<Edge>)
    ensures forall l :: l in NotFromUniverse(x, edges) <==> l in edges && l.source != x.universe.id
  {
    if edges != [] {
      var n := |edges| - 1;
      NotFromUniverseMembers(x, edges[..n]);
      assert edges == edges[..n] + [edges[n]];
    }
  }

  // ---- The ids and edges of the whole ----

  /** A row, or a symbol, of these files. */
  ghost predicate IdIn(x: Index, found: FileEntry -> Found, files: seq<FileEntry>, id: Id) {
    || (exists e :: e in Rows(x, files) && e.id == id)
    || (exists s :: s in SymbolsOf(found, files) && s.id == id)
  }

  ghost predicate WholeId(x: Index, found: FileEntry -> Found, id: Id) {
    id == x.universe.id || id == x.galaxy.id || IdIn(x, found, x.files, id)
  }

  ghost predicate EdgeIn(x: Index, found: FileEntry -> Found, files: seq<FileEntry>, l: Edge) {
    l in RowEdges(x, Rows(x, files)) || l in SymbolEdges(found, files)
  }

  lemma RowsAvoidRoots(x: Index, files: seq<FileEntry>)
    requires Known(x) && AllIdsDistinct(x) && Within(x, files)
    ensures forall e :: e in Rows(x, files) ==> e.id != x.universe.id && e.id != x.galaxy.id
    ensures forall l :: l in RowEdges(x, Rows(x, files)) ==> l.source != x.universe.id
  {
    hide Known, AllIdsDistinct, SystemRow, PlanetRow, MoonRow, Rows;
    forall e | e in Rows(x, files)
      ensures e.id != x.universe.id && e.id != x.galaxy.id && ParentEdge(x, e).source != x.universe.id
    {
      RowsMembers(x, files, e);
      var f :| f in files && (e == SystemRow(x, f) || e == PlanetRow(x, f) || e == MoonRow(x, f));
      RootsApart(x, f);
      EdgesOfRows(x, f);
      GroupIdsApart(x, f);
    }
    forall l | l in RowEdges(x, Rows(x, files)) ensures l.source != x.universe.id {
      EdgesAreOfRows(x, Rows(x, files), l);
    }
  }

  lemma GroupIdsApart(x: Index, f: FileEntry)
    requires Known(x) && AllIdsDistinct(x) && f in x.files
    ensures SystemId(x, f) != x.universe.id && PlanetId(x, f) != x.universe.id && x.galaxy.id != x.universe.id
  {
    hide GroupKeys;
  }

  lemma SliceWithin(x: Index, key: string)
    ensures Within(x, FilesOf(x.files, key))
  {
    FilesOfMembers(x.files, key);
  }

  /** What is kept of a part: all but the shared roots. */
  lemma PersistedIs(x: Index, found: FileEntry -> Found, key: string, part: Part)
    requires Known(x) && AllIdsDistinct(x) && FoundFits(x, found) && IsPart(x, found, key, part)
    ensures forall id :: (exists e :: e in WithoutRoots(x, part.entities) && e.id == id) <==> IdIn(x, found, FilesOf(x.files, key), id)
    ensures forall l :: l in NotFromUniverse(x, part.edges) <==> EdgeIn(x, found, FilesOf(x.files, key), l)
  {
    hide Known, AllIdsDistinct, FoundFits, WithoutRoots, NotFromUniverse, FilesOf, Rows, RowEdges, SymbolsOf, SymbolEdges, IdsOf;
    var files := FilesOf(x.files, key);
    SliceWithin(x, key);
    RowsAvoidRoots(x, files);
    FoundAvoidsRoots(x, found, files);
    NotFromUniverseMembers(x, part.edges);
    forall id ensures (exists e :: e in WithoutRoots(x, part.entities) && e.id == id) <==> IdIn(x, found, files, id) {
      PersistedIds(x, part.entities, Rows(x, files), SymbolsOf(found, files), id);
    }
  }

  lemma PersistedIds(x: Index, entities: seq<Entity>, rows: seq<Entity>, symbols: seq<Entity>, id: Id)
    requires IdsOf(entities) == IdsOf([x.universe, x.galaxy] + rows + symbols)
    requires forall e :: e in rows || e in symbols ==> e.id != x.universe.id && e.id != x.galaxy.id
    ensures (exists e :: e in WithoutRoots(x, entities) && e.id == id) <==>
            (exists e :: e in rows && e.id == id) || (exists s :: s in symbols && s.id == id)
  {
    hide WithoutRoots, IdsOf;
    var all := [x.universe, x.galaxy] + rows + symbols;
    WithoutRootsMembers(x, entities);
    IdsMembers(entities, id);
    IdsMembers(all, id);
    forall e ensures e in all <==> e == x.universe || e == x.galaxy || e in rows || e in symbols {
    }
  }

  lemma FoundAvoidsRoots(x: Index, found: FileEntry -> Found, files: seq<FileEntry>)
    requires AllIdsDistinct(x) && FoundFits(x, found) && Within(x, files)
    ensures forall s :: s in SymbolsOf(found, files) ==> s.id != x.universe.id && s.id != x.galaxy.id
    ensures forall l :: l in SymbolEdges(found, files) ==> l.source != x.universe.id
  {
    FoundMembers(found, files);
  }

  /** The slices have the ids and the edges of the whole. */
  lemma PartsAddUp(x: Index, found: FileEntry -> Found, keys: seq<string>)
    requires Known(x) && forall f :: f in x.files ==> GroupKeys(f.path).key in keys
    ensures forall id :: IdIn(x, found, x.files, id) <==> exists k :: k in keys && IdIn(x, found, FilesOf(x.files, k), id)
    ensures forall l :: EdgeIn(x, found, x.files, l) <==> exists k :: k in keys && EdgeIn(x, found, FilesOf(x.files, k), l)
  {
    hide Known, GroupKeys, FilesOf, IdIn, EdgeIn;
    forall id ensures IdIn(x, found, x.files, id) <==> exists k :: k in keys && IdIn(x, found, FilesOf(x.files, k), id) {
      IdInSomePart(x, found, keys, id);
    }
    forall l ensures EdgeIn(x, found, x.files, l) <==> exists k :: k in keys && EdgeIn(x, found, FilesOf(x.files, k), l) {
      EdgeInSomePart(x, found, keys, l);
    }
  }

  lemma EdgeInSomePart(x: Index, found: FileEntry -> Found, keys: seq<string>, l: Edge)
    requires Known(x) && forall f :: f in x.files ==> GroupKeys(f.path).key in keys
    ensures EdgeIn(x, found, x.files, l) <==> exists k :: k in keys && EdgeIn(x, found, FilesOf(x.files, k), l)
  {
    SlicesAddUp(x, keys);
    FoundAddsUp(x, found, keys);
    hide Known, GroupKeys, FilesOf, Rows, RowEdges, SymbolEdges;
  }

  lemma IdInSomePart(x: Index, found: FileEntry -> Found, keys: seq<string>, id: Id)
    requires Known(x) && forall f :: f in x.files ==> GroupKeys(f.path).key in keys
    ensures IdIn(x, found, x.files, id) <==> exists k :: k in keys && IdIn(x, found, FilesOf(x.files, k), id)
  {
    hide Known, GroupKeys, FilesOf, Rows, SymbolsOf;
    RowIdInSomePart(x, keys, id);
    FoundAddsUp(x, found, keys);
    if s :| s in SymbolsOf(found, x.files) && s.id == id {
      var k :| k in keys && s in SymbolsOf(found, FilesOf(x.files, k));
      assert IdIn(x, found, FilesOf(x.files, k), id);
    } else if e :| e in Rows(x, x.files) && e.id == id {
      var k :| k in keys && exists e :: e in Rows(x, FilesOf(x.files, k)) && e.id == id;
      assert IdIn(x, found, FilesOf(x.files, k), id);
    }
  }

  lemma RowIdInSomePart(x: Index, keys: seq<string>, id: Id)
    requires Known(x) && forall f :: f in x.files ==> GroupKeys(f.path).key in keys
    ensures (exists e :: e in Rows(x, x.files) && e.id == id) <==>
            exists k :: k in keys && exists e :: e in Rows(x, FilesOf(x.files, k)) && e.id == id
  {
    hide Known, GroupKeys, FilesOf, Rows;
    forall e ensures e in Rows(x, x.files) <==> exists k :: k in keys && e in Rows(x, FilesOf(x.files, k)) {
      RowInSomeSlice(x, keys, e);
    }
  }

  lemma FoundAddsUp(x: Index, found: FileEntry -> Found, keys: seq<string>)
    requires forall f :: f in x.files ==> GroupKeys(f.path).key in keys
    ensures forall s :: s in SymbolsOf(found, x.files) <==> exists k :: k in keys && s in SymbolsOf(found, FilesOf(x.files, k))
    ensures forall l :: l in SymbolEdges(found, x.files) <==> exists k :: k in keys && l in SymbolEdges(found, FilesOf(x.files, k))
  {
    hide GroupKeys;
    FoundMembers(found, x.files);
    forall k: string
      ensures forall f :: f in FilesOf(x.files, k) <==> f in x.files && GroupKeys(f.path).key == k
      ensures forall s :: s in SymbolsOf(found, FilesOf(x.files, k)) <==> exists f :: f in FilesOf(x.files, k) && s in found(f).symbols
      ensures forall l :: l in SymbolEdges(found, FilesOf(x.files, k)) <==> exists f :: f in FilesOf(x.files, k) && l in found(f).edges
    {
      FilesOfMembers(x.files, k);
      FoundMembers(found, FilesOf(x.files, k));
    }
    hide FilesOf, SymbolsOf, SymbolEdges;
    forall s ensures s in SymbolsOf(found, x.files) <==> exists k :: k in keys && s in SymbolsOf(found, FilesOf(x.files, k)) {
      if f :| f in x.files && s in found(f).symbols {
        assert f in FilesOf(x.files, GroupKeys(f.path).key);
      }
    }
    forall l ensures l in SymbolEdges(found, x.files) <==> exists k :: k in keys && l in SymbolEdges(found, FilesOf(x.files, k)) {
      if f :| f in x.files && l in found(f).edges {
        assert f in FilesOf(x.files, GroupKeys(f.path).key);
      }
    }
  }

  // ---- What is written ----

  /** The rows of the roots and of the first directories, as persisted. */
  function RowsOfParts(x: Index, parts: seq<Part>): seq<Entity> {
    if parts == [] then [x.universe, x.galaxy]
    else RowsOfParts(x, parts[..|parts| - 1]) + WithoutRoots(x, parts[|parts| - 1].entities)
  }

  function LinksOfParts(x: Index, parts: seq<Part>): seq<Edge> {
    if parts == [] then [RootEdge(x)]
    else LinksOfParts(x, parts[..|parts| - 1]) + NotFromUniverse(x, parts[|parts| - 1].edges)
  }

  function Flat(batches: seq<seq<Entity>>): seq<Entity> {
    if batches == [] then [] else Flat(batches[..|batches| - 1]) + batches[|batches| - 1]
  }

  ghost predicate AreParts(x: Index, found: FileEntry -> Found, keys: seq<string>, parts: seq<Part>) {
    |parts| == |keys| && forall i :: 0 <= i < |keys| ==> IsPart(x, found, keys[i], parts[i])
  }

  /** The rows are under the ids of the roots and these directories, and the links are theirs. */
  ghost predicate Filled(x: Index, found: FileEntry -> Found, keys: seq<string>, rows: seq<Entity>, links: seq<Edge>) {
    && (forall id :: id in Stores.Keys(rows, EntityKey) <==>
         id == x.universe.id || id == x.galaxy.id || exists k :: k in keys && IdIn(x, found, FilesOf(x.files, k), id))
    && (forall l :: l in links <==> l == RootEdge(x) || exists k :: k in keys && EdgeIn(x, found, FilesOf(x.files, k), l))
  }

  lemma KeysMembers(rows: seq<Entity>, id: Id)
    ensures id in Stores.Keys(rows, EntityKey) <==> exists e :: e in rows && e.id == id
  {
  }

  lemma KeysJoin(a: seq<Entity>, b: seq<Entity>)
    ensures Stores.Keys(a + b, EntityKey) == Stores.Keys(a, EntityKey) + Stores.Keys(b, EntityKey)
  {
  }

  lemma FilledNext(x: Index, found: FileEntry -> Found, keys: seq<string>, rows: seq<Entity>, links: seq<Edge>, key: string, part: Part)
    requires Known(x) && AllIdsDistinct(x) && FoundFits(x, found) && IsPart(x, found, key, part)
    requires Filled(x, found, keys, rows, links)
    ensures Filled(x, found, keys + [key], rows + WithoutRoots(x, part.entities), links + NotFromUniverse(x, part.edges))
  {
    hide Known, AllIdsDistinct, FoundFits, IsPart, IdIn, EdgeIn, FilesOf, WithoutRoots, NotFromUniverse, Stores.Keys, RootEdge;
    PersistedIs(x, found, key, part);
    KeysJoin(rows, WithoutRoots(x, part.entities));
    var files := FilesOf(x.files, key);
    forall id ensures id in Stores.Keys(WithoutRoots(x, part.entities), EntityKey) <==> IdIn(x, found, files, id) {
      KeysMembers(WithoutRoots(x, part.entities), id);
    }
    forall id
      ensures (exists k :: k in keys + [key] && IdIn(x, found, FilesOf(x.files, k), id)) <==>
              (exists k :: k in keys && IdIn(x, found, FilesOf(x.files, k), id)) || IdIn(x, found, files, id)
    {
      if IdIn(x, found, files, id) {
        assert key in keys + [key];
      }
    }
    forall l
      ensures (exists k :: k in keys + [key] && EdgeIn(x, found, FilesOf(x.files, k), l)) <==>
              (exists k :: k in keys && EdgeIn(x, found, FilesOf(x.files, k), l)) || EdgeIn(x, found, files, l)
    {
      if EdgeIn(x, found, files, l) {
        assert key in keys + [key];
      }
    }
  }

  lemma {:induction false} PartsFill(x: Index, found: FileEntry -> Found, keys: seq<string>, parts: seq<Part>)
    requires Known(x) && AllIdsDistinct(x) && FoundFits(x, found) && AreParts(x, found, keys, parts)
    ensures Filled(x, found, keys, RowsOfParts(x, parts), LinksOfParts(x, parts))
  {
    hide Known, AllIdsDistinct, FoundFits, IsPart, Filled;
    if parts == [] {
      NothingFilled(x, found);
      assert keys == [];
    } else {
      var n := |parts| - 1;
      PartsFill(x, found, keys[..n], parts[..n]);
      FilledNext(x, found, keys[..n], RowsOfParts(x, parts[..n]), LinksOfParts(x, parts[..n]), keys[n], parts[n]);
      assert keys == keys[..n] + [keys[n]];
    }
  }

  lemma NothingFilled(x: Index, found: FileEntry -> Found)
    ensures Filled(x, found, [], [x.universe, x.galaxy], [RootEdge(x)])
  {
    hide IdIn, EdgeIn, RootEdge, Stores.Keys;
    var roots := [x.universe, x.galaxy];
    forall id ensures id in Stores.Keys(roots, EntityKey) <==> id == x.universe.id || id == x.galaxy.id {
      KeysMembers(roots, id);
      assert x.universe == roots[0] && x.galaxy == roots[1];
    }
  }

  /** Later writes rewrite rows that are there. */
  ghost predicate Rewrites(x: Index, found: FileEntry -> Found, rows: seq<Entity>) {
    forall e :: e in rows ==> WholeId(x, found, e.id)
  }

  lemma {:induction false} FlatRewrites(x: Index, found: FileEntry -> Found, batches: seq<seq<Entity>>)
    requires forall b :: b in batches ==> Rewrites(x, found, b)
    ensures Rewrites(x, found, Flat(batches))
  {
    hide WholeId;
    if batches != [] {
      var n := |batches| - 1;
      FlatRewrites(x, found, batches[..n]);
      assert batches[n] in batches;
    }
  }

  // ---- Against one replacement ----

  /** What the whole-project scan stores: the same ids under one evaluation, and the same edges. */
  ghost predicate IsWhole(x: Index, found: FileEntry -> Found, whole: Part, scanned: seq<Edge>) {
    && IdsOf(whole.entities) == IdsOf([x.universe, x.galaxy] + Rows(x, x.files) + SymbolsOf(found, x.files))
    && WholeEdges(x, scanned) && whole.edges == scanned + SymbolEdges(found, x.files)
  }

  /** Edges to symbols bear ids of their own, in their file, across files and beside the scanned ones. */
  ghost predicate SymbolEdgesApart(x: Index, found: FileEntry -> Found, scanned: seq<Edge>) {
    && (forall f, i, j :: f in x.files && 0 <= i < j < |found(f).edges| ==> found(f).edges[i].id != found(f).edges[j].id)
    && (forall f, g, l, m :: f in x.files && g in x.files && l in found(f).edges && m in found(g).edges && l.id == m.id ==> f == g)
    && (forall f, l, m :: f in x.files && l in found(f).edges && m in scanned ==> l.id != m.id)
  }

  ghost predicate EdgesDiffer(edges: seq<Edge>) {
    forall i, j :: 0 <= i < j < |edges| ==> edges[i].id != edges[j].id
  }

  lemma EdgesDifferTogether(a: seq<Edge>, b: seq<Edge>)
    requires EdgesDiffer(a) && EdgesDiffer(b) && forall l, m :: l in a && m in b ==> l.id != m.id
    ensures EdgesDiffer(a + b)
  {
    var c := a + b;
    forall i, j | 0 <= i < j < |c| ensures c[i].id != c[j].id {
      if i < |a| <= j {
        assert a[i] in a && b[j - |a|] in b;
      }
    }
  }

  lemma OwnEdgesDiffer(x: Index, found: FileEntry -> Found, scanned: seq<Edge>, f: FileEntry)
    requires SymbolEdgesApart(x, found, scanned) && f in x.files
    ensures EdgesDiffer(found(f).edges)
  {
  }

  lemma TwoFilesTwoEdges(x: Index, found: FileEntry -> Found, scanned: seq<Edge>, f: FileEntry, g: FileEntry, l: Edge, m: Edge)
    requires SymbolEdgesApart(x, found, scanned) && f in x.files && g in x.files && f != g
    requires l in found(f).edges && m in found(g).edges
    ensures l.id != m.id
  {
  }

  lemma {:induction false} SymbolEdgesDiffer(x: Index, found: FileEntry -> Found, scanned: seq<Edge>, files: seq<FileEntry>)
    requires SymbolEdgesApart(x, found, scanned) && Within(x, files) && ListedOnce(files)
    ensures EdgesDiffer(SymbolEdges(found, files))
  {
    if files != [] {
      var n := |files| - 1;
      var before, f := files[..n], files[n];
      SymbolEdgesDiffer(x, found, scanned, before);
      FoundMembers(found, before);
      OthersBefore(files, n);
      OwnEdgesDiffer(x, found, scanned, f);
      hide EdgesDiffer, SymbolEdgesApart, ListedOnce;
      forall l, m | l in SymbolEdges(found, before) && m in found(f).edges ensures l.id != m.id {
        var g :| g in before && l in found(g).edges;
        TwoFilesTwoEdges(x, found, scanned, g, f, l, m);
      }
      EdgesDifferTogether(SymbolEdges(found, before), found(f).edges);
    }
  }

  /** The whole's edges have distinct ids, so replacing the edge table with them succeeds. */
  lemma WholeEdgesInsertable(x: Index, found: FileEntry -> Found, whole: Part, scanned: seq<Edge>)
    requires Known(x) && AllIdsDistinct(x) && EdgeIdsDistinct(x) && ListedOnce(x.files)
    requires IsWhole(x, found, whole, scanned) && SymbolEdgesApart(x, found, scanned)
    ensures Insertable(whole.edges, EdgeKey)
  {
    hide Known, AllIdsDistinct, EdgeIdsDistinct, WholeEdges, Insertable, IdsOf;
    WholeIsInsertable(x, scanned);
    InsertableIff(scanned, EdgeKey);
    SymbolEdgesDiffer(x, found, scanned, x.files);
    FoundMembers(found, x.files);
    hide SymbolEdges;
    EdgesDifferTogether(scanned, SymbolEdges(found, x.files));
    InsertableIff(whole.edges, EdgeKey);
  }

  lemma WholeIdsAre(x: Index, found: FileEntry -> Found, whole: Part, scanned: seq<Edge>, id: Id)
    requires IsWhole(x, found, whole, scanned)
    ensures id in Stores.Keys(whole.entities, EntityKey) <==> WholeId(x, found, id)
  {
    var all := [x.universe, x.galaxy] + Rows(x, x.files) + SymbolsOf(found, x.files);
    KeysMembers(whole.entities, id);
    IdsMembers(whole.entities, id);
    IdsMembers(all, id);
    hide Stores.Keys, IdsOf, Rows, SymbolsOf, WholeEdges;
  }

  lemma WholeEdgesAre(x: Index, found: FileEntry -> Found, whole: Part, scanned: seq<Edge>, imports: seq<Edge>, l: Edge)
    requires IsWhole(x, found, whole, scanned) && ImportList(x, imports)
    ensures l in whole.edges <==> l == RootEdge(x) || EdgeIn(x, found, x.files, l) || l in imports
  {
    var n := 1 + |Rows(x, x.files)|;
    assert scanned == scanned[..n] + scanned[n..];
    hide Rows, RowEdges, SymbolEdges, IsImport, RootEdge;
    assert l in imports <==> l in scanned[n..];
  }

  /** The writes of the layered scan, over whatever the store held: afterwards it holds the ids that
      one replacement with the whole snapshot would, and the very edges, unless a stale row outside
      the snapshot already bears its id. */
  lemma LayeredStoreIsReplaced(
    x: Index, found: FileEntry -> Found, keys: seq<string>, parts: seq<Part>, patched: seq<seq<Entity>>, rolled: seq<Entity>,
    imports: seq<Edge>, whole: Part, scanned: seq<Edge>, before: Tables)
    requires Known(x) && AllIdsDistinct(x) && FoundFits(x, found) && AreParts(x, found, keys, parts)
    requires forall f :: f in x.files ==> GroupKeys(f.path).key in keys
    requires (forall b :: b in patched ==> Rewrites(x, found, b)) && Rewrites(x, found, rolled)
    requires ImportList(x, imports) && IsWhole(x, found, whole, scanned)
    ensures var after := AfterLayered(x, parts, patched, rolled, imports, before);
            var replaced := Replaced(whole.entities, whole.edges, x.snapshot);
            && (after.entities.Keys == replaced.entities.Keys <==> NoStale(before.entities, Stores.Keys(whole.entities, EntityKey), x.snapshot))
            && (Insertable(whole.edges, EdgeKey) ==>
                  (after.edges == replaced.edges <==> NoStale(before.edges, Stores.Keys(whole.edges, EdgeKey), x.snapshot)))
    ensures EdgeIdsDistinct(x) && ListedOnce(x.files) && SymbolEdgesApart(x, found, scanned) ==> Insertable(whole.edges, EdgeKey)
  {
    hide Known, AllIdsDistinct, FoundFits, AreParts, GroupKeys, IsWhole, ImportList, Insertable, Upserted, Kept, Stores.Keys, Rewrites,
      Filled, RowsOfParts, LinksOfParts, EdgeIdsDistinct, ListedOnce, SymbolEdgesApart;
    if EdgeIdsDistinct(x) && ListedOnce(x.files) && SymbolEdgesApart(x, found, scanned) {
      WholeEdgesInsertable(x, found, whole, scanned);
    }
    var rows := RowsOfParts(x, parts) + Flat(patched) + rolled;
    var links := LinksOfParts(x, parts) + imports;
    WritesAreWhole(x, found, keys, parts, patched, rolled, imports, whole, scanned);
    ExactIffNoStaleStamp(before.entities, rows, EntityKey, x.snapshot);
    UpsertedKeys(map[], whole.entities, EntityKey, x.snapshot);
    SameKeys(links, whole.edges, EdgeKey);
    ExactIffNoStaleStamp(before.edges, links, EdgeKey, x.snapshot);
    UpsertedKeys(map[], whole.edges, EdgeKey, x.snapshot);
    if Insertable(whole.edges, EdgeKey) && NoStale(before.edges, Stores.Keys(whole.edges, EdgeKey), x.snapshot) {
      InsertableAgrees(whole.edges);
      FillingIsReplacing(before.edges, links, whole.edges, EdgeKey, x.snapshot);
    }
  }

  /** No row outside `ids` already bears the snapshot id. */
  ghost predicate NoStale<T>(table: map<Id, Row<T>>, ids: set<Id>, snapshot: string) {
    forall k :: k in table && table[k].snapshot == snapshot ==> k in ids
  }

  function AfterLayered(x: Index, parts: seq<Part>, patched: seq<seq<Entity>>, rolled: seq<Entity>, imports: seq<Edge>,
                        before: Tables): Tables
  {
    Tables(Kept(Upserted(before.entities, RowsOfParts(x, parts) + Flat(patched) + rolled, EntityKey, x.snapshot), x.snapshot),
           Kept(Upserted(before.edges, LinksOfParts(x, parts) + imports, EdgeKey, x.snapshot), x.snapshot),
           Some(x.snapshot), Some(x.universe.id))
  }

  lemma InsertableAgrees(edges: seq<Edge>)
    requires Insertable(edges, EdgeKey)
    ensures Agreeing(edges, EdgeKey)
  {
    InsertableIff(edges, EdgeKey);
    hide Insertable;
  }

  lemma WritesAreWhole(
    x: Index, found: FileEntry -> Found, keys: seq<string>, parts: seq<Part>, patched: seq<seq<Entity>>, rolled: seq<Entity>,
    imports: seq<Edge>, whole: Part, scanned: seq<Edge>)
    requires Known(x) && AllIdsDistinct(x) && FoundFits(x, found) && AreParts(x, found, keys, parts)
    requires forall f :: f in x.files ==> GroupKeys(f.path).key in keys
    requires (forall b :: b in patched ==> Rewrites(x, found, b)) && Rewrites(x, found, rolled)
    requires ImportList(x, imports) && IsWhole(x, found, whole, scanned)
    ensures Stores.Keys(RowsOfParts(x, parts) + Flat(patched) + rolled, EntityKey) == Stores.Keys(whole.entities, EntityKey)
    ensures SameRows(LinksOfParts(x, parts) + imports, whole.edges)
  {
    hide Known, AllIdsDistinct, FoundFits, AreParts, GroupKeys, IsWhole, ImportList, Stores.Keys, IdIn, EdgeIn, RowsOfParts, LinksOfParts,
      FilesOf, RootEdge, Flat;
    PartsFill(x, found, keys, parts);
    PartsAddUp(x, found, keys);
    FlatRewrites(x, found, patched);
    KeysJoin(RowsOfParts(x, parts), Flat(patched));
    KeysJoin(RowsOfParts(x, parts) + Flat(patched), rolled);
    forall id
      ensures id in Stores.Keys(RowsOfParts(x, parts) + Flat(patched) + rolled, EntityKey) <==> id in Stores.Keys(whole.entities, EntityKey)
    {
      WholeIdsAre(x, found, whole, scanned, id);
      KeysMembers(Flat(patched), id);
      KeysMembers(rolled, id);
    }
    forall l ensures l in LinksOfParts(x, parts) + imports <==> l in whole.edges {
      WholeEdgesAre(x, found, whole, scanned, imports, l);
    }
  }

  lemma PartsStep(x: Index, parts: seq<Part>, i: nat)
    requires i < |parts|
    ensures RowsOfParts(x, parts[..i + 1]) == RowsOfParts(x, parts[..i]) + WithoutRoots(x, parts[i].entities)
    ensures LinksOfParts(x, parts[..i + 1]) == LinksOfParts(x, parts[..i]) + NotFromUniverse(x, parts[i].edges)
  {
    assert parts[..i + 1][..i] == parts[..i];
  }

  lemma FlatStep(batches: seq<seq<Entity>>, i: nat)
    requires i < |batches|
    ensures Flat(batches[..i + 1]) == Flat(batches[..i]) + batches[i]
  {
    assert batches[..i + 1][..i] == batches[..i];
  }

  /** The store writes of `scan_layered`, in their order: the roots, every directory, the patched
      directories, the import edges, the rolled-up folders, and the sweep. */
  method WriteLayered(store: Repository, x: Index, parts: seq<Part>, patched: seq<seq<Entity>>, rolled: seq<Entity>)
    returns (imports: seq<Edge>)
    requires EdgeIdsDistinct(x)
    modifies store
    ensures ImportList(x, imports)
    ensures store.View() == AfterLayered(x, parts, patched, rolled, imports, old(store.View()))
  {
    hide EdgeIdsDistinct, ImportList, Upserted, Kept, WithoutRoots, NotFromUniverse, RowsOfParts, LinksOfParts, Flat, RootEdge;
    ghost var entities, edges := store.entities, store.edges;
    store.UpsertSubtree([x.universe, x.galaxy], [RootEdge(x)], x.snapshot);
    FirstWrites(x);
    for i := 0 to |parts|
      invariant store.entities == Upserted(entities, RowsOfParts(x, parts[..i]), EntityKey, x.snapshot)
      invariant store.edges == Upserted(edges, LinksOfParts(x, parts[..i]), EdgeKey, x.snapshot)
    {
      PartsStep(x, parts, i);
      UpsertedTogether(entities, RowsOfParts(x, parts[..i]), WithoutRoots(x, parts[i].entities), EntityKey, x.snapshot);
      UpsertedTogether(edges, LinksOfParts(x, parts[..i]), NotFromUniverse(x, parts[i].edges), EdgeKey, x.snapshot);
      store.UpsertSubtree(WithoutRoots(x, parts[i].entities), NotFromUniverse(x, parts[i].edges), x.snapshot);
    }
    assert parts[..|parts|] == parts;
    ghost var rows, links := RowsOfParts(x, parts), LinksOfParts(x, parts);
    assert rows + Flat(patched[..0]) == rows by { NothingFlat(patched); }
    for i := 0 to |patched|
      invariant store.entities == Upserted(entities, rows + Flat(patched[..i]), EntityKey, x.snapshot)
      invariant store.edges == Upserted(edges, links, EdgeKey, x.snapshot)
    {
      FlatStep(patched, i);
      UpsertedTogether(entities, rows + Flat(patched[..i]), patched[i], EntityKey, x.snapshot);
      assert rows + Flat(patched[..i]) + patched[i] == rows + Flat(patched[..i + 1]);
      NoEdges(store.edges, x.snapshot);
      store.UpsertSubtree(patched[i], [], x.snapshot);
    }
    assert patched[..|patched|] == patched;
    imports := ScanImports(x);
    NoRows(store.entities, x.snapshot);
    UpsertedTogether(edges, links, imports, EdgeKey, x.snapshot);
    store.UpsertSubtree([], imports, x.snapshot);
    NoEdges(store.edges, x.snapshot);
    UpsertedTogether(entities, rows + Flat(patched), rolled, EntityKey, x.snapshot);
    store.UpsertSubtree(rolled, [], x.snapshot);
    store.FinalizeSnapshot(x.snapshot, x.universe.id);
  }

  lemma FirstWrites(x: Index)
    ensures RowsOfParts(x, []) == [x.universe, x.galaxy] && LinksOfParts(x, []) == [RootEdge(x)]
  {
  }

  lemma NothingFlat(batches: seq<seq<Entity>>)
    ensures Flat(batches[..0]) == []
  {
  }

  lemma NoEdges(table: map<Id, Row<Edge>>, snapshot: string)
    ensures Upserted(table, [], EdgeKey, snapshot) == table
  {
  }

  lemma NoRows(table: map<Id, Row<Entity>>, snapshot: string)
    ensures Upserted(table, [], EntityKey, snapshot) == table
  {
  }

  /** With bare rows and no later version, the entity table too is the replaced one, row for row. */
  lemma BareRowsAreReplaced(x: Index, table: map<Id, Row<Entity>>, written: seq<Entity>, whole: seq<Entity>)
    requires Known(x) && AllIdsDistinct(x)
    requires forall e :: e in whole <==> IsRow(x, e)
    requires forall e :: e in written <==> IsRow(x, e)
    requires NoStale(table, Stores.Keys(whole, EntityKey), x.snapshot)
    ensures Kept(Upserted(table, written, EntityKey, x.snapshot), x.snapshot) == Upserted(map[], whole, EntityKey, x.snapshot)
  {
    hide IsRow, Known, AllIdsDistinct, Stores.Keys, Kept, Upserted;
    forall a, b | a in whole && b in whole && EntityKey(a) == EntityKey(b) ensures a == b {
      RowsOfOneId(x, a, b);
    }
    FillingIsReplacing(table, written, whole, EntityKey, x.snapshot);
  }
}
