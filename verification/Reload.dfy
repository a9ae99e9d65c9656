/** Re-evaluating a directory the stitch touched: its rows, read back from the store and patched,
    stand under the roots, its System and its Planet as exactly the whole's subtree. */
module Reloads {
  import opened Atlas
  import opened Hierarchy
  import opened Evaluator
  import opened RollUp
  import opened Isolation
  import opened LayeredGreen
  import opened LayeredRollUp
  import opened LayeredScans
  import ScanIndex
  import Slices
  import SliceStores
  import Stitch
  import Stores
  import Sorting
  import Subtrees

  function Unlit(e: Entity): Entity {
    e.(green := None)
  }

  type Table = map<Id, Stores.Row<Entity>>

  /** The snapshot's stamped rows are the scan's, whatever their Green: nothing more, nothing less. */
  ghost predicate StoredScan(table: Table, x: ScanIndex.Index, found: Finds, locals: Plugs) {
    && (forall id :: id in table ==> table[id].value.id == id)
    && (forall id :: Subtrees.Stamped(table, id, x.snapshot) ==> Unlit(table[id].value) in SnapshotOf(x, found, locals, x.files))
    && (forall e :: e in SnapshotOf(x, found, locals, x.files) ==> Subtrees.Stamped(table, e.id, x.snapshot))
  }

  function Patch(e: Entity, fixes: map<Id, Resolution>): Entity {
    e.(sockets := Stitch.PatchAll(e.sockets, fixes))
  }

  function Patched(rows: seq<Entity>, fixes: map<Id, Resolution>): (r: seq<Entity>)
    ensures |r| == |rows| && forall i :: 0 <= i < |rows| ==> r[i] == Patch(rows[i], fixes)
  {
    seq(|rows|, i requires 0 <= i < |rows| => Patch(rows[i], fixes))
  }

  /** Patching turns what the directory resolved by itself into what all directories resolve. */
  ghost predicate PatchFits(files: Files, found: Finds, locals: Plugs, plugs: Plugs, fixes: map<Id, Resolution>) {
    forall f :: f in files ==>
      Stitch.PatchAll(locals(f.id), fixes) == plugs(f.id)
      && forall s :: s in found(f).symbols ==> Stitch.PatchAll(s.sockets, fixes) == s.sockets
  }

  /** Symbols as they are stored, before their Green. */
  ghost predicate SymbolsUnlit(x: ScanIndex.Index, found: Finds) {
    forall f, s :: f in x.files && s in found(f).symbols ==> s.green == None
  }

  ghost function Tops(x: ScanIndex.Index, h: ScanIndex.FileEntry): seq<Entity> {
    [x.universe, x.galaxy, Slices.SystemRow(x, h), Slices.PlanetRow(x, h)]
  }

  // ---- What was stored ----

  /** A stored row, told by its parent. */
  lemma StoredUnderPlanet(table: Table, x: ScanIndex.Index, found: Finds, locals: Plugs, h: ScanIndex.FileEntry, id: Id)
    returns (f: ScanIndex.FileEntry)
    requires Scannable(x, found) && StoredScan(table, x, found, locals) && h in x.files
    requires Subtrees.Stamped(table, id, x.snapshot) && table[id].value.parent == Some(Slices.PlanetId(x, h))
    ensures f in x.files && Slices.PlanetId(x, f) == Slices.PlanetId(x, h) && f.id == id
    ensures Unlit(table[id].value) == FileRow(x, locals, f)
  {
    hide Slices.Known, Slices.AllIdsDistinct, SymbolsFit, Slices.ListedOnce, SnapshotOf, Slices.SystemRow, Slices.PlanetRow,
      Slices.MoonRow, Slices.PlanetId;
    var e := Unlit(table[id].value);
    SnapshotMembers(x, found, locals, x.files, e);
    RowsHang(x, h);
    PlanetsApart(x, found, h, h);
    f :| f in x.files && OfFile(x, found, locals, f, e);
    RowsHang(x, f);
    PlanetsApart(x, found, f, h);
    PlanetIsRow(x, h);
    FileIsRow(x, f);
    if e in found(f).symbols {
      SymbolFits(x, found, f, e);
    }
    SystemIsNoPlanet(x, found, f, h);
  }

  lemma SystemIsNoPlanet(x: ScanIndex.Index, found: Finds, f: ScanIndex.FileEntry, h: ScanIndex.FileEntry)
    requires Scannable(x, found) && f in x.files && h in x.files
    ensures Slices.SystemRow(x, f).id != Slices.PlanetId(x, h)
  {
    PlanetsApart(x, found, f, h);
  }

  lemma StoredUnderFile(table: Table, x: ScanIndex.Index, found: Finds, locals: Plugs, g: ScanIndex.FileEntry, id: Id)
    requires Scannable(x, found) && StoredScan(table, x, found, locals) && g in x.files
    requires Subtrees.Stamped(table, id, x.snapshot) && table[id].value.parent == Some(g.id)
    ensures Unlit(table[id].value) in found(g).symbols
  {
    hide Slices.Known, Slices.AllIdsDistinct, SymbolsFit, SnapshotOf, Slices.SystemRow, Slices.PlanetRow, Slices.MoonRow,
      Slices.IsRow;
    var e := Unlit(table[id].value);
    SnapshotMembers(x, found, locals, x.files, e);
    FileIsNoParent(x, found, locals, g, e);
    var f :| f in x.files && OfFile(x, found, locals, f, e);
    if e in found(f).symbols {
      SymbolFits(x, found, f, e);
      SameFile(x, f, g);
    }
  }

  lemma SameFile(x: ScanIndex.Index, f: ScanIndex.FileEntry, g: ScanIndex.FileEntry)
    requires Slices.ListedOnce(x.files) && f in x.files && g in x.files && f.id == g.id
    ensures f == g
  {
  }

  /** No row but a symbol hangs from a file. */
  lemma FileIsNoParent(x: ScanIndex.Index, found: Finds, locals: Plugs, g: ScanIndex.FileEntry, e: Entity)
    requires Scannable(x, found) && g in x.files && e.parent == Some(g.id)
    requires e == x.universe || e == x.galaxy || exists f :: f in x.files && OfFile(x, found, locals, f, e)
    ensures e != x.universe && e != x.galaxy && forall f :: f in x.files && OfFile(x, found, locals, f, e) ==> e in found(f).symbols
  {
    hide Slices.Known, Slices.AllIdsDistinct, SymbolsFit, Slices.ListedOnce, Slices.SystemRow, Slices.PlanetRow, Slices.MoonRow;
    GroupsAreNoFiles(x, found, g, g);
    forall f | f in x.files && OfFile(x, found, locals, f, e) ensures e in found(f).symbols {
      GroupsAreNoFiles(x, found, f, g);
      RowsHang(x, f);
    }
  }

  lemma GroupsAreNoFiles(x: ScanIndex.Index, found: Finds, f: ScanIndex.FileEntry, g: ScanIndex.FileEntry)
    requires Scannable(x, found) && f in x.files && g in x.files
    ensures g.id !in {x.universe.id, x.galaxy.id, Slices.SystemRow(x, f).id, Slices.PlanetRow(x, f).id}
  {
    hide Slices.Known, Slices.AllIdsDistinct, SymbolsFit, RootsBuilt, Slices.ListedOnce;
    Slices.RowsApart(x, g, f);
    Slices.RootsApart(x, g);
    hide Slices.GroupKeys;
  }

  // ---- Each row once ----

  lemma {:induction false} SymbolsOnce(batches: seq<seq<Id>>, table: Table, snapshot: string, files: seq<Id>)
    requires Subtrees.Batched(batches, table, snapshot, files, Subtrees.HasParent) && NoDuplicates(files)
    ensures NoDuplicates(Subtrees.Flat(batches))
  {
    hide Sorting.Sorted;
    if batches != [] {
      var n := |files| - 1;
      SymbolsOnce(batches[..n], table, snapshot, files[..n]);
      Subtrees.FlatMembers(batches[..n], table, snapshot, files[..n], Subtrees.HasParent);
      Subtrees.Apart(Subtrees.Flat(batches[..n]), batches[n]);
    }
  }

  lemma LoadedOnce(table: Table, planet: Id, snapshot: string, files: seq<Id>, loaded: seq<Id>)
    requires Subtrees.IsLoaded(table, planet, snapshot, files, loaded) && planet !in files
    ensures NoDuplicates(loaded)
  {
    hide Sorting.Sorted;
    var symbols :| Subtrees.Batched(symbols, table, snapshot, files, Subtrees.HasParent) && loaded == files + Subtrees.Flat(symbols);
    SymbolsOnce(symbols, table, snapshot, files);
    Subtrees.FlatMembers(symbols, table, snapshot, files, Subtrees.HasParent);
    Subtrees.Apart(files, Subtrees.Flat(symbols));
  }

  // ---- The rows of a reload ----

  /** What the reload of Planet `h` assumes and yields. */
  ghost predicate Reloaded(table: Table, x: ScanIndex.Index, found: Finds, locals: Plugs, plugs: Plugs, fixes: map<Id, Resolution>,
                           h: ScanIndex.FileEntry, slice: Files, files: seq<Id>, loaded: seq<Id>)
  {
    && StoredScan(table, x, found, locals) && SymbolsUnlit(x, found)
    && h in slice && (forall f :: f in slice <==> f in x.files && Slices.PlanetId(x, f) == Slices.PlanetId(x, h))
    && PatchFits(slice, found, locals, plugs, fixes)
    && Subtrees.IsLoaded(table, Slices.PlanetId(x, h), x.snapshot, files, loaded)
  }

  lemma LoadedFile(table: Table, x: ScanIndex.Index, found: Finds, locals: Plugs, plugs: Plugs, fixes: map<Id, Resolution>,
                   h: ScanIndex.FileEntry, slice: Files, files: seq<Id>, loaded: seq<Id>, id: Id) returns (f: ScanIndex.FileEntry)
    requires Scannable(x, found) && Reloaded(table, x, found, locals, plugs, fixes, h, slice, files, loaded) && id in files
    ensures f in slice && f.id == id && id in table && Unlit(Patch(table[id].value, fixes)) == FileRow(x, plugs, f)
  {
    hide Scannable, StoredScan, Subtrees.IsLoaded, Slices.MoonRow, Slices.PlanetId;
    Subtrees.FilesHang(table, Slices.PlanetId(x, h), x.snapshot, files, loaded);
    f := StoredUnderPlanet(table, x, found, locals, h, id);
  }

  lemma LoadedSymbol(table: Table, x: ScanIndex.Index, found: Finds, locals: Plugs, plugs: Plugs, fixes: map<Id, Resolution>,
                     h: ScanIndex.FileEntry, slice: Files, files: seq<Id>, loaded: seq<Id>, id: Id) returns (f: ScanIndex.FileEntry)
    requires Scannable(x, found) && Reloaded(table, x, found, locals, plugs, fixes, h, slice, files, loaded)
    requires Subtrees.IsSymbol(table, x.snapshot, files, id)
    ensures f in slice && id in table && Unlit(Patch(table[id].value, fixes)) in found(f).symbols
  {
    hide Scannable, StoredScan, Subtrees.IsLoaded, Slices.PlanetId, Slices.MoonRow;
    var g :| g in files && table[id].value.parent == Some(g);
    f := LoadedFile(table, x, found, locals, plugs, fixes, h, slice, files, loaded, g);
    StoredUnderFile(table, x, found, locals, f, id);
    var e := Unlit(table[id].value);
    assert Stitch.PatchAll(e.sockets, fixes) == e.sockets;
    assert Unlit(Patch(table[id].value, fixes)) == e;
  }

  lemma StoredIs(table: Table, x: ScanIndex.Index, found: Finds, locals: Plugs, e: Entity)
    requires Scannable(x, found) && StoredScan(table, x, found, locals) && e in SnapshotOf(x, found, locals, x.files)
    ensures Subtrees.Stamped(table, e.id, x.snapshot) && Unlit(table[e.id].value) == e
  {
    hide Slices.Known, Slices.AllIdsDistinct, SymbolsFit, RootsBuilt, SnapshotOf, Slices.ListedOnce;
    var all := SnapshotOf(x, found, locals, x.files);
    SnapshotLayout(x, found, locals, x.files);
    LayoutIsDistinct(x, found, locals, x.files, all);
    var v := Unlit(table[e.id].value);
    assert v in all && v.id == e.id;
    OneOfEachId(all, v, e);
  }

  lemma OneOfEachId(all: seq<Entity>, a: Entity, b: Entity)
    requires DistinctIds(all) && a in all && b in all && a.id == b.id
    ensures a == b
  {
    var i :| 0 <= i < |all| && all[i] == a;
    var j :| 0 <= j < |all| && all[j] == b;
  }

  lemma FileIsLoaded(table: Table, x: ScanIndex.Index, found: Finds, locals: Plugs, plugs: Plugs, fixes: map<Id, Resolution>,
                     h: ScanIndex.FileEntry, slice: Files, files: seq<Id>, loaded: seq<Id>, f: ScanIndex.FileEntry)
    requires Scannable(x, found) && Reloaded(table, x, found, locals, plugs, fixes, h, slice, files, loaded) && f in slice
    ensures f.id in files && f.id in table && Unlit(Patch(table[f.id].value, fixes)) == FileRow(x, plugs, f)
  {
    hide Slices.Known, Slices.AllIdsDistinct, SymbolsFit, RootsBuilt, Slices.ListedOnce, StoredScan, Subtrees.IsLoaded, SnapshotOf,
      Slices.PlanetId;
    Subtrees.FilesHang(table, Slices.PlanetId(x, h), x.snapshot, files, loaded);
    FileInSnapshot(x, found, locals, f);
    StoredIs(table, x, found, locals, FileRow(x, locals, f));
  }

  lemma FileInSnapshot(x: ScanIndex.Index, found: Finds, locals: Plugs, f: ScanIndex.FileEntry)
    requires Slices.Known(x) && f in x.files
    ensures FileRow(x, locals, f) in SnapshotOf(x, found, locals, x.files)
    ensures FileRow(x, locals, f).id == f.id && FileRow(x, locals, f).parent == Some(Slices.PlanetId(x, f))
    ensures forall s :: s in found(f).symbols ==> s in SnapshotOf(x, found, locals, x.files)
  {
    hide Slices.Known, SnapshotOf, Slices.PlanetId;
    assert OfFile(x, found, locals, f, FileRow(x, locals, f));
    SnapshotMembers(x, found, locals, x.files, FileRow(x, locals, f));
    forall s | s in found(f).symbols ensures s in SnapshotOf(x, found, locals, x.files) {
      assert OfFile(x, found, locals, f, s);
      SnapshotMembers(x, found, locals, x.files, s);
    }
  }

  lemma SymbolIsLoaded(table: Table, x: ScanIndex.Index, found: Finds, locals: Plugs, plugs: Plugs, fixes: map<Id, Resolution>,
                       h: ScanIndex.FileEntry, slice: Files, files: seq<Id>, loaded: seq<Id>, f: ScanIndex.FileEntry, s: Entity)
    requires Scannable(x, found) && Reloaded(table, x, found, locals, plugs, fixes, h, slice, files, loaded)
    requires f in slice && s in found(f).symbols
    ensures s.id in loaded && s.id in table && Unlit(Patch(table[s.id].value, fixes)) == s
  {
    FileIsLoaded(table, x, found, locals, plugs, fixes, h, slice, files, loaded, f);
    Subtrees.LoadedMembers(table, Slices.PlanetId(x, h), x.snapshot, files, loaded);
    hide Slices.Known, Slices.AllIdsDistinct, SymbolsFit, RootsBuilt, Slices.ListedOnce, StoredScan, Subtrees.IsLoaded, SnapshotOf,
      Slices.PlanetId, FileRow;
    FileInSnapshot(x, found, locals, f);
    StoredIs(table, x, found, locals, s);
    SymbolFits(x, found, f, s);
    assert table[s.id].value.parent == Some(f.id);
    assert Subtrees.IsSymbol(table, x.snapshot, files, s.id);
  }

  /** The loaded rows, patched and without their Green. */
  ghost function Rebuilt(table: Table, loaded: seq<Id>, fixes: map<Id, Resolution>): (r: seq<Entity>)
    requires forall id :: id in loaded ==> id in table
    ensures |r| == |loaded| && forall i :: 0 <= i < |r| ==> r[i] == Unlit(Patch(table[loaded[i]].value, fixes))
  {
    seq(|loaded|, i requires 0 <= i < |loaded| => Unlit(Patch(table[loaded[i]].value, fixes)))
  }

  lemma AllStored(table: Table, planet: Id, snapshot: string, files: seq<Id>, loaded: seq<Id>)
    requires Subtrees.IsLoaded(table, planet, snapshot, files, loaded)
    ensures forall id :: id in loaded ==> id in table
  {
    Subtrees.LoadedMembers(table, planet, snapshot, files, loaded);
    Subtrees.FilesHang(table, planet, snapshot, files, loaded);
    hide Subtrees.IsLoaded;
  }

  lemma RebuiltHas(table: Table, loaded: seq<Id>, fixes: map<Id, Resolution>, e: Entity)
    requires forall id :: id in loaded ==> id in table
    ensures e in Rebuilt(table, loaded, fixes) <==> exists id :: id in loaded && Unlit(Patch(table[id].value, fixes)) == e
  {
    hide Unlit, Patch;
    if id :| id in loaded && Unlit(Patch(table[id].value, fixes)) == e {
      var i :| 0 <= i < |loaded| && loaded[i] == id;
      assert Rebuilt(table, loaded, fixes)[i] == e;
    }
    if e in Rebuilt(table, loaded, fixes) {
      var i :| 0 <= i < |loaded| && Rebuilt(table, loaded, fixes)[i] == e;
      assert loaded[i] in loaded;
    }
  }

  lemma RebuiltIsOfSlice(table: Table, x: ScanIndex.Index, found: Finds, locals: Plugs, plugs: Plugs, fixes: map<Id, Resolution>,
                         h: ScanIndex.FileEntry, slice: Files, files: seq<Id>, loaded: seq<Id>, id: Id)
    requires Scannable(x, found) && Reloaded(table, x, found, locals, plugs, fixes, h, slice, files, loaded)
    requires id in loaded && id in table
    ensures var e := Unlit(Patch(table[id].value, fixes));
            exists f :: f in slice && (e == FileRow(x, plugs, f) || e in found(f).symbols)
  {
    Subtrees.LoadedMembers(table, Slices.PlanetId(x, h), x.snapshot, files, loaded);
    hide Scannable, Reloaded, FileRow, Unlit, Patch, Slices.PlanetId, Subtrees.IsSymbol;
    if id in files {
      var f := LoadedFile(table, x, found, locals, plugs, fixes, h, slice, files, loaded, id);
    } else {
      var f := LoadedSymbol(table, x, found, locals, plugs, fixes, h, slice, files, loaded, id);
    }
  }

  /** They are the rows and symbols of the Planet's files. */
  lemma RebuiltMembers(table: Table, x: ScanIndex.Index, found: Finds, locals: Plugs, plugs: Plugs, fixes: map<Id, Resolution>,
                       h: ScanIndex.FileEntry, slice: Files, files: seq<Id>, loaded: seq<Id>, e: Entity)
    requires Scannable(x, found) && Reloaded(table, x, found, locals, plugs, fixes, h, slice, files, loaded)
    requires forall id :: id in loaded ==> id in table
    ensures e in Rebuilt(table, loaded, fixes) <==>
            exists f :: f in slice && (e == FileRow(x, plugs, f) || e in found(f).symbols)
  {
    hide Scannable, Reloaded, FileRow, Unlit, Patch, Rebuilt;
    RebuiltHas(table, loaded, fixes, e);
    if id :| id in loaded && Unlit(Patch(table[id].value, fixes)) == e {
      RebuiltIsOfSlice(table, x, found, locals, plugs, fixes, h, slice, files, loaded, id);
    }
    if f :| f in slice && (e == FileRow(x, plugs, f) || e in found(f).symbols) {
      if e in found(f).symbols {
        SymbolIsLoaded(table, x, found, locals, plugs, fixes, h, slice, files, loaded, f, e);
      } else {
        FileIsLoaded(table, x, found, locals, plugs, fixes, h, slice, files, loaded, f);
        FilesAreLoaded(table, x, found, locals, plugs, fixes, h, slice, files, loaded);
      }
    }
  }

  lemma FilesAreLoaded(table: Table, x: ScanIndex.Index, found: Finds, locals: Plugs, plugs: Plugs, fixes: map<Id, Resolution>,
                       h: ScanIndex.FileEntry, slice: Files, files: seq<Id>, loaded: seq<Id>)
    requires Reloaded(table, x, found, locals, plugs, fixes, h, slice, files, loaded)
    ensures forall id :: id in files ==> id in loaded
  {
    hide Slices.PlanetId;
    Subtrees.LoadedMembers(table, Slices.PlanetId(x, h), x.snapshot, files, loaded);
  }

  // ---- The rebuilt directory ----

  lemma TopsAre(x: ScanIndex.Index, found: Finds, h: ScanIndex.FileEntry)
    requires Scannable(x, found) && h in x.files
    ensures DistinctIds(Tops(x, h))
    ensures forall a, b :: a in Tops(x, h) && b in Tops(x, h) ==> !NestedIn(a, b)
  {
    hide Slices.Known, Slices.AllIdsDistinct, SymbolsFit, Slices.ListedOnce;
    Slices.RootsApart(x, h);
    Slices.RowsApart(x, h, h);
    Slices.RootsDiffer(x);
    RowsHang(x, h);
    hide Slices.GroupKeys, Slices.SystemRow, Slices.PlanetRow;
  }

  lemma RebuiltIsDistinct(table: Table, x: ScanIndex.Index, found: Finds, locals: Plugs, plugs: Plugs, fixes: map<Id, Resolution>,
                          h: ScanIndex.FileEntry, slice: Files, files: seq<Id>, loaded: seq<Id>)
    requires Scannable(x, found) && Reloaded(table, x, found, locals, plugs, fixes, h, slice, files, loaded)
    requires forall id :: id in loaded ==> id in table
    ensures DistinctIds(Rebuilt(table, loaded, fixes))
  {
    hide Scannable, Subtrees.IsLoaded, Slices.PlanetId;
    PlanetIsNotLoaded(table, x, found, locals, plugs, fixes, h, slice, files, loaded);
    LoadedOnce(table, Slices.PlanetId(x, h), x.snapshot, files, loaded);
    var rows := Rebuilt(table, loaded, fixes);
    forall i, j | 0 <= i < j < |rows| ensures rows[i].id != rows[j].id {
      assert loaded[i] in loaded && loaded[j] in loaded && loaded[i] != loaded[j];
      assert rows[i].id == loaded[i] && rows[j].id == loaded[j];
    }
  }

  lemma PlanetIsNotLoaded(table: Table, x: ScanIndex.Index, found: Finds, locals: Plugs, plugs: Plugs, fixes: map<Id, Resolution>,
                          h: ScanIndex.FileEntry, slice: Files, files: seq<Id>, loaded: seq<Id>)
    requires Scannable(x, found) && Reloaded(table, x, found, locals, plugs, fixes, h, slice, files, loaded)
    ensures Slices.PlanetId(x, h) !in files && Slices.PlanetId(x, h) !in loaded
  {
    Subtrees.LoadedMembers(table, Slices.PlanetId(x, h), x.snapshot, files, loaded);
    hide Scannable, Slices.PlanetId, Subtrees.IsSymbol, Subtrees.IsLoaded, StoredScan, FileRow;
    var planet := Slices.PlanetId(x, h);
    if planet in files {
      var f := LoadedFile(table, x, found, locals, plugs, fixes, h, slice, files, loaded, planet);
      PlanetsApart(x, found, f, h);
    } else if planet in loaded {
      var f := LoadedSymbol(table, x, found, locals, plugs, fixes, h, slice, files, loaded, planet);
      SymbolIsNoPlanet(x, found, f, h, Unlit(Patch(table[planet].value, fixes)));
      StoredUnderOwnId(table, x, found, locals, planet);
    }
  }

  lemma StoredUnderOwnId(table: Table, x: ScanIndex.Index, found: Finds, locals: Plugs, id: Id)
    requires StoredScan(table, x, found, locals) && id in table
    ensures table[id].value.id == id
  {
  }

  lemma SymbolIsNoPlanet(x: ScanIndex.Index, found: Finds, f: ScanIndex.FileEntry, h: ScanIndex.FileEntry, s: Entity)
    requires Scannable(x, found) && f in x.files && h in x.files && s in found(f).symbols
    ensures s.id != Slices.PlanetId(x, h)
  {
    hide Slices.Known, Slices.AllIdsDistinct, SymbolsFit, Slices.IsRow;
    SymbolFits(x, found, f, s);
    PlanetIsRow(x, h);
  }

  lemma TopsMembers(x: ScanIndex.Index, found: Finds, plugs: Plugs, h: ScanIndex.FileEntry, slice: Files, e: Entity)
    requires Scannable(x, found) && h in slice && h in x.files
    requires forall f :: f in slice <==> f in x.files && Slices.PlanetId(x, f) == Slices.PlanetId(x, h)
    ensures e in Tops(x, h) <==>
            e == x.universe || e == x.galaxy || exists f :: f in slice && (e == Slices.SystemRow(x, f) || e == Slices.PlanetRow(x, f))
  {
    hide Slices.Known, Slices.AllIdsDistinct, SymbolsFit, Slices.ListedOnce, Slices.SystemRow, Slices.PlanetRow, Slices.PlanetId,
      RootsBuilt;
    forall f | f in slice ensures Slices.SystemRow(x, f) == Slices.SystemRow(x, h) && Slices.PlanetRow(x, f) == Slices.PlanetRow(x, h) {
      SamePlanetSameGroups(x, found, f, h);
    }
    var tops := Tops(x, h);
    assert tops[0] == x.universe && tops[1] == x.galaxy;
    assert tops[2] == Slices.SystemRow(x, h) && tops[3] == Slices.PlanetRow(x, h);
  }

  lemma SamePlanetSameGroups(x: ScanIndex.Index, found: Finds, f: ScanIndex.FileEntry, h: ScanIndex.FileEntry)
    requires Scannable(x, found) && f in x.files && h in x.files && Slices.PlanetId(x, f) == Slices.PlanetId(x, h)
    ensures Slices.SystemRow(x, f) == Slices.SystemRow(x, h) && Slices.PlanetRow(x, f) == Slices.PlanetRow(x, h)
  {
    Slices.GroupsOf(x);
    Slices.GroupIdsNameGroups(x, f, h);
    Slices.SameNamesSameRows(x, f, h);
    hide Slices.GroupKeys, Slices.SystemRow, Slices.PlanetRow, Slices.Known, Slices.AllIdsDistinct;
  }

  lemma TopIsNotRebuilt(table: Table, x: ScanIndex.Index, found: Finds, locals: Plugs, plugs: Plugs, fixes: map<Id, Resolution>,
                        h: ScanIndex.FileEntry, slice: Files, files: seq<Id>, loaded: seq<Id>, d: Entity, e: Entity)
    requires Scannable(x, found) && Reloaded(table, x, found, locals, plugs, fixes, h, slice, files, loaded)
    requires forall id :: id in loaded ==> id in table
    requires d in Tops(x, h) && e in Rebuilt(table, loaded, fixes)
    ensures d.id != e.id
  {
    hide Scannable, Tops, Rebuilt, FileRow, Reloaded, Slices.Within;
    SliceIsWithin(table, x, found, locals, plugs, fixes, h, slice, files, loaded);
    RebuiltMembers(table, x, found, locals, plugs, fixes, h, slice, files, loaded, e);
    WithinFiles(x, slice);
    var f :| f in slice && (e == FileRow(x, plugs, f) || e in found(f).symbols);
    if e in found(f).symbols {
      TopIsNoSymbol(x, found, h, f, d, e);
    } else {
      TopIsNoFile(x, found, plugs, h, f, d);
    }
  }

  lemma WithinFiles(x: ScanIndex.Index, slice: Files)
    requires Slices.Within(x, slice)
    ensures forall f :: f in slice ==> f in x.files
  {
  }

  lemma TopIsNoFile(x: ScanIndex.Index, found: Finds, plugs: Plugs, h: ScanIndex.FileEntry, f: ScanIndex.FileEntry, d: Entity)
    requires Scannable(x, found) && h in x.files && f in x.files && d in Tops(x, h)
    ensures d.id != FileRow(x, plugs, f).id
  {
    GroupsAreNoFiles(x, found, h, f);
    FileIsRow(x, f);
    hide Scannable, Slices.SystemRow, Slices.PlanetRow, Slices.MoonRow;
  }

  lemma TopIsNoSymbol(x: ScanIndex.Index, found: Finds, h: ScanIndex.FileEntry, f: ScanIndex.FileEntry, d: Entity, s: Entity)
    requires Scannable(x, found) && h in x.files && f in x.files && d in Tops(x, h) && s in found(f).symbols
    ensures d.id != s.id
  {
    hide Slices.Known, Slices.AllIdsDistinct, SymbolsFit, Slices.ListedOnce, Tops, Slices.IsRow, RootsBuilt;
    SymbolFits(x, found, f, s);
    TopIsRow(x, h, d);
  }

  lemma TopIsRow(x: ScanIndex.Index, h: ScanIndex.FileEntry, d: Entity)
    requires h in x.files && d in Tops(x, h)
    ensures Slices.IsRow(x, d)
  {
    RowIsIts(x, x.files, h, Slices.SystemRow(x, h));
    RowIsIts(x, x.files, h, Slices.PlanetRow(x, h));
    hide Slices.SystemRow, Slices.PlanetRow, Slices.Contributes;
  }

  /** The rebuilt directory is laid out like the slice. */
  lemma RebuiltLayout(table: Table, x: ScanIndex.Index, found: Finds, locals: Plugs, plugs: Plugs, fixes: map<Id, Resolution>,
                      h: ScanIndex.FileEntry, slice: Files, files: seq<Id>, loaded: seq<Id>)
    requires Scannable(x, found) && Reloaded(table, x, found, locals, plugs, fixes, h, slice, files, loaded)
    requires forall id :: id in loaded ==> id in table
    ensures Layout(x, found, plugs, slice, Tops(x, h) + Rebuilt(table, loaded, fixes))
  {
    hide Scannable, Reloaded, Tops, Rebuilt, DistinctIds, OfFile, Slices.Within;
    SliceIsWithin(table, x, found, locals, plugs, fixes, h, slice, files, loaded);
    RebuiltIdsDiffer(table, x, found, locals, plugs, fixes, h, slice, files, loaded);
    forall e
      ensures e in Tops(x, h) + Rebuilt(table, loaded, fixes) <==>
              e == x.universe || e == x.galaxy || exists f :: f in slice && OfFile(x, found, plugs, f, e)
    {
      RebuiltMember(table, x, found, locals, plugs, fixes, h, slice, files, loaded, e);
    }
  }

  lemma SliceIsWithin(table: Table, x: ScanIndex.Index, found: Finds, locals: Plugs, plugs: Plugs, fixes: map<Id, Resolution>,
                      h: ScanIndex.FileEntry, slice: Files, files: seq<Id>, loaded: seq<Id>)
    requires Reloaded(table, x, found, locals, plugs, fixes, h, slice, files, loaded)
    ensures Slices.Within(x, slice) && h in x.files
  {
    hide StoredScan, PatchFits, SymbolsUnlit, Subtrees.IsLoaded, Slices.PlanetId;
  }

  lemma RebuiltMember(table: Table, x: ScanIndex.Index, found: Finds, locals: Plugs, plugs: Plugs, fixes: map<Id, Resolution>,
                      h: ScanIndex.FileEntry, slice: Files, files: seq<Id>, loaded: seq<Id>, e: Entity)
    requires Scannable(x, found) && Reloaded(table, x, found, locals, plugs, fixes, h, slice, files, loaded)
    requires forall id :: id in loaded ==> id in table
    ensures e in Tops(x, h) + Rebuilt(table, loaded, fixes) <==>
            e == x.universe || e == x.galaxy || exists f :: f in slice && OfFile(x, found, plugs, f, e)
  {
    hide Scannable, StoredScan, PatchFits, SymbolsUnlit, Subtrees.IsLoaded, Slices.PlanetId, Tops, Rebuilt, FileRow, Slices.SystemRow,
      Slices.PlanetRow;
    TopsMembers(x, found, plugs, h, slice, e);
    RebuiltMembers(table, x, found, locals, plugs, fixes, h, slice, files, loaded, e);
  }

  lemma RebuiltIdsDiffer(table: Table, x: ScanIndex.Index, found: Finds, locals: Plugs, plugs: Plugs, fixes: map<Id, Resolution>,
                         h: ScanIndex.FileEntry, slice: Files, files: seq<Id>, loaded: seq<Id>)
    requires Scannable(x, found) && Reloaded(table, x, found, locals, plugs, fixes, h, slice, files, loaded)
    requires forall id :: id in loaded ==> id in table
    ensures DistinctIds(Tops(x, h) + Rebuilt(table, loaded, fixes))
  {
    hide Scannable, Reloaded, Tops, Rebuilt, DistinctIds, Slices.Within;
    SliceIsWithin(table, x, found, locals, plugs, fixes, h, slice, files, loaded);
    TopsAre(x, found, h);
    RebuiltIsDistinct(table, x, found, locals, plugs, fixes, h, slice, files, loaded);
    forall d, e | d in Tops(x, h) && e in Rebuilt(table, loaded, fixes) ensures d.id != e.id {
      TopIsNotRebuilt(table, x, found, locals, plugs, fixes, h, slice, files, loaded, d, e);
    }
    DistinctTogether(Tops(x, h), Rebuilt(table, loaded, fixes));
  }

  // ---- Green does not matter ----

  /** The evaluated directory: tops and reloaded rows with whatever Green they carry. */
  ghost predicate AsRebuilt(all: seq<Entity>, unlit: seq<Entity>) {
    |all| == |unlit| && forall i :: 0 <= i < |all| ==> Unlit(all[i]) == unlit[i]
  }

  lemma SameRecordsUnlit(all: seq<Entity>, unlit: seq<Entity>, top: Id)
    requires AsRebuilt(all, unlit)
    ensures SameShape(all, unlit) && Records(all, top) == Records(unlit, top)
  {
    UnlitIsSame(all, unlit);
    ShapeKeepsIndex(all, unlit);
    hide IndexOf, Records, SameShape, AsRebuilt;
    forall id: Id ensures Under(IndexOf(all), id, top) <==> Under(IndexOf(unlit), id, top) {
      LinksKeepUnder(IndexOf(all), IndexOf(unlit), id, top);
    }
    hide Under, Unlit;
    RecordsWithin(all, unlit, top);
    RecordsWithin(unlit, all, top);
  }

  lemma UnlitIsSame(all: seq<Entity>, unlit: seq<Entity>)
    requires AsRebuilt(all, unlit)
    ensures SameShape(all, unlit)
    ensures forall i :: 0 <= i < |all| ==> Unlit(all[i]) == Unlit(unlit[i]) && all[i].id == unlit[i].id
    ensures |all| == |unlit|
  {
  }

  lemma RecordsWithin(a: seq<Entity>, b: seq<Entity>, top: Id)
    requires |a| == |b| && forall i :: 0 <= i < |a| ==> Unlit(a[i]) == Unlit(b[i]) && a[i].id == b[i].id
    requires forall id: Id :: Under(IndexOf(a), id, top) <==> Under(IndexOf(b), id, top)
    ensures Records(a, top) <= Records(b, top)
  {
    hide IndexOf, Under;
    forall r | r in Records(a, top) ensures r in Records(b, top) {
      var e :| e in a && Under(IndexOf(a), e.id, top) && r == e.(green := None);
      var i :| 0 <= i < |a| && a[i] == e;
      assert b[i] in b && Unlit(b[i]) == r;
    }
  }

  lemma LinksKeepUnder(m: Hierarchy.Index, k: Hierarchy.Index, id: Id, top: Id)
    requires SameLinks(m, k)
    ensures Under(m, id, top) <==> Under(k, id, top)
  {
    forall n: nat { LinksKeepClimb(m, k, id, n); }
  }

  lemma ShapeKeepsOrder(a: seq<Entity>, b: seq<Entity>)
    requires SameShape(a, b) && ParentFirst(b)
    ensures ParentFirst(a)
  {
    forall i, j | 0 <= i < |a| && 0 <= j < |a| && NestedIn(a[i], a[j]) ensures j < i {
      assert NestedIn(b[i], b[j]);
    }
  }

  /** Files come before their symbols again. */
  lemma RebuiltIsParentFirst(table: Table, x: ScanIndex.Index, found: Finds, locals: Plugs, plugs: Plugs, fixes: map<Id, Resolution>,
                             h: ScanIndex.FileEntry, slice: Files, files: seq<Id>, loaded: seq<Id>)
    requires Scannable(x, found) && Reloaded(table, x, found, locals, plugs, fixes, h, slice, files, loaded)
    requires forall id :: id in loaded ==> id in table
    ensures ParentFirst(Tops(x, h) + Rebuilt(table, loaded, fixes))
  {
    hide Scannable, Reloaded, Tops, Slices.PlanetId, ParentFirst, NestedIn, Subtrees.KeyedById, Rebuilt, Subtrees.IsLoaded, SameShape,
      StoredScan;
    SliceIsWithin(table, x, found, locals, plugs, fixes, h, slice, files, loaded);
    TopsAre(x, found, h);
    PlanetIsNotLoaded(table, x, found, locals, plugs, fixes, h, slice, files, loaded);
    IsReloaded(table, x, found, locals, plugs, fixes, h, slice, files, loaded);
    FilesAreLoaded(table, x, found, locals, plugs, fixes, h, slice, files, loaded);
    forall a, id | a in Tops(x, h) && id in loaded ensures a.parent != Some(id) {
      TopHangsFromTop(table, x, found, locals, plugs, fixes, h, slice, files, loaded, a, id);
    }
    forall a, f | a in Tops(x, h) && a.id == Slices.PlanetId(x, h) && f in files ensures a.scale != table[f].value.scale {
      PlanetIsCoarser(table, x, found, locals, plugs, fixes, h, slice, files, loaded, a, f);
    }
    KeyedStore(table, x, found, locals);
    Subtrees.ReloadedIsParentFirst(table, Slices.PlanetId(x, h), x.snapshot, files, loaded, Tops(x, h));
    RebuiltShape(table, loaded, fixes, Tops(x, h));
    ShapeKeepsOrder(Tops(x, h) + Rebuilt(table, loaded, fixes), Tops(x, h) + Subtrees.RowsAt(table, loaded));
  }

  lemma RebuiltShape(table: Table, loaded: seq<Id>, fixes: map<Id, Resolution>, tops: seq<Entity>)
    requires forall id :: id in loaded ==> id in table
    ensures SameShape(tops + Rebuilt(table, loaded, fixes), tops + Subtrees.RowsAt(table, loaded))
  {
  }

  lemma IsReloaded(table: Table, x: ScanIndex.Index, found: Finds, locals: Plugs, plugs: Plugs, fixes: map<Id, Resolution>,
                   h: ScanIndex.FileEntry, slice: Files, files: seq<Id>, loaded: seq<Id>)
    requires Reloaded(table, x, found, locals, plugs, fixes, h, slice, files, loaded)
    ensures Subtrees.IsLoaded(table, Slices.PlanetId(x, h), x.snapshot, files, loaded) && StoredScan(table, x, found, locals)
  {
    hide StoredScan, PatchFits, SymbolsUnlit, Subtrees.IsLoaded, Slices.PlanetId;
  }

  lemma KeyedStore(table: Table, x: ScanIndex.Index, found: Finds, locals: Plugs)
    requires StoredScan(table, x, found, locals)
    ensures Subtrees.KeyedById(table)
  {
  }

  lemma TopHangsFromTop(table: Table, x: ScanIndex.Index, found: Finds, locals: Plugs, plugs: Plugs, fixes: map<Id, Resolution>,
                        h: ScanIndex.FileEntry, slice: Files, files: seq<Id>, loaded: seq<Id>, a: Entity, id: Id)
    requires Scannable(x, found) && Reloaded(table, x, found, locals, plugs, fixes, h, slice, files, loaded)
    requires (forall i :: i in loaded ==> i in table) && a in Tops(x, h) && id in loaded
    ensures a.parent != Some(id)
  {
    var e := Unlit(Patch(table[id].value, fixes));
    StoredUnderOwnId(table, x, found, locals, id);
    RebuiltHas(table, loaded, fixes, e);
    hide Scannable, Reloaded, Tops, Rebuilt, Slices.PlanetId;
    if a.parent == Some(id) {
      var d := TopAbove(x, found, h, a);
      TopIsNotRebuilt(table, x, found, locals, plugs, fixes, h, slice, files, loaded, d, e);
    }
  }

  lemma TopAbove(x: ScanIndex.Index, found: Finds, h: ScanIndex.FileEntry, a: Entity) returns (d: Entity)
    requires Scannable(x, found) && h in x.files && a in Tops(x, h) && a.parent.Some?
    ensures d in Tops(x, h) && a.parent == Some(d.id)
  {
    RowsHang(x, h);
    hide Slices.Known, Slices.AllIdsDistinct, SymbolsFit, Slices.ListedOnce, Slices.SystemRow, Slices.PlanetRow;
    var tops := Tops(x, h);
    var i :| 0 <= i < |tops| && tops[i] == a;
    d := tops[i - 1];
  }

  lemma PlanetIsCoarser(table: Table, x: ScanIndex.Index, found: Finds, locals: Plugs, plugs: Plugs, fixes: map<Id, Resolution>,
                        h: ScanIndex.FileEntry, slice: Files, files: seq<Id>, loaded: seq<Id>, a: Entity, f: Id)
    requires Scannable(x, found) && Reloaded(table, x, found, locals, plugs, fixes, h, slice, files, loaded)
    requires a in Tops(x, h) && f in files && f in table
    ensures a.scale != table[f].value.scale
  {
    RowsHang(x, h);
    hide Slices.Known, Slices.AllIdsDistinct, SymbolsFit, Slices.ListedOnce, Slices.SystemRow, Slices.PlanetRow, Slices.PlanetId,
      StoredScan, Subtrees.IsLoaded, PatchFits, SymbolsUnlit;
    var g := LoadedFile(table, x, found, locals, plugs, fixes, h, slice, files, loaded, f);
    RowsHang(x, g);
  }

  /** Re-evaluation sees the whole's subtree: the rows read back, patched and set under the roots,
      the System and the Planet, hold below the Planet exactly the records of the whole with its
      stitched sockets. */
  lemma ReloadHoldsSubtree(ctx: Context, table: Table, x: ScanIndex.Index, found: Finds, locals: Plugs, plugs: Plugs,
                           fixes: map<Id, Resolution>, h: ScanIndex.FileEntry, slice: Files, files: seq<Id>, loaded: seq<Id>,
                           all: seq<Entity>, edges: seq<Edge>)
    requires Scannable(x, found) && Reloaded(table, x, found, locals, plugs, fixes, h, slice, files, loaded)
    requires forall id :: id in loaded ==> id in table
    requires AsRebuilt(all, Tops(x, h) + Rebuilt(table, loaded, fixes)) && ContainmentEdges(ctx.(edges := edges))
    ensures HoldsSubtree(ctx, SnapshotOf(x, found, plugs, x.files), Directory(all, edges), Slices.PlanetId(x, h))
  {
    var unlit, whole, planet := Tops(x, h) + Rebuilt(table, loaded, fixes), SnapshotOf(x, found, plugs, x.files), Slices.PlanetId(x, h);
    assert unlit[0] == x.universe;
    assert h in slice && h in x.files;
    AllFilesListed(x, found);
    RebuiltLayout(table, x, found, locals, plugs, fixes, h, slice, files, loaded);
    RebuiltIsParentFirst(table, x, found, locals, plugs, fixes, h, slice, files, loaded);
    hide Scannable, StoredScan, PatchFits, SymbolsUnlit, Subtrees.IsLoaded, Slices.PlanetId, Tops, Rebuilt, SnapshotOf, Layout,
      ParentFirst, WellFormed, Records, ContainmentEdges, SameShape, AsRebuilt;
    LayoutIsWellFormed(x, found, plugs, slice, unlit);
    SnapshotLayout(x, found, plugs, x.files);
    SameRecords(x, found, plugs, slice, unlit, whole, h);
    SameRecordsUnlit(all, unlit, planet);
    ShapeKeepsOrder(all, unlit);
    ShapeKeepsWellFormed(all, unlit);
  }

  lemma AllFilesListed(x: ScanIndex.Index, found: Finds)
    requires Scannable(x, found)
    ensures Slices.Within(x, x.files) && Slices.ListedOnce(x.files)
  {
    hide Slices.Known, Slices.AllIdsDistinct, SymbolsFit, RootsBuilt;
  }
}
