/** What the store holds when a touched directory is read back: the scan's rows, first as the
    directories were persisted, then directory by directory as they were patched. */
module StoredScans {
  import opened Atlas
  import opened LayeredRollUp
  import opened LayeredScans
  import opened Reloads
  import ScanIndex
  import Slices
  import SliceStores
  import Stores
  import Subtrees

  /** The evaluated directories: each its slice's snapshot, whatever its Green. */
  ghost predicate AreEvaluated(x: ScanIndex.Index, found: Finds, locals: Plugs, keys: seq<string>, parts: seq<SliceStores.Part>) {
    |parts| == |keys| && forall i :: 0 <= i < |keys| ==>
      AsRebuilt(parts[i].entities, SnapshotOf(x, found, locals, Slices.FilesOf(x.files, keys[i])))
  }

  lemma {:induction false} WrittenRows(x: ScanIndex.Index, parts: seq<SliceStores.Part>, r: Entity)
    ensures r in SliceStores.RowsOfParts(x, parts) <==>
            r == x.universe || r == x.galaxy
            || (r.id != x.universe.id && r.id != x.galaxy.id && exists i :: 0 <= i < |parts| && r in parts[i].entities)
  {
    hide SliceStores.WithoutRoots;
    if parts != [] {
      var n := |parts| - 1;
      WrittenRows(x, parts[..n], r);
      OneOfParts(x, parts, r);
      SliceStores.WithoutRootsMembers(x, parts[n].entities);
      hide SliceStores.RowsOfParts;
      assert SliceStores.RowsOfParts(x, parts) == SliceStores.RowsOfParts(x, parts[..n]) + SliceStores.WithoutRoots(x, parts[n].entities) by {
        PartsGrow(x, parts);
      }
    }
  }

  lemma PartsGrow(x: ScanIndex.Index, parts: seq<SliceStores.Part>)
    requires parts != []
    ensures var n := |parts| - 1;
            SliceStores.RowsOfParts(x, parts) == SliceStores.RowsOfParts(x, parts[..n]) + SliceStores.WithoutRoots(x, parts[n].entities)
  {
    hide SliceStores.WithoutRoots;
  }

  lemma OneOfParts(x: ScanIndex.Index, parts: seq<SliceStores.Part>, r: Entity)
    requires parts != []
    ensures var n := |parts| - 1;
            (exists i :: 0 <= i < |parts| && r in parts[i].entities) <==>
            (exists i :: 0 <= i < n && r in parts[..n][i].entities) || r in parts[n].entities
  {
    var n := |parts| - 1;
    assert forall i :: 0 <= i < n ==> parts[..n][i] == parts[i];
  }

  lemma SliceInWhole(x: ScanIndex.Index, found: Finds, locals: Plugs, key: string, e: Entity)
    requires Slices.Known(x) && e in SnapshotOf(x, found, locals, Slices.FilesOf(x.files, key))
    ensures e in SnapshotOf(x, found, locals, x.files)
  {
    var files := Slices.FilesOf(x.files, key);
    SliceStores.SliceWithin(x, key);
    hide Slices.Known, SnapshotOf, Slices.FilesOf, OfFile;
    SnapshotMembers(x, found, locals, files, e);
    SnapshotMembers(x, found, locals, x.files, e);
  }

  lemma WholeInSlice(x: ScanIndex.Index, found: Finds, locals: Plugs, keys: seq<string>, e: Entity) returns (i: nat)
    requires Scannable(x, found) && (forall f :: f in x.files ==> Slices.GroupKeys(f.path).key in keys)
    requires e in SnapshotOf(x, found, locals, x.files) && e != x.universe && e != x.galaxy
    ensures i < |keys| && e in SnapshotOf(x, found, locals, Slices.FilesOf(x.files, keys[i]))
    ensures e.id != x.universe.id && e.id != x.galaxy.id
  {
    hide Slices.AllIdsDistinct, SymbolsFit, RootsBuilt, SnapshotOf, Slices.FilesOf, OfFile, Slices.GroupKeys, Slices.ListedOnce;
    SnapshotMembers(x, found, locals, x.files, e);
    var f :| f in x.files && OfFile(x, found, locals, f, e);
    i :| 0 <= i < |keys| && keys[i] == Slices.GroupKeys(f.path).key;
    Slices.FilesOfMembers(x.files, keys[i]);
    SnapshotMembers(x, found, locals, Slices.FilesOf(x.files, keys[i]), e);
    NotARoot(x, found, locals, f, e);
  }

  lemma NotARoot(x: ScanIndex.Index, found: Finds, locals: Plugs, f: ScanIndex.FileEntry, e: Entity)
    requires Scannable(x, found) && f in x.files && OfFile(x, found, locals, f, e)
    ensures e.id != x.universe.id && e.id != x.galaxy.id
  {
    Slices.RootsApart(x, f);
    hide Slices.Known, Slices.AllIdsDistinct, SymbolsFit, RootsBuilt, Slices.SystemRow, Slices.PlanetRow, Slices.MoonRow,
      Slices.ListedOnce;
    if e in found(f).symbols {
      SymbolFits(x, found, f, e);
    }
  }

  /** The written rows are the scan's, and every row of the scan is written. */
  lemma WrittenIsScan(x: ScanIndex.Index, found: Finds, locals: Plugs, keys: seq<string>, parts: seq<SliceStores.Part>)
    requires Scannable(x, found) && ScannedRoots(x) && AreEvaluated(x, found, locals, keys, parts)
    requires forall f :: f in x.files ==> Slices.GroupKeys(f.path).key in keys
    ensures forall r :: r in SliceStores.RowsOfParts(x, parts) ==> Unlit(r) in SnapshotOf(x, found, locals, x.files)
    ensures forall e :: e in SnapshotOf(x, found, locals, x.files) ==>
              exists r :: r in SliceStores.RowsOfParts(x, parts) && r.id == e.id
  {
    hide Scannable, SnapshotOf, Slices.FilesOf, Slices.GroupKeys, SliceStores.RowsOfParts, AreEvaluated, ScannedRoots;
    forall r | r in SliceStores.RowsOfParts(x, parts) ensures Unlit(r) in SnapshotOf(x, found, locals, x.files) {
      WrittenRowIsScan(x, found, locals, keys, parts, r);
    }
    forall e | e in SnapshotOf(x, found, locals, x.files) ensures exists r :: r in SliceStores.RowsOfParts(x, parts) && r.id == e.id {
      ScanRowIsWritten(x, found, locals, keys, parts, e);
    }
  }

  lemma WrittenRowIsScan(x: ScanIndex.Index, found: Finds, locals: Plugs, keys: seq<string>, parts: seq<SliceStores.Part>, r: Entity)
    requires Scannable(x, found) && ScannedRoots(x) && AreEvaluated(x, found, locals, keys, parts)
    requires r in SliceStores.RowsOfParts(x, parts)
    ensures Unlit(r) in SnapshotOf(x, found, locals, x.files)
  {
    WrittenRows(x, parts, r);
    RootsInWhole(x, found, locals);
    hide Slices.Known, Slices.AllIdsDistinct, SymbolsFit, RootsBuilt, SnapshotOf, Slices.FilesOf, SliceStores.RowsOfParts,
      Slices.ListedOnce;
    if r != x.universe && r != x.galaxy {
      var i :| 0 <= i < |parts| && r in parts[i].entities;
      var k :| 0 <= k < |parts[i].entities| && parts[i].entities[k] == r;
      var slice := SnapshotOf(x, found, locals, Slices.FilesOf(x.files, keys[i]));
      assert Unlit(r) == slice[k] && slice[k] in slice;
      SliceInWhole(x, found, locals, keys[i], Unlit(r));
    }
  }

  lemma ScanRowIsWritten(x: ScanIndex.Index, found: Finds, locals: Plugs, keys: seq<string>, parts: seq<SliceStores.Part>, e: Entity)
    requires Scannable(x, found) && AreEvaluated(x, found, locals, keys, parts) && e in SnapshotOf(x, found, locals, x.files)
    requires forall f :: f in x.files ==> Slices.GroupKeys(f.path).key in keys
    ensures exists r :: r in SliceStores.RowsOfParts(x, parts) && r.id == e.id
  {
    WrittenRows(x, parts, e);
    hide Scannable, SnapshotOf, Slices.FilesOf, Slices.GroupKeys, SliceStores.RowsOfParts;
    if e != x.universe && e != x.galaxy {
      var i := WholeInSlice(x, found, locals, keys, e);
      var slice := SnapshotOf(x, found, locals, Slices.FilesOf(x.files, keys[i]));
      var k :| 0 <= k < |slice| && slice[k] == e;
      var r := parts[i].entities[k];
      assert Unlit(r) == e && r in parts[i].entities;
      WrittenRows(x, parts, r);
    }
  }

  /** No row outside the scan bears its stamp beforehand. */
  ghost predicate NothingStale(before: Table, x: ScanIndex.Index, found: Finds, locals: Plugs) {
    forall id :: Subtrees.Stamped(before, id, x.snapshot) ==> exists e :: e in SnapshotOf(x, found, locals, x.files) && e.id == id
  }

  /** Once every directory is persisted, the store holds the scan. */
  lemma WritesStoreScan(before: Table, x: ScanIndex.Index, found: Finds, locals: Plugs, keys: seq<string>, parts: seq<SliceStores.Part>)
    requires Scannable(x, found) && ScannedRoots(x) && AreEvaluated(x, found, locals, keys, parts)
    requires forall f :: f in x.files ==> Slices.GroupKeys(f.path).key in keys
    requires Subtrees.KeyedById(before) && NothingStale(before, x, found, locals)
    ensures StoredScan(Stores.Upserted(before, SliceStores.RowsOfParts(x, parts), Stores.EntityKey, x.snapshot), x, found, locals)
  {
    hide Scannable, ScannedRoots, AreEvaluated, SnapshotOf, SliceStores.RowsOfParts, Stores.Upserted, Slices.GroupKeys, StoredScan,
      NothingStale, Subtrees.KeyedById;
    WrittenIsScan(x, found, locals, keys, parts);
    RowsStoreScan(before, SliceStores.RowsOfParts(x, parts), x, found, locals);
  }

  lemma RowsStoreScan(before: Table, rows: seq<Entity>, x: ScanIndex.Index, found: Finds, locals: Plugs)
    requires forall r :: r in rows ==> Unlit(r) in SnapshotOf(x, found, locals, x.files)
    requires forall e :: e in SnapshotOf(x, found, locals, x.files) ==> exists r :: r in rows && r.id == e.id
    requires Subtrees.KeyedById(before) && NothingStale(before, x, found, locals)
    ensures StoredScan(Stores.Upserted(before, rows, Stores.EntityKey, x.snapshot), x, found, locals)
  {
    hide SnapshotOf, Stores.Upserted, Stores.Keys, NothingStale;
    var table := Stores.Upserted(before, rows, Stores.EntityKey, x.snapshot);
    Stores.UpsertedKeys(before, rows, Stores.EntityKey, x.snapshot);
    forall id | Subtrees.Stamped(table, id, x.snapshot) ensures Unlit(table[id].value) in SnapshotOf(x, found, locals, x.files) {
      StampedIsWritten(before, rows, x, found, locals, id);
    }
    forall e | e in SnapshotOf(x, found, locals, x.files) ensures Subtrees.Stamped(table, e.id, x.snapshot) {
      SliceStores.KeysMembers(rows, e.id);
    }
  }

  lemma StampedIsWritten(before: Table, rows: seq<Entity>, x: ScanIndex.Index, found: Finds, locals: Plugs, id: Id)
    requires forall e :: e in SnapshotOf(x, found, locals, x.files) ==> exists r :: r in rows && r.id == e.id
    requires NothingStale(before, x, found, locals)
    requires Subtrees.Stamped(Stores.Upserted(before, rows, Stores.EntityKey, x.snapshot), id, x.snapshot)
    ensures id in Stores.Keys(rows, Stores.EntityKey)
  {
    hide SnapshotOf, Stores.Upserted, Stores.Keys;
    OldOrWritten(before, rows, x.snapshot, id);
    SliceStores.KeysMembers(rows, id);
  }

  lemma OldOrWritten(before: Table, rows: seq<Entity>, snapshot: string, id: Id)
    ensures Subtrees.Stamped(Stores.Upserted(before, rows, Stores.EntityKey, snapshot), id, snapshot) ==>
              id in Stores.Keys(rows, Stores.EntityKey) || Subtrees.Stamped(before, id, snapshot)
  {
    hide Stores.Upserted, Stores.Keys;
    Stores.UpsertedKeys(before, rows, Stores.EntityKey, snapshot);
  }

  lemma KeysAreIds(rows: seq<Entity>)
    ensures forall id :: id in Stores.Keys(rows, Stores.EntityKey) <==> exists r :: r in rows && r.id == id
  {
    forall id: Id { SliceStores.KeysMembers(rows, id); }
    hide Stores.Keys;
  }

  // ---- Patching one directory keeps it ----

  function HeldAfter(slice: Files, held: Plugs, plugs: Plugs): Plugs {
    id => if exists f :: f in slice && f.id == id then plugs(id) else held(id)
  }

  /** What a second evaluation persists: the Planet and every file of it, with the stitched sockets. */
  ghost predicate Repersisted(x: ScanIndex.Index, plugs: Plugs, slice: Files, at: ScanIndex.FileEntry, rows: seq<Entity>) {
    && (forall r :: r in rows ==> Unlit(r) == Slices.PlanetRow(x, at) || exists f :: f in slice && Unlit(r) == FileRow(x, plugs, f))
    && (forall f :: f in slice ==> exists r :: r in rows && r.id == f.id)
  }

  /** A row the patch does not rewrite is the scan's under the new sockets too. */
  lemma UntouchedRow(x: ScanIndex.Index, found: Finds, held: Plugs, plugs: Plugs, slice: Files, e: Entity)
    requires Scannable(x, found) && Slices.Within(x, slice) && e in SnapshotOf(x, found, held, x.files)
    requires forall f :: f in slice ==> e.id != f.id
    ensures e in SnapshotOf(x, found, HeldAfter(slice, held, plugs), x.files)
  {
    hide Slices.Known, Slices.AllIdsDistinct, SymbolsFit, RootsBuilt, SnapshotOf, Slices.ListedOnce, Slices.SystemRow,
      Slices.PlanetRow, Slices.MoonRow;
    var after := HeldAfter(slice, held, plugs);
    SnapshotMembers(x, found, held, x.files, e);
    SnapshotMembers(x, found, after, x.files, e);
    if e != x.universe && e != x.galaxy {
      var f :| f in x.files && OfFile(x, found, held, f, e);
      FileInSnapshot(x, found, held, f);
      if e == FileRow(x, held, f) {
        assert FileRow(x, after, f) == e;
      }
      assert OfFile(x, found, after, f, e);
    }
  }

  lemma RewrittenRow(x: ScanIndex.Index, found: Finds, held: Plugs, plugs: Plugs, slice: Files, at: ScanIndex.FileEntry, r: Entity)
    requires Scannable(x, found) && Slices.Within(x, slice) && at in slice
    requires Unlit(r) == Slices.PlanetRow(x, at) || exists f :: f in slice && Unlit(r) == FileRow(x, plugs, f)
    ensures Unlit(r) in SnapshotOf(x, found, HeldAfter(slice, held, plugs), x.files)
  {
    hide Slices.Known, Slices.AllIdsDistinct, SymbolsFit, RootsBuilt, SnapshotOf, Slices.ListedOnce, Slices.SystemRow,
      Slices.PlanetRow, Slices.MoonRow;
    var after := HeldAfter(slice, held, plugs);
    SnapshotMembers(x, found, after, x.files, Unlit(r));
    if f :| f in slice && Unlit(r) == FileRow(x, plugs, f) {
      assert FileRow(x, after, f) == FileRow(x, plugs, f);
      assert OfFile(x, found, after, f, Unlit(r));
    } else {
      assert OfFile(x, found, after, at, Unlit(r));
    }
  }

  lemma SameIdsAfter(x: ScanIndex.Index, found: Finds, held: Plugs, plugs: Plugs, slice: Files, e: Entity)
    requires Scannable(x, found) && Slices.Within(x, slice) && e in SnapshotOf(x, found, HeldAfter(slice, held, plugs), x.files)
    ensures exists d :: d in SnapshotOf(x, found, held, x.files) && d.id == e.id
  {
    hide Slices.Known, Slices.AllIdsDistinct, SymbolsFit, RootsBuilt, SnapshotOf, Slices.ListedOnce, Slices.SystemRow,
      Slices.PlanetRow, Slices.MoonRow;
    var after := HeldAfter(slice, held, plugs);
    SnapshotMembers(x, found, held, x.files, e);
    SnapshotMembers(x, found, after, x.files, e);
    if e != x.universe && e != x.galaxy {
      var f :| f in x.files && OfFile(x, found, after, f, e);
      if e == FileRow(x, after, f) {
        FileInSnapshot(x, found, held, f);
        FileInSnapshot(x, found, after, f);
      } else {
        assert OfFile(x, found, held, f, e);
      }
    }
  }

  /** After a touched directory is persisted again, the store holds the scan with that directory's
      stitched sockets, so the next one can be read back in turn. */
  lemma PatchKeepsStored(table: Table, x: ScanIndex.Index, found: Finds, held: Plugs, plugs: Plugs, slice: Files,
                         at: ScanIndex.FileEntry, rows: seq<Entity>)
    requires Scannable(x, found) && StoredScan(table, x, found, held) && Slices.Within(x, slice) && at in slice
    requires Repersisted(x, plugs, slice, at, rows)
    ensures StoredScan(Stores.Upserted(table, rows, Stores.EntityKey, x.snapshot), x, found, HeldAfter(slice, held, plugs))
  {
    hide Scannable, SnapshotOf, Stores.Upserted, Stores.Keys, HeldAfter;
    var after, next := HeldAfter(slice, held, plugs), Stores.Upserted(table, rows, Stores.EntityKey, x.snapshot);
    KeysAreIds(rows);
    Stores.UpsertedKeys(table, rows, Stores.EntityKey, x.snapshot);
    forall id | Subtrees.Stamped(next, id, x.snapshot) ensures Unlit(next[id].value) in SnapshotOf(x, found, after, x.files) {
      if id in Stores.Keys(rows, Stores.EntityKey) {
        RewrittenRow(x, found, held, plugs, slice, at, next[id].value);
      } else {
        UntouchedRow(x, found, held, plugs, slice, Unlit(next[id].value));
      }
    }
    forall e | e in SnapshotOf(x, found, after, x.files) ensures Subtrees.Stamped(next, e.id, x.snapshot) {
      SameIdsAfter(x, found, held, plugs, slice, e);
    }
  }

  // ---- The other way to store it ----

  /** One replacement with the whole snapshot succeeds: no id is met twice in either table. */
  lemma WholeReplaces(x: ScanIndex.Index, found: Finds, whole: SliceStores.Part, scanned: seq<Edge>)
    requires Scannable(x, found) && ScanIndex.EdgeIdsDistinct(x)
    requires SliceStores.IsWhole(x, found, whole, scanned) && SliceStores.SymbolEdgesApart(x, found, scanned)
    ensures Stores.Insertable(whole.entities, Stores.EntityKey) && Stores.Insertable(whole.edges, Stores.EdgeKey)
  {
    var bare := SnapshotOf(x, found, id => [], x.files);
    SnapshotLayout(x, found, id => [], x.files);
    LayoutIsDistinct(x, found, id => [], x.files, bare);
    SliceStores.WholeEdgesInsertable(x, found, whole, scanned);
    hide Slices.Known, Slices.AllIdsDistinct, SymbolsFit, RootsBuilt, Slices.ListedOnce, Layout, Stores.Insertable, SliceStores.SymbolsOf,
      Slices.Rows, ScanIndex.EdgeIdsDistinct, SliceStores.SymbolEdgesApart, Slices.WholeEdges;
    var all := [x.universe, x.galaxy] + Slices.Rows(x, x.files) + SliceStores.SymbolsOf(found, x.files);
    forall i | 0 <= i < |all| ensures i < |whole.entities| && whole.entities[i].id == bare[i].id {
      assert SliceStores.IdsOf(all)[i] == SliceStores.IdsOf(whole.entities)[i];
    }
    assert |SliceStores.IdsOf(whole.entities)| == |all|;
    Stores.InsertableIff(whole.entities, Stores.EntityKey);
  }
}
