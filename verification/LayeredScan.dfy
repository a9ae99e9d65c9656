/** The layered scan against the whole-snapshot scan, from the index up: each directory's own
    snapshot is a valid tree that holds exactly the whole's records below its Planet, and so the
    rolled-up Green is the whole's. */
module LayeredScans {
  import opened Atlas
  import opened Hierarchy
  import opened Evaluator
  import opened RollUp
  import opened FullPasses
  import opened LayeredGreen
  import opened Isolation
  import opened LayeredRollUp
  import ScanIndex
  import Slices
  import SliceStores
  import Stores

  type Files = seq<ScanIndex.FileEntry>
  type Finds = ScanIndex.FileEntry -> SliceStores.Found
  type Plugs = Id -> seq<Socket>

  // ---- The snapshot of a list of files ----

  function Dress(e: Entity, plugs: Plugs): Entity {
    if e.scale == Moon then e.(sockets := plugs(e.id)) else e
  }

  function Dressed(rows: seq<Entity>, plugs: Plugs): (r: seq<Entity>)
    ensures |r| == |rows| && forall i :: 0 <= i < |rows| ==> r[i] == Dress(rows[i], plugs)
  {
    seq(|rows|, i requires 0 <= i < |rows| => Dress(rows[i], plugs))
  }

  /** The roots, the rows of these files with the sockets the files end with, and their symbols. */
  function SnapshotOf(x: ScanIndex.Index, found: Finds, plugs: Plugs, files: Files): seq<Entity> {
    [x.universe, x.galaxy] + Dressed(Slices.Rows(x, files), plugs) + SliceStores.SymbolsOf(found, files)
  }

  function FileRow(x: ScanIndex.Index, plugs: Plugs, f: ScanIndex.FileEntry): Entity {
    Slices.MoonRow(x, f).(sockets := plugs(f.id))
  }

  ghost predicate OfFile(x: ScanIndex.Index, found: Finds, plugs: Plugs, f: ScanIndex.FileEntry, e: Entity) {
    e == Slices.SystemRow(x, f) || BelowSystem(x, found, plugs, f, e)
  }

  ghost predicate BelowSystem(x: ScanIndex.Index, found: Finds, plugs: Plugs, f: ScanIndex.FileEntry, e: Entity) {
    e == Slices.PlanetRow(x, f) || e == FileRow(x, plugs, f) || e in found(f).symbols
  }

  /** Symbols are Moons hanging from their file, under ids nothing else bears. */
  ghost predicate SymbolsFit(x: ScanIndex.Index, found: Finds) {
    && (forall f, s :: f in x.files && s in found(f).symbols ==> s.scale == Moon && s.parent == Some(f.id))
    && (forall f :: f in x.files ==> DistinctIds(found(f).symbols))
    && (forall f, g, s, t :: f in x.files && g in x.files && s in found(f).symbols && t in found(g).symbols && s.id == t.id ==> f == g)
    && (forall f, s, e :: f in x.files && s in found(f).symbols && Slices.IsRow(x, e) ==> s.id != e.id)
  }

  ghost predicate Scannable(x: ScanIndex.Index, found: Finds) {
    Slices.Known(x) && Slices.AllIdsDistinct(x) && RootsBuilt(x) && Slices.ListedOnce(x.files) && SymbolsFit(x, found)
  }

  lemma DressOf(x: ScanIndex.Index, plugs: Plugs, f: ScanIndex.FileEntry)
    ensures Dress(Slices.SystemRow(x, f), plugs) == Slices.SystemRow(x, f)
    ensures Dress(Slices.PlanetRow(x, f), plugs) == Slices.PlanetRow(x, f)
    ensures Dress(Slices.MoonRow(x, f), plugs) == FileRow(x, plugs, f)
  {
    hide Slices.GroupKeys;
  }

  lemma DressedHas(rows: seq<Entity>, plugs: Plugs, e: Entity)
    ensures e in Dressed(rows, plugs) <==> exists r :: r in rows && Dress(r, plugs) == e
  {
    hide Dress;
    if r :| r in rows && Dress(r, plugs) == e {
      var i :| 0 <= i < |rows| && rows[i] == r;
      assert Dressed(rows, plugs)[i] == e;
    }
  }

  lemma DressedMembers(x: ScanIndex.Index, plugs: Plugs, files: Files, e: Entity)
    requires Slices.Known(x) && Slices.Within(x, files)
    ensures e in Dressed(Slices.Rows(x, files), plugs) <==>
            exists f :: f in files && (e == Slices.SystemRow(x, f) || e == Slices.PlanetRow(x, f) || e == FileRow(x, plugs, f))
  {
    hide Slices.Known, Slices.Rows, Dressed, Dress, Slices.SystemRow, Slices.PlanetRow, Slices.MoonRow, FileRow, Slices.Contributes;
    var rows := Slices.Rows(x, files);
    DressedHas(rows, plugs, e);
    if r :| r in rows && Dress(r, plugs) == e {
      Slices.RowsMembers(x, files, r);
      var f := WhoseRow(x, files, r);
      DressOf(x, plugs, f);
    }
    if f :| f in files && (e == Slices.SystemRow(x, f) || e == Slices.PlanetRow(x, f) || e == FileRow(x, plugs, f)) {
      DressOf(x, plugs, f);
      var r := if e == FileRow(x, plugs, f) then Slices.MoonRow(x, f) else e;
      RowIsIts(x, files, f, r);
      Slices.RowsMembers(x, files, r);
    }
  }

  lemma WhoseRow(x: ScanIndex.Index, files: Files, r: Entity) returns (f: ScanIndex.FileEntry)
    requires Slices.Contributes(x, files, r)
    ensures f in files && (r == Slices.SystemRow(x, f) || r == Slices.PlanetRow(x, f) || r == Slices.MoonRow(x, f))
  {
    hide Slices.SystemRow, Slices.PlanetRow, Slices.MoonRow;
    f :| f in files && (r == Slices.SystemRow(x, f) || r == Slices.PlanetRow(x, f) || r == Slices.MoonRow(x, f));
  }

  lemma RowIsIts(x: ScanIndex.Index, files: Files, f: ScanIndex.FileEntry, r: Entity)
    requires f in files && (r == Slices.SystemRow(x, f) || r == Slices.PlanetRow(x, f) || r == Slices.MoonRow(x, f))
    ensures Slices.Contributes(x, files, r)
  {
    hide Slices.SystemRow, Slices.PlanetRow, Slices.MoonRow;
  }

  lemma SnapshotMembers(x: ScanIndex.Index, found: Finds, plugs: Plugs, files: Files, e: Entity)
    requires Slices.Known(x) && Slices.Within(x, files)
    ensures e in SnapshotOf(x, found, plugs, files) <==>
            e == x.universe || e == x.galaxy || exists f :: f in files && OfFile(x, found, plugs, f, e)
  {
    DressedMembers(x, plugs, files, e);
    SliceStores.FoundMembers(found, files);
    hide Slices.Known, Slices.SystemRow, Slices.PlanetRow, FileRow, Slices.Rows, SliceStores.SymbolsOf;
  }

  // ---- Ids stay distinct ----

  lemma DistinctTogether(a: seq<Entity>, b: seq<Entity>)
    requires DistinctIds(a) && DistinctIds(b) && forall d, e :: d in a && e in b ==> d.id != e.id
    ensures DistinctIds(a + b)
  {
    var c := a + b;
    forall i, j | 0 <= i < j < |c| ensures c[i].id != c[j].id {
      if i < |a| <= j {
        assert a[i] in a && b[j - |a|] in b;
      }
    }
  }

  lemma {:induction false} SymbolsAreDistinct(x: ScanIndex.Index, found: Finds, files: Files)
    requires SymbolsFit(x, found) && Slices.Within(x, files) && Slices.ListedOnce(files)
    ensures DistinctIds(SliceStores.SymbolsOf(found, files))
  {
    if files != [] {
      var n := |files| - 1;
      var before, f := files[..n], files[n];
      SymbolsAreDistinct(x, found, before);
      SliceStores.FoundMembers(found, before);
      Slices.OthersBefore(files, n);
      OwnSymbols(x, found, f);
      forall s, t | s in SliceStores.SymbolsOf(found, before) && t in found(f).symbols ensures s.id != t.id {
        var g :| g in before && s in found(g).symbols;
        TwoFilesTwoSymbols(x, found, f, g, s, t);
      }
      hide SymbolsFit, DistinctIds;
      DistinctTogether(SliceStores.SymbolsOf(found, before), found(f).symbols);
    }
  }

  lemma OwnSymbols(x: ScanIndex.Index, found: Finds, f: ScanIndex.FileEntry)
    requires SymbolsFit(x, found) && f in x.files
    ensures DistinctIds(found(f).symbols)
  {
    hide DistinctIds;
  }

  lemma TwoFilesTwoSymbols(x: ScanIndex.Index, found: Finds, f: ScanIndex.FileEntry, g: ScanIndex.FileEntry, s: Entity, t: Entity)
    requires SymbolsFit(x, found) && f in x.files && g in x.files && f != g && s in found(g).symbols && t in found(f).symbols
    ensures s.id != t.id
  {
    hide DistinctIds;
  }

  lemma RowsAreDistinct(x: ScanIndex.Index, plugs: Plugs, files: Files)
    requires Slices.Known(x) && Slices.AllIdsDistinct(x) && Slices.Within(x, files) && Slices.ListedOnce(files)
    ensures DistinctIds([x.universe, x.galaxy] + Dressed(Slices.Rows(x, files), plugs))
  {
    Slices.RowsInsertable(x, files);
    hide Slices.Known, Slices.AllIdsDistinct, Slices.Rows, Stores.Insertable;
    Stores.InsertableIff([x.universe, x.galaxy] + Slices.Rows(x, files), Stores.EntityKey);
    DressedKeepsIds([x.universe, x.galaxy], Slices.Rows(x, files), plugs);
  }

  lemma DressedKeepsIds(roots: seq<Entity>, rows: seq<Entity>, plugs: Plugs)
    requires forall i, j :: 0 <= i < j < |roots + rows| ==> Stores.EntityKey((roots + rows)[i]) != Stores.EntityKey((roots + rows)[j])
    ensures DistinctIds(roots + Dressed(rows, plugs))
  {
    var bare, all := roots + rows, roots + Dressed(rows, plugs);
    assert forall i :: 0 <= i < |all| ==> all[i].id == Stores.EntityKey(bare[i]);
  }

  /** What every snapshot of these files' rows and symbols is, whatever its order. */
  ghost predicate Layout(x: ScanIndex.Index, found: Finds, plugs: Plugs, files: Files, all: seq<Entity>) {
    && DistinctIds(all) && Slices.Within(x, files)
    && (forall e :: e in all <==> e == x.universe || e == x.galaxy || exists f :: f in files && OfFile(x, found, plugs, f, e))
  }

  lemma RowOfSnapshot(x: ScanIndex.Index, plugs: Plugs, files: Files, e: Entity) returns (r: Entity)
    requires Slices.Known(x) && Slices.Within(x, files)
    requires e in [x.universe, x.galaxy] + Dressed(Slices.Rows(x, files), plugs)
    ensures Slices.IsRow(x, r) && r.id == e.id && r.scale == e.scale && r.parent == e.parent
  {
    DressedMembers(x, plugs, files, e);
    hide Slices.Known, Slices.GroupKeys, Slices.Rows, Dressed;
    if e == x.universe || e == x.galaxy {
      r := e;
    } else {
      var f :| f in files && (e == Slices.SystemRow(x, f) || e == Slices.PlanetRow(x, f) || e == FileRow(x, plugs, f));
      r := if e == FileRow(x, plugs, f) then Slices.MoonRow(x, f) else e;
      assert Slices.Contributes(x, x.files, r);
    }
  }

  lemma SnapshotLayout(x: ScanIndex.Index, found: Finds, plugs: Plugs, files: Files)
    requires Scannable(x, found) && Slices.Within(x, files) && Slices.ListedOnce(files)
    ensures Layout(x, found, plugs, files, SnapshotOf(x, found, plugs, files))
  {
    hide Slices.Known, Slices.AllIdsDistinct, DistinctIds, OfFile, SymbolsFit, RootsBuilt;
    var all := SnapshotOf(x, found, plugs, files);
    forall e ensures e in all <==> e == x.universe || e == x.galaxy || exists f :: f in files && OfFile(x, found, plugs, f, e) {
      SnapshotMembers(x, found, plugs, files, e);
    }
    RowsAreDistinct(x, plugs, files);
    SymbolsAreDistinct(x, found, files);
    var rows, symbols := [x.universe, x.galaxy] + Dressed(Slices.Rows(x, files), plugs), SliceStores.SymbolsOf(found, files);
    forall d, e | d in rows && e in symbols ensures d.id != e.id {
      SymbolIsNoRow(x, found, plugs, files, d, e);
    }
    DistinctTogether(rows, symbols);
  }

  lemma SymbolIsNoRow(x: ScanIndex.Index, found: Finds, plugs: Plugs, files: Files, d: Entity, s: Entity)
    requires Slices.Known(x) && SymbolsFit(x, found) && Slices.Within(x, files)
    requires d in [x.universe, x.galaxy] + Dressed(Slices.Rows(x, files), plugs) && s in SliceStores.SymbolsOf(found, files)
    ensures d.id != s.id && s.scale == Moon && exists f :: f in files && s.parent == Some(f.id)
  {
    hide Slices.Known, Slices.Rows, Dressed, DistinctIds, Slices.IsRow;
    var r := RowOfSnapshot(x, plugs, files, d);
    SliceStores.FoundMembers(found, files);
    var f :| f in files && s in found(f).symbols;
    assert f in x.files;
  }

  // ---- Parent chains ----

  /** The tree above one file: each row is indexed under its id and names the next as parent. */
  ghost predicate Stacked(x: ScanIndex.Index, plugs: Plugs, f: ScanIndex.FileEntry, m: Hierarchy.Index) {
    var s, p, row := Slices.SystemRow(x, f), Slices.PlanetRow(x, f), FileRow(x, plugs, f);
    && x.universe.id in m && m[x.universe.id] == x.universe && x.universe.parent == None && x.universe.scale == Universe
    && x.galaxy.id in m && m[x.galaxy.id] == x.galaxy && x.galaxy.parent == Some(x.universe.id) && x.galaxy.scale == Galaxy
    && s.id in m && m[s.id] == s && s.parent == Some(x.galaxy.id) && s.scale == System
    && p.id in m && m[p.id] == p && p.parent == Some(s.id) && p.scale == Planet
    && row.id in m && m[row.id] == row && row.parent == Some(p.id) && row.scale == Moon && row.id == f.id
  }

  lemma IsStacked(x: ScanIndex.Index, found: Finds, plugs: Plugs, files: Files, all: seq<Entity>, f: ScanIndex.FileEntry)
    requires Scannable(x, found) && Layout(x, found, plugs, files, all) && f in files
    ensures Stacked(x, plugs, f, IndexOf(all))
  {
    IndexedUnderOwnId(all);
    hide IndexOf, Slices.Known, Slices.AllIdsDistinct, SymbolsFit, Slices.GroupKeys, DistinctIds;
    var s, p, row := Slices.SystemRow(x, f), Slices.PlanetRow(x, f), FileRow(x, plugs, f);
    assert OfFile(x, found, plugs, f, s) && OfFile(x, found, plugs, f, p) && OfFile(x, found, plugs, f, row);
    assert s in all && p in all && row in all && x.universe in all && x.galaxy in all;
  }

  /** Where the chain of an entity can lead: to itself, or where its parent's leads. */
  lemma ChainGoesOn(m: Hierarchy.Index, e: Entity, a: Id)
    requires e.id in m && m[e.id] == e
    ensures Under(m, e.id, a) <==> e.id == a || (e.parent.Some? && Under(m, e.parent.value, a))
    ensures e.parent.Some? && Grounded(m, e.parent.value) ==> Grounded(m, e.id)
    ensures e.parent.None? ==> Grounded(m, e.id)
  {
    UnderIsSelfOrBelow(m, e.id, a);
    hide Under;
    assert Climb(m, e.id, 0) == Some(e.id) && Climb(m, e.id, 1) == e.parent;
    if e.parent.Some? && Grounded(m, e.parent.value) {
      var n: nat :| Climb(m, e.parent.value, n) == None;
      ClimbOn(m, e.id, e.parent.value, 1, n);
    }
  }

  lemma ChainOfFile(x: ScanIndex.Index, plugs: Plugs, f: ScanIndex.FileEntry, m: Hierarchy.Index, a: Id)
    requires Stacked(x, plugs, f, m)
    ensures var s, p := Slices.SystemRow(x, f).id, Slices.PlanetRow(x, f).id;
            && (Under(m, x.universe.id, a) <==> a == x.universe.id)
            && (Under(m, x.galaxy.id, a) <==> a in {x.galaxy.id, x.universe.id})
            && (Under(m, s, a) <==> a in {s, x.galaxy.id, x.universe.id})
            && (Under(m, p, a) <==> a in {p, s, x.galaxy.id, x.universe.id})
            && (Under(m, f.id, a) <==> a in {f.id, p, s, x.galaxy.id, x.universe.id})
            && Grounded(m, x.universe.id) && Grounded(m, x.galaxy.id) && Grounded(m, s) && Grounded(m, p) && Grounded(m, f.id)
  {
    hide Under, Grounded, Slices.SystemRow, Slices.PlanetRow, FileRow;
    ChainGoesOn(m, x.universe, a);
    ChainGoesOn(m, x.galaxy, a);
    ChainGoesOn(m, Slices.SystemRow(x, f), a);
    ChainGoesOn(m, Slices.PlanetRow(x, f), a);
    ChainGoesOn(m, FileRow(x, plugs, f), a);
  }

  lemma SymbolFits(x: ScanIndex.Index, found: Finds, f: ScanIndex.FileEntry, s: Entity)
    requires SymbolsFit(x, found) && f in x.files && s in found(f).symbols
    ensures s.scale == Moon && s.parent == Some(f.id) && forall e :: Slices.IsRow(x, e) ==> s.id != e.id
  {
    hide DistinctIds, Slices.IsRow;
  }

  // ---- The snapshot is a valid tree ----

  lemma {:induction false} NoOtherRoots(a: seq<Entity>, b: seq<Entity>)
    requires forall e :: e in b ==> !IsRoot(e)
    ensures Roots(a + b) == Roots(a)
    decreases |b|
  {
    if b == [] {
      assert a + b == a;
    } else {
      var n := |b| - 1;
      NoOtherRoots(a, b[..n]);
      RootsAppend(a + b[..n], b[n]);
      assert a + b == a + b[..n] + [b[n]] && Roots(a) + [] == Roots(a);
    }
  }

  lemma EachIsPlaced(x: ScanIndex.Index, found: Finds, plugs: Plugs, files: Files, all: seq<Entity>, e: Entity)
    requires Scannable(x, found) && Layout(x, found, plugs, files, all) && files != [] && e in all
    ensures Grounded(IndexOf(all), e.id) && (e != x.universe ==> PlacedUnder(IndexOf(all), e))
    ensures IsRoot(e) <==> e == x.universe
  {
    hide Under, Grounded, IndexOf, Slices.SystemRow, Slices.PlanetRow, FileRow, Slices.Known, Slices.AllIdsDistinct, SymbolsFit,
      DistinctIds, Slices.IsRow, Slices.ListedOnce;
    var m := IndexOf(all);
    var f: ScanIndex.FileEntry := files[0];
    if e != x.universe && e != x.galaxy {
      f :| f in files && OfFile(x, found, plugs, f, e);
    }
    IsStacked(x, found, plugs, files, all, f);
    ChainOfFile(x, plugs, f, m, 0);
    if e in found(f).symbols {
      IndexedUnderOwnId(all);
      SymbolFits(x, found, f, e);
      ChainGoesOn(m, e, 0);
    }
  }

  lemma FirstIsRoot(first: Entity, rest: seq<Entity>)
    requires DistinctIds([first] + rest) && forall e :: e in [first] + rest ==> (IsRoot(e) <==> e == first)
    ensures Roots([first] + rest) == [first.id]
  {
    FirstIsAlone(first, rest);
    assert ([first] + rest)[0] == first;
    forall e | e in rest ensures !IsRoot(e) {
      assert e in [first] + rest;
    }
    NoOtherRoots([first], rest);
    assert Roots([first]) == [first.id];
  }

  lemma OneRoot(x: ScanIndex.Index, found: Finds, plugs: Plugs, files: Files, all: seq<Entity>)
    requires Scannable(x, found) && Layout(x, found, plugs, files, all) && files != [] && all != [] && all[0] == x.universe
    ensures Roots(all) == [x.universe.id]
  {
    hide Scannable, Layout, IsRoot, Roots, DistinctIds;
    forall e | e in all ensures IsRoot(e) <==> e == x.universe {
      EachIsPlaced(x, found, plugs, files, all, e);
    }
    LayoutIsDistinct(x, found, plugs, files, all);
    assert all == [x.universe] + all[1..];
    FirstIsRoot(x.universe, all[1..]);
  }

  lemma UniverseFirst(x: ScanIndex.Index, found: Finds, plugs: Plugs, files: Files)
    ensures var all := SnapshotOf(x, found, plugs, files);
            all != [] && all[0] == x.universe
  {
    hide Slices.Rows, SliceStores.SymbolsOf, Dressed;
  }

  lemma FirstIsAlone(first: Entity, rest: seq<Entity>)
    requires DistinctIds([first] + rest)
    ensures forall e :: e in rest ==> e != first
  {
    var all := [first] + rest;
    forall i | 0 <= i < |rest| ensures rest[i] != first {
      assert all[0] == first && all[i + 1] == rest[i];
    }
  }

  lemma LayoutIsWellFormed(x: ScanIndex.Index, found: Finds, plugs: Plugs, files: Files, all: seq<Entity>)
    requires Scannable(x, found) && Layout(x, found, plugs, files, all) && files != [] && all != [] && all[0] == x.universe
    ensures WellFormed(all)
  {
    hide Scannable, Layout, Grounded, PlacedUnder, IndexOf, Roots;
    OneRoot(x, found, plugs, files, all);
    forall e | e in all
      ensures Grounded(IndexOf(all), e.id) && (e != x.universe ==> PlacedUnder(IndexOf(all), e))
    {
      EachIsPlaced(x, found, plugs, files, all, e);
    }
    LayoutIsDistinct(x, found, plugs, files, all);
  }

  lemma SnapshotIsWellFormed(x: ScanIndex.Index, found: Finds, plugs: Plugs, files: Files)
    requires Scannable(x, found) && Slices.Within(x, files) && Slices.ListedOnce(files) && files != []
    ensures WellFormed(SnapshotOf(x, found, plugs, files))
  {
    hide Scannable, Layout, SnapshotOf, WellFormed;
    SnapshotLayout(x, found, plugs, files);
    UniverseFirst(x, found, plugs, files);
    LayoutIsWellFormed(x, found, plugs, files, SnapshotOf(x, found, plugs, files));
  }

  lemma LayoutIsDistinct(x: ScanIndex.Index, found: Finds, plugs: Plugs, files: Files, all: seq<Entity>)
    requires Layout(x, found, plugs, files, all)
    ensures DistinctIds(all)
  {
  }

  // ---- Parents are listed first ----

  lemma SnapshotIsParentFirst(x: ScanIndex.Index, found: Finds, plugs: Plugs, files: Files)
    requires Scannable(x, found) && Slices.Within(x, files)
    ensures ParentFirst(SnapshotOf(x, found, plugs, files))
  {
    hide Slices.Known, Slices.AllIdsDistinct, SymbolsFit, Slices.Rows, SliceStores.SymbolsOf, Dressed, ParentFirst, Slices.IsRow,
      RootsBuilt;
    var rows, symbols := [x.universe, x.galaxy] + Dressed(Slices.Rows(x, files), plugs), SliceStores.SymbolsOf(found, files);
    forall a, b | a in rows && b in rows ensures !NestedIn(a, b) {
      var q := RowOfSnapshot(x, plugs, files, a);
      var r := RowOfSnapshot(x, plugs, files, b);
      RowsNestNothing(x, q, r);
    }
    forall a, s | s in symbols && (a in rows || a in symbols) ensures a.parent != Some(s.id) {
      NobodyHangsFromSymbol(x, found, plugs, files, a, s);
    }
    AppendedComeAfter(rows, symbols);
  }

  lemma RowsNestNothing(x: ScanIndex.Index, q: Entity, r: Entity)
    requires Slices.Known(x) && Slices.AllIdsDistinct(x) && RootsBuilt(x) && Slices.IsRow(x, q) && Slices.IsRow(x, r)
    ensures q.parent == Some(r.id) ==> q.scale != r.scale
  {
    var p := ParentRow(x, q);
    hide Slices.Known, Slices.AllIdsDistinct, Slices.IsRow;
    if q.parent == Some(r.id) {
      Slices.RowsOfOneId(x, p.value, r);
    }
  }

  lemma RowsHang(x: ScanIndex.Index, f: ScanIndex.FileEntry)
    ensures var s, p, m := Slices.SystemRow(x, f), Slices.PlanetRow(x, f), Slices.MoonRow(x, f);
            && s.scale == System && p.scale == Planet && m.scale == Moon
            && s.parent == Some(x.galaxy.id) && p.parent == Some(s.id) && m.parent == Some(p.id)
  {
    hide Slices.GroupKeys;
  }

  /** Every row but the Universe hangs from a row of a lower rank. */
  lemma ParentRow(x: ScanIndex.Index, q: Entity) returns (p: Option<Entity>)
    requires Slices.Known(x) && RootsBuilt(x) && Slices.IsRow(x, q)
    ensures p.None? <==> q.parent.None?
    ensures p.Some? ==> Slices.IsRow(x, p.value) && q.parent == Some(p.value.id) && p.value.scale.Rank() < q.scale.Rank()
  {
    hide Slices.Known, Slices.SystemRow, Slices.PlanetRow, Slices.MoonRow, Slices.Contributes;
    if q == x.universe {
      p := None;
    } else if q == x.galaxy {
      p := Some(x.universe);
    } else {
      var f := WhoseRow(x, x.files, q);
      RowIsIts(x, x.files, f, Slices.SystemRow(x, f));
      RowIsIts(x, x.files, f, Slices.PlanetRow(x, f));
      RowsHang(x, f);
      if q == Slices.SystemRow(x, f) {
        p := Some(x.galaxy);
      } else if q == Slices.PlanetRow(x, f) {
        p := Some(Slices.SystemRow(x, f));
      } else {
        p := Some(Slices.PlanetRow(x, f));
      }
    }
  }

  lemma NobodyHangsFromSymbol(x: ScanIndex.Index, found: Finds, plugs: Plugs, files: Files, a: Entity, s: Entity)
    requires Scannable(x, found) && Slices.Within(x, files) && s in SliceStores.SymbolsOf(found, files)
    requires a in [x.universe, x.galaxy] + Dressed(Slices.Rows(x, files), plugs) || a in SliceStores.SymbolsOf(found, files)
    ensures a.parent != Some(s.id)
  {
    hide Slices.Known, Slices.AllIdsDistinct, SymbolsFit, Slices.Rows, SliceStores.SymbolsOf, Dressed, Slices.IsRow, RootsBuilt;
    SliceStores.FoundMembers(found, files);
    var f :| f in files && s in found(f).symbols;
    SymbolFits(x, found, f, s);
    if a in SliceStores.SymbolsOf(found, files) {
      var g :| g in files && a in found(g).symbols;
      SymbolFits(x, found, g, a);
      FileIsRow(x, g);
    } else {
      var r := RowOfSnapshot(x, plugs, files, a);
      var p := ParentRow(x, r);
    }
  }

  lemma FileIsRow(x: ScanIndex.Index, g: ScanIndex.FileEntry)
    requires g in x.files
    ensures Slices.IsRow(x, Slices.MoonRow(x, g)) && Slices.MoonRow(x, g).id == g.id
  {
    assert Slices.Contributes(x, x.files, Slices.MoonRow(x, g));
  }

  // ---- What lies below a Planet ----

  /** Below a Planet lie its own row, and the rows and symbols of its files. */
  lemma BelowPlanet(x: ScanIndex.Index, found: Finds, plugs: Plugs, files: Files, all: seq<Entity>, h: ScanIndex.FileEntry, e: Entity)
    requires Scannable(x, found) && Layout(x, found, plugs, files, all) && files != [] && h in x.files && e in all
    ensures Under(IndexOf(all), e.id, Slices.PlanetId(x, h)) <==>
            exists f :: f in files && Slices.PlanetId(x, f) == Slices.PlanetId(x, h) && BelowSystem(x, found, plugs, f, e)
  {
    hide Under, IndexOf, Scannable, Slices.PlanetId, DistinctIds, BelowSystem, Slices.SystemRow;
    var planet := Slices.PlanetId(x, h);
    if e == x.universe || e == x.galaxy {
      NotBelow(x, found, plugs, files, all, h, files[0], e);
    } else {
      var f :| f in files && OfFile(x, found, plugs, f, e);
      if BelowSystem(x, found, plugs, f, e) {
        UnderOwnPlanet(x, found, plugs, files, all, f, h, e);
      } else {
        NotBelow(x, found, plugs, files, all, h, f, e);
      }
    }
    forall g | g in files && Slices.PlanetId(x, g) == planet && BelowSystem(x, found, plugs, g, e)
      ensures Under(IndexOf(all), e.id, planet)
    {
      UnderOwnPlanet(x, found, plugs, files, all, g, h, e);
    }
  }

  lemma NotBelow(x: ScanIndex.Index, found: Finds, plugs: Plugs, files: Files, all: seq<Entity>, h: ScanIndex.FileEntry,
                 f: ScanIndex.FileEntry, e: Entity)
    requires Scannable(x, found) && Layout(x, found, plugs, files, all) && h in x.files && f in files
    requires e in {x.universe, x.galaxy, Slices.SystemRow(x, f)}
    ensures !Under(IndexOf(all), e.id, Slices.PlanetId(x, h))
  {
    hide Under, Grounded, IndexOf, Slices.Known, Slices.AllIdsDistinct, SymbolsFit, DistinctIds, Slices.SystemRow, Slices.PlanetRow,
      FileRow, Slices.PlanetId, OfFile;
    IsStacked(x, found, plugs, files, all, f);
    ChainOfFile(x, plugs, f, IndexOf(all), Slices.PlanetId(x, h));
    PlanetsApart(x, found, f, h);
  }

  lemma PlanetIsRow(x: ScanIndex.Index, h: ScanIndex.FileEntry)
    requires h in x.files
    ensures Slices.IsRow(x, Slices.PlanetRow(x, h)) && Slices.PlanetRow(x, h).id == Slices.PlanetId(x, h)
  {
    hide Slices.GroupKeys;
    assert Slices.Contributes(x, x.files, Slices.PlanetRow(x, h));
  }

  /** A Planet's id is no root's, no System's and no file's. */
  lemma PlanetsApart(x: ScanIndex.Index, found: Finds, f: ScanIndex.FileEntry, h: ScanIndex.FileEntry)
    requires Scannable(x, found) && f in x.files && h in x.files
    ensures Slices.PlanetId(x, h) !in {x.universe.id, x.galaxy.id, Slices.SystemRow(x, f).id, f.id}
    ensures Slices.PlanetRow(x, f).id == Slices.PlanetId(x, f)
  {
    hide Slices.Known, Slices.AllIdsDistinct, SymbolsFit, RootsBuilt, Slices.ListedOnce;
    Slices.RowsApart(x, f, h);
    Slices.RootsApart(x, h);
    hide Slices.GroupKeys;
  }

  lemma UnderOwnPlanet(x: ScanIndex.Index, found: Finds, plugs: Plugs, files: Files, all: seq<Entity>, g: ScanIndex.FileEntry,
                       h: ScanIndex.FileEntry, e: Entity)
    requires Scannable(x, found) && Layout(x, found, plugs, files, all) && g in files && h in x.files && e in all
    requires BelowSystem(x, found, plugs, g, e)
    ensures Under(IndexOf(all), e.id, Slices.PlanetId(x, h)) <==> Slices.PlanetId(x, g) == Slices.PlanetId(x, h)
  {
    hide Under, Grounded, IndexOf, Slices.Known, Slices.AllIdsDistinct, SymbolsFit, DistinctIds, Slices.SystemRow, Slices.PlanetRow,
      Slices.MoonRow, Slices.PlanetId, OfFile, Slices.IsRow;
    var m, planet := IndexOf(all), Slices.PlanetId(x, h);
    IsStacked(x, found, plugs, files, all, g);
    ChainOfFile(x, plugs, g, m, planet);
    PlanetsApart(x, found, g, h);
    if e in found(g).symbols {
      IndexedUnderOwnId(all);
      SymbolFits(x, found, g, e);
      ChainGoesOn(m, e, planet);
      PlanetIsRow(x, h);
    }
  }

  lemma SliceOf(x: ScanIndex.Index, h: ScanIndex.FileEntry)
    requires Slices.Known(x) && Slices.AllIdsDistinct(x) && h in x.files
    ensures var files := Slices.FilesOf(x.files, Slices.GroupKeys(h.path).key);
            && h in files && Slices.Within(x, files)
            && forall f :: f in files <==> f in x.files && Slices.PlanetId(x, f) == Slices.PlanetId(x, h)
  {
    var key := Slices.GroupKeys(h.path).key;
    Slices.FilesOfMembers(x.files, key);
    Slices.GroupsOf(x);
    hide Slices.GroupKeys, Slices.FilesOf, Slices.Known, Slices.AllIdsDistinct, Slices.PlanetId, Slices.GroupIdsDistinct;
    forall f | f in x.files ensures Slices.PlanetId(x, f) == Slices.PlanetId(x, h) <==> Slices.GroupKeys(f.path).key == key {
      Slices.GroupIdsNameGroups(x, f, h);
    }
  }

  lemma {:induction false} SliceListedOnce(files: Files, key: string)
    requires Slices.ListedOnce(files)
    ensures Slices.ListedOnce(Slices.FilesOf(files, key))
  {
    hide Slices.GroupKeys;
    if files != [] {
      var n := |files| - 1;
      var before := Slices.FilesOf(files[..n], key);
      SliceListedOnce(files[..n], key);
      Slices.OthersBefore(files, n);
      Slices.FilesOfMembers(files[..n], key);
      assert before + [] == before;
      forall i | 0 <= i < |before| ensures before[i].id != files[n].id {
        assert before[i] in before;
      }
    }
  }

  /** A directory's snapshot holds, below its Planet, exactly the records of the whole. */
  lemma SliceHoldsSubtree(ctx: Context, x: ScanIndex.Index, found: Finds, plugs: Plugs, h: ScanIndex.FileEntry, edges: seq<Edge>)
    requires Scannable(x, found) && h in x.files && ContainmentEdges(ctx.(edges := edges))
    ensures var part := SnapshotOf(x, found, plugs, Slices.FilesOf(x.files, Slices.GroupKeys(h.path).key));
            HoldsSubtree(ctx, SnapshotOf(x, found, plugs, x.files), Directory(part, edges), Slices.PlanetId(x, h))
  {
    var key, planet := Slices.GroupKeys(h.path).key, Slices.PlanetId(x, h);
    var files := Slices.FilesOf(x.files, key);
    SliceOf(x, h);
    SliceListedOnce(x.files, key);
    hide ContainmentEdges, Slices.GroupKeys, Slices.FilesOf, Slices.Known, Slices.AllIdsDistinct, SymbolsFit, RootsBuilt, Slices.PlanetId,
      WellFormed, ParentFirst, SnapshotOf, Layout, Records, Slices.ListedOnce;
    SnapshotIsWellFormed(x, found, plugs, files);
    SnapshotIsParentFirst(x, found, plugs, files);
    SnapshotLayout(x, found, plugs, files);
    SnapshotLayout(x, found, plugs, x.files);
    SameRecords(x, found, plugs, files, SnapshotOf(x, found, plugs, files), SnapshotOf(x, found, plugs, x.files), h);
  }

  lemma SameRecords(x: ScanIndex.Index, found: Finds, plugs: Plugs, files: Files, part: seq<Entity>, whole: seq<Entity>,
                    h: ScanIndex.FileEntry)
    requires Scannable(x, found) && h in files && h in x.files
    requires forall f :: f in files <==> f in x.files && Slices.PlanetId(x, f) == Slices.PlanetId(x, h)
    requires Layout(x, found, plugs, files, part) && Layout(x, found, plugs, x.files, whole)
    ensures Records(part, Slices.PlanetId(x, h)) == Records(whole, Slices.PlanetId(x, h))
  {
    hide Scannable, Slices.PlanetId, BelowSystem, Layout, IndexOf, Under;
    var planet := Slices.PlanetId(x, h);
    forall e ensures e in part && Under(IndexOf(part), e.id, planet) <==> e in whole && Under(IndexOf(whole), e.id, planet) {
      InBoth(x, found, plugs, files, part, whole, h, e);
    }
  }

  lemma InBoth(x: ScanIndex.Index, found: Finds, plugs: Plugs, files: Files, part: seq<Entity>, whole: seq<Entity>,
               h: ScanIndex.FileEntry, e: Entity)
    requires Scannable(x, found) && h in files && h in x.files
    requires forall f :: f in files <==> f in x.files && Slices.PlanetId(x, f) == Slices.PlanetId(x, h)
    requires Layout(x, found, plugs, files, part) && Layout(x, found, plugs, x.files, whole)
    ensures var planet := Slices.PlanetId(x, h);
            (e in part && Under(IndexOf(part), e.id, planet)) <==> (e in whole && Under(IndexOf(whole), e.id, planet))
  {
    hide Scannable, Slices.PlanetId, BelowSystem, IndexOf, Under, DistinctIds;
    if e in part {
      BelowPlanet(x, found, plugs, files, part, h, e);
    }
    if e in whole {
      BelowPlanet(x, found, plugs, x.files, whole, h, e);
    }
  }

  // ---- The whole composition ----

  ghost predicate ScannedRoots(x: ScanIndex.Index) {
    x.universe.green == None && x.galaxy.green == None
  }

  lemma WholeHasRows(x: ScanIndex.Index, found: Finds, plugs: Plugs)
    requires Scannable(x, found) && ScannedRoots(x)
    ensures HasRows(x, SnapshotOf(x, found, plugs, x.files))
  {
    var whole := SnapshotOf(x, found, plugs, x.files);
    SnapshotLayout(x, found, plugs, x.files);
    hide SnapshotOf, Scannable, Slices.IsRow, Layout;
    forall e | e in whole && e.scale != Moon ensures Slices.IsRow(x, e.(green := None)) {
      HighIsRow(x, found, plugs, whole, e);
    }
    forall r | Slices.IsRow(x, r) && r.scale != Moon ensures r in whole && r.(green := None) == r {
      RowIsInWhole(x, found, plugs, whole, r);
    }
  }

  lemma HighIsRow(x: ScanIndex.Index, found: Finds, plugs: Plugs, whole: seq<Entity>, e: Entity)
    requires Scannable(x, found) && ScannedRoots(x) && Layout(x, found, plugs, x.files, whole) && e in whole && e.scale != Moon
    ensures Slices.IsRow(x, e.(green := None))
  {
    hide Slices.Known, Slices.AllIdsDistinct, RootsBuilt, DistinctIds, SymbolsFit, Slices.GroupKeys, Slices.ListedOnce;
    if e != x.universe && e != x.galaxy {
      var f :| f in x.files && OfFile(x, found, plugs, f, e);
      if e in found(f).symbols {
        SymbolFits(x, found, f, e);
      }
      RowIsIts(x, x.files, f, e);
    }
    assert e.(green := None) == e;
  }

  lemma RowIsInWhole(x: ScanIndex.Index, found: Finds, plugs: Plugs, whole: seq<Entity>, r: Entity)
    requires ScannedRoots(x) && Layout(x, found, plugs, x.files, whole) && Slices.IsRow(x, r) && r.scale != Moon
    ensures r in whole && r.(green := None) == r
  {
    hide DistinctIds, Slices.GroupKeys;
    if r != x.universe && r != x.galaxy {
      var f := WhoseRow(x, x.files, r);
      assert OfFile(x, found, plugs, f, r);
    }
  }

  /** One directory for each Planet: the slice of its key, with containment edges. */
  ghost predicate AreDirectories(ctx: Context, x: ScanIndex.Index, found: Finds, plugs: Plugs, planets: seq<Folder>, dirs: seq<Directory>) {
    |dirs| == |planets| && forall i :: 0 <= i < |dirs| ==>
      dirs[i].entities == SnapshotOf(x, found, plugs, Slices.FilesOf(x.files, planets[i].key)) && ContainmentEdges(ctx.(edges := dirs[i].edges))
  }

  lemma DirectoriesHold(ctx: Context, x: ScanIndex.Index, found: Finds, plugs: Plugs, planets: seq<Folder>, dirs: seq<Directory>, i: nat)
    requires Scannable(x, found) && GroupsUsed(x) && Lists(planets, x.planetIds)
    requires AreDirectories(ctx, x, found, plugs, planets, dirs) && i < |dirs|
    ensures HoldsSubtree(ctx, SnapshotOf(x, found, plugs, x.files), dirs[i], planets[i].id)
  {
    hide ContainmentEdges, HoldsSubtree, SnapshotOf, Slices.GroupKeys, Slices.FilesOf, Slices.Known, Slices.AllIdsDistinct, SymbolsFit,
      RootsBuilt, Slices.ListedOnce;
    assert planets[i] in planets;
    var h :| h in x.files && Slices.GroupKeys(h.path).key == planets[i].key;
    SliceHoldsSubtree(ctx, x, found, plugs, h, dirs[i].edges);
    assert dirs[i] == Directory(dirs[i].entities, dirs[i].edges);
  }

  /** Directories that hold the whole's subtrees, however they were put together: evaluating each by
      itself and rolling the folders up gives the whole-snapshot scan's Green. */
  lemma HeldScanIsWhole(ctx: Context, x: ScanIndex.Index, found: Finds, plugs: Plugs, systems: seq<Folder>, planets: seq<Folder>,
                        dirs: seq<Directory>, greenOf: map<Id, Code>)
    requires Scannable(x, found) && ScannedRoots(x) && GroupsUsed(x) && x.files != []
    requires Lists(systems, x.systemIds) && Lists(planets, x.planetIds)
    requires ctx.active == x.snapshot && DefaultPolicy(ctx) && ContainmentEdges(ctx)
    requires |dirs| == |planets|
    requires forall i :: 0 <= i < |dirs| ==> HoldsSubtree(ctx, SnapshotOf(x, found, plugs, x.files), dirs[i], planets[i].id)
    requires forall i :: 0 <= i < |dirs| ==>
               var alone := FullPass(ctx.(edges := dirs[i].edges), dirs[i].entities);
               planets[i].id in alone && planets[i].id in greenOf && greenOf[planets[i].id] == alone[planets[i].id].overall
    ensures ScanAgrees(ctx, x, SnapshotOf(x, found, plugs, x.files), systems, planets, dirs, greenOf)
  {
    hide ContainmentEdges, DefaultPolicy, HoldsSubtree, SnapshotOf, Slices.Known, Slices.AllIdsDistinct, SymbolsFit, RootsBuilt,
      Slices.ListedOnce, GroupsUsed, Lists, FullPass, Assess, KnownCodes, SystemsRolled, Under, IndexOf, WellFormed,
      ParentFirst, HasRows, Foldered, Agrees;
    var whole := SnapshotOf(x, found, plugs, x.files);
    SnapshotIsWellFormed(x, found, plugs, x.files);
    SnapshotIsParentFirst(x, found, plugs, x.files);
    WholeHasRows(x, found, plugs);
    RootsInWhole(x, found, plugs);
    ScanIsFoldered(ctx, x, whole, systems, planets, x.galaxy, x.universe);
    LayeredGreenIsWhole(ctx, whole, systems, planets, dirs, x.galaxy, x.universe, greenOf);
  }

  /** Everything from a Planet down is assessed alike in its directory and in the whole, and the
      rolled-up folders and roots are as the whole assesses them. */
  ghost predicate ScanAgrees(ctx: Context, x: ScanIndex.Index, whole: seq<Entity>, systems: seq<Folder>, planets: seq<Folder>,
                             dirs: seq<Directory>, greenOf: map<Id, Code>)
    requires |dirs| == |planets|
  {
    var asg := FullPass(ctx, whole);
    && (forall i, e :: 0 <= i < |dirs| && e in whole && Under(IndexOf(whole), e.id, planets[i].id) ==>
          var alone := FullPass(ctx.(edges := dirs[i].edges), dirs[i].entities);
          e.id in alone && e.id in asg && alone[e.id] == asg[e.id])
    && var codes, bare := SystemsRolled(systems, planets, greenOf), ctx.(edges := []);
       && (forall f :: f in systems || f in planets ==> Agrees(ctx, whole, codes, f.id))
       && x.galaxy.id in asg && asg[x.galaxy.id] == Assess(bare, x.galaxy, KnownCodes(codes, FolderIds(systems)))
       && x.universe.id in asg && asg[x.universe.id] == Assess(bare, x.universe, [asg[x.galaxy.id].overall])
  }

  /** From an index with distinct ids: whatever symbols and sockets the files end with, evaluating
      each slice by itself and rolling the folders up gives the whole-snapshot scan's Green, reasons
      included, from every symbol to the Universe. */
  lemma LayeredScanIsWhole(ctx: Context, x: ScanIndex.Index, found: Finds, plugs: Plugs, systems: seq<Folder>, planets: seq<Folder>,
                           dirs: seq<Directory>, greenOf: map<Id, Code>)
    requires Scannable(x, found) && ScannedRoots(x) && GroupsUsed(x) && x.files != []
    requires Lists(systems, x.systemIds) && Lists(planets, x.planetIds)
    requires ctx.active == x.snapshot && DefaultPolicy(ctx) && ContainmentEdges(ctx)
    requires AreDirectories(ctx, x, found, plugs, planets, dirs)
    requires forall i :: 0 <= i < |dirs| ==>
               var alone := FullPass(ctx.(edges := dirs[i].edges), dirs[i].entities);
               planets[i].id in alone && planets[i].id in greenOf && greenOf[planets[i].id] == alone[planets[i].id].overall
    ensures ScanAgrees(ctx, x, SnapshotOf(x, found, plugs, x.files), systems, planets, dirs, greenOf)
  {
    hide ContainmentEdges, DefaultPolicy, HoldsSubtree, SnapshotOf, Scannable, GroupsUsed, Lists, AreDirectories, FullPass, ScanAgrees;
    AsMany(ctx, x, found, plugs, planets, dirs);
    forall i | 0 <= i < |dirs| ensures HoldsSubtree(ctx, SnapshotOf(x, found, plugs, x.files), dirs[i], planets[i].id) {
      DirectoriesHold(ctx, x, found, plugs, planets, dirs, i);
    }
    HeldScanIsWhole(ctx, x, found, plugs, systems, planets, dirs, greenOf);
  }

  lemma AsMany(ctx: Context, x: ScanIndex.Index, found: Finds, plugs: Plugs, planets: seq<Folder>, dirs: seq<Directory>)
    requires AreDirectories(ctx, x, found, plugs, planets, dirs)
    ensures |dirs| == |planets|
  {
  }

  lemma RootsInWhole(x: ScanIndex.Index, found: Finds, plugs: Plugs)
    requires ScannedRoots(x)
    ensures x.galaxy in SnapshotOf(x, found, plugs, x.files) && x.universe in SnapshotOf(x, found, plugs, x.files)
    ensures x.galaxy.(green := None) == x.galaxy && x.universe.(green := None) == x.universe
  {
    hide Slices.Rows, SliceStores.SymbolsOf, Dressed;
    var whole := SnapshotOf(x, found, plugs, x.files);
    assert whole[0] == x.universe && whole[1] == x.galaxy;
  }
}
