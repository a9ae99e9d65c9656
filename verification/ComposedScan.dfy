/** The layered scan end to end: parse, match, reconcile and evaluate each directory, stitch, read
    the touched ones back and evaluate them again, roll up, and the Green is the whole snapshot's. */
module ComposedScans {
  import opened Atlas
  import opened ScanIndex
  import opened Evaluator
  import opened FullPasses
  import opened LayeredGreen
  import opened LayeredRollUp
  import opened LayeredScans
  import opened Reloads
  import opened EnrichedScans
  import opened CarriedScans
  import Identity
  import LayeredSockets
  import Rescan
  import Slices
  import SliceStores
  import Stitch
  import Subtrees

  // ---- The sockets and symbols the two scans end with ----

  function SocketsById(files: Files, of: FileEntry -> seq<Socket>, id: Id): seq<Socket> {
    if files == [] then []
    else if files[|files| - 1].id == id then of(files[|files| - 1])
    else SocketsById(files[..|files| - 1], of, id)
  }

  lemma {:induction false} SocketsByIdIs(files: Files, of: FileEntry -> seq<Socket>, f: FileEntry)
    requires Slices.ListedOnce(files) && f in files
    ensures SocketsById(files, of, f.id) == of(f)
  {
    var n := |files| - 1;
    if files[n].id != f.id {
      assert files == files[..n] + [files[n]];
      SocketsByIdIs(files[..n], of, f);
    } else {
      Slices.OthersBefore(files, n);
      assert files == files[..n] + [files[n]];
    }
  }

  /** The sockets of each file as its own directory matches them. */
  function Locals(x: Index, parse: Parses): Plugs {
    id => SocketsById(x.files, f => LocalSockets(x, parse, f), id)
  }

  /** The sockets of each file as the whole snapshot matches them. */
  function Wholes(x: Index, parse: Parses): Plugs {
    id => SocketsById(x.files, f => WholeSockets(x, parse, f), id)
  }

  lemma LocalsAre(x: Index, parse: Parses, f: FileEntry)
    requires Slices.ListedOnce(x.files) && f in x.files
    ensures Locals(x, parse)(f.id) == LocalSockets(x, parse, f) && Wholes(x, parse)(f.id) == WholeSockets(x, parse, f)
  {
    hide LocalSockets, WholeSockets;
    SocketsByIdIs(x.files, g => LocalSockets(x, parse, g), f);
    SocketsByIdIs(x.files, g => WholeSockets(x, parse, g), f);
  }

  /** The symbols of each file once a reconciliation has carried ids to them. */
  function Kept(parse: Parses, remap: map<Id, Id>): Finds {
    f => SliceStores.Found(Carried(parse, remap, f), [])
  }

  // ---- Snapshots that agree on these files ----

  lemma {:induction false} SameSymbols(a: Finds, b: Finds, files: Files)
    requires forall f :: f in files ==> a(f).symbols == b(f).symbols
    ensures SliceStores.SymbolsOf(a, files) == SliceStores.SymbolsOf(b, files)
  {
    if files != [] {
      SameSymbols(a, b, files[..|files| - 1]);
    }
  }

  lemma SameDressed(x: Index, p: Plugs, q: Plugs, files: Files)
    requires Slices.Known(x) && Slices.Within(x, files) && forall f :: f in files ==> p(f.id) == q(f.id)
    ensures Dressed(Slices.Rows(x, files), p) == Dressed(Slices.Rows(x, files), q)
  {
    hide Slices.Known, Slices.Rows, Slices.SystemRow, Slices.PlanetRow, Slices.MoonRow, Slices.Contributes;
    var rows := Slices.Rows(x, files);
    forall i | 0 <= i < |rows| ensures Dress(rows[i], p) == Dress(rows[i], q) {
      assert rows[i] in rows;
      Slices.RowsMembers(x, files, rows[i]);
      var f := WhoseRow(x, files, rows[i]);
      RowsHang(x, f);
      MoonId(x, f);
    }
  }

  lemma MoonId(x: Index, f: FileEntry)
    ensures Slices.MoonRow(x, f).id == f.id
  {
    hide Slices.GroupKeys;
  }

  lemma SameSnapshot(x: Index, a: Finds, b: Finds, p: Plugs, q: Plugs, files: Files)
    requires Slices.Known(x) && Slices.Within(x, files)
    requires forall f :: f in files ==> a(f).symbols == b(f).symbols && p(f.id) == q(f.id)
    ensures SnapshotOf(x, a, p, files) == SnapshotOf(x, b, q, files)
  {
    hide Slices.Known, Slices.Rows, Dressed, SliceStores.SymbolsOf;
    SameSymbols(a, b, files);
    SameDressed(x, p, q, files);
  }

  // ---- One directory's last evaluation ----

  /** What a second evaluation reads back: the table at that moment with the sockets its rows hold,
      a file of the Planet, and the ids the load yields. */
  datatype Reload = Reload(table: Table, held: Plugs, at: FileEntry, files: seq<Id>, loaded: seq<Id>)

  ghost predicate ReadBack(x: Index, parse: Parses, remap: map<Id, Id>, planet: Folder, r: Reload) {
    var slice := Slices.FilesOf(x.files, planet.key);
    && r.at in slice && StoredScan(r.table, x, Kept(parse, remap), r.held)
    && (forall f :: f in slice ==> r.held(f.id) == Locals(x, parse)(f.id))
    && Subtrees.IsLoaded(r.table, planet.id, x.snapshot, r.files, r.loaded)
    && forall id :: id in r.loaded ==> id in r.table
  }

  /** How a directory was last evaluated: a touched one on its rows read back and patched, any other
      on its own snapshot. */
  ghost predicate LastEvaluated(x: Index, parse: Parses, remap: map<Id, Id>, part: map<Id, Id>, fixes: map<Id, Resolution>,
                                affected: set<Id>, planet: Folder, r: Reload, all: seq<Entity>) {
    if planet.id in affected
    then ReadBack(x, parse, remap, planet, r) && AsRebuilt(all, Tops(x, r.at) + Rebuilt(r.table, r.loaded, fixes))
    else all == SnapshotOf(x, Kept(parse, part), Locals(x, parse), Slices.FilesOf(x.files, planet.key))
  }

  /** Everything the two scans share. */
  ghost predicate Scan(x: Index, parse: Parses, prevs: seq<Identity.Symbol>, remap: map<Id, Id>) {
    && Scannable(x, Fresh(parse)) && Scannable(x, Kept(parse, remap)) && SymbolsUnlit(x, Kept(parse, remap))
    && WellParsed(x, parse) && Declarable(x, parse)
    && Reconciled(remap, prevs, x, parse, Wholes(x, parse), x.files)
  }

  function KeysOf(planets: seq<Folder>): (r: seq<string>)
    ensures |r| == |planets| && forall i :: 0 <= i < |r| ==> r[i] == planets[i].key
  {
    seq(|planets|, i requires 0 <= i < |planets| => planets[i].key)
  }

  lemma PatchRelabelled(remap: map<Id, Id>, e: Entity, fixes: map<Id, Resolution>)
    requires Stitch.PatchAll(e.sockets, fixes) == e.sockets
    ensures var r := Rescan.RelabelEntity(remap, e); Stitch.PatchAll(r.sockets, fixes) == r.sockets
  {
    var r := Rescan.RelabelEntity(remap, e);
    hide Rescan.Relabel;
    forall i | 0 <= i < |r.sockets| ensures Stitch.PatchAll(r.sockets, fixes)[i] == r.sockets[i] {
      assert Stitch.PatchAll(e.sockets, fixes)[i] == e.sockets[i];
    }
  }

  /** The files of a Planet, told by its id. */
  ghost predicate OfPlanet(x: Index, slice: Files, planet: Id) {
    forall f :: f in slice <==> f in x.files && Slices.PlanetId(x, f) == planet
  }

  lemma SliceOfPlanet(x: Index, planets: seq<Folder>, i: nat) returns (h: FileEntry)
    requires Slices.Known(x) && Slices.AllIdsDistinct(x) && GroupsUsed(x) && Lists(planets, x.planetIds) && i < |planets|
    ensures h in x.files && Slices.GroupKeys(h.path).key == planets[i].key && Slices.PlanetId(x, h) == planets[i].id
    ensures OfPlanet(x, Slices.FilesOf(x.files, planets[i].key), planets[i].id)
  {
    hide Slices.FilesOf, Slices.AllIdsDistinct, Slices.GroupKeys, Slices.Known, Slices.PlanetId, Lists, GroupsUsed, OfPlanet;
    h := FileOfPlanet(x, planets, i);
    SliceOfFile(x, h);
  }

  lemma SliceOfFile(x: Index, h: FileEntry)
    requires Slices.Known(x) && Slices.AllIdsDistinct(x) && h in x.files
    ensures OfPlanet(x, Slices.FilesOf(x.files, Slices.GroupKeys(h.path).key), Slices.PlanetId(x, h))
  {
    hide Slices.FilesOf, Slices.AllIdsDistinct, Slices.GroupKeys, Slices.Known, Slices.PlanetId;
    SliceOf(x, h);
  }

  /** Every file of the slice is a file of the index with that key, listed once. */
  ghost predicate IsSlice(x: Index, slice: Files, key: string) {
    Slices.Within(x, slice) && Slices.ListedOnce(slice) && forall f :: f in slice ==> Slices.GroupKeys(f.path).key == key
  }

  lemma SliceIs(x: Index, key: string)
    requires Slices.ListedOnce(x.files)
    ensures IsSlice(x, Slices.FilesOf(x.files, key), key)
  {
    hide Slices.FilesOf, Slices.GroupKeys, Slices.ListedOnce;
    SliceListedOnce(x.files, key);
    Slices.FilesOfMembers(x.files, key);
  }

  lemma FileOfPlanet(x: Index, planets: seq<Folder>, i: nat) returns (h: FileEntry)
    requires Slices.Known(x) && GroupsUsed(x) && Lists(planets, x.planetIds) && i < |planets|
    ensures h in x.files && Slices.GroupKeys(h.path).key == planets[i].key && Slices.PlanetId(x, h) == planets[i].id
  {
    hide Slices.GroupKeys;
    assert planets[i] in planets;
    h :| h in x.files && Slices.GroupKeys(h.path).key == planets[i].key;
  }

  lemma KeysAreListed(x: Index, planets: seq<Folder>)
    requires Slices.Known(x) && Lists(planets, x.planetIds) && LayeredSockets.Distinct(KeysOf(planets))
    ensures ListsKeys(x, KeysOf(planets))
  {
    hide Slices.GroupKeys;
    forall f | f in x.files ensures Slices.GroupKeys(f.path).key in KeysOf(planets) {
      var k := Slices.GroupKeys(f.path).key;
      var i :| 0 <= i < |planets| && planets[i] == Folder(k, x.planetIds[k]);
      assert KeysOf(planets)[i] == k;
    }
  }

  /** A touched directory, read back and patched, holds the whole's subtree. */
  lemma TouchedHolds(ctx: Context, x: Index, parse: Parses, prevs: seq<Identity.Symbol>, remap: map<Id, Id>, planets: seq<Folder>,
                     fixes: map<Id, Resolution>, affected: set<Id>, i: nat, r: Reload, d: Directory)
    requires Scan(x, parse, prevs, remap) && GroupsUsed(x) && Lists(planets, x.planetIds) && LayeredSockets.Distinct(KeysOf(planets))
    requires Decisions(Directories(x, parse, KeysOf(planets), FolderIds(planets)), fixes, affected)
    requires i < |planets| && planets[i].id in affected && ReadBack(x, parse, remap, planets[i], r)
    requires AsRebuilt(d.entities, Tops(x, r.at) + Rebuilt(r.table, r.loaded, fixes)) && ContainmentEdges(ctx.(edges := d.edges))
    ensures HoldsSubtree(ctx, SnapshotOf(x, Kept(parse, remap), Wholes(x, parse), x.files), d, planets[i].id)
  {
    hide Scan, Decisions, GroupsUsed, Lists, AsRebuilt, ContainmentEdges, HoldsSubtree, ReadBack, SnapshotOf, Reloaded, Tops, Rebuilt,
      Slices.PlanetId, Slices.FilesOf, Wholes, Kept, Directories, LayeredSockets.Distinct, Scannable, Slices.Known,
      Slices.AllIdsDistinct, Slices.ListedOnce;
    ReadBackFits(x, parse, prevs, remap, planets, fixes, affected, i, r);
    AllRead(x, parse, remap, planets[i], r);
    ScannedBoth(x, parse, prevs, remap);
    var slice, found, plugs := Slices.FilesOf(x.files, planets[i].key), Kept(parse, remap), Wholes(x, parse);
    ReloadHoldsSubtree(ctx, r.table, x, found, r.held, plugs, fixes, r.at, slice, r.files, r.loaded, d.entities, d.edges);
    assert d == Directory(d.entities, d.edges);
  }

  lemma AllRead(x: Index, parse: Parses, remap: map<Id, Id>, planet: Folder, r: Reload)
    requires ReadBack(x, parse, remap, planet, r)
    ensures forall id :: id in r.loaded ==> id in r.table
  {
    hide StoredScan, Subtrees.IsLoaded, Locals, Slices.FilesOf;
  }

  lemma ScannedBoth(x: Index, parse: Parses, prevs: seq<Identity.Symbol>, remap: map<Id, Id>)
    requires Scan(x, parse, prevs, remap)
    ensures Scannable(x, Kept(parse, remap)) && Scannable(x, Fresh(parse))
    ensures Slices.Known(x) && Slices.AllIdsDistinct(x) && Slices.ListedOnce(x.files)
  {
    hide Slices.Known, Slices.AllIdsDistinct, SymbolsFit, RootsBuilt, Slices.ListedOnce;
  }

  lemma ReadBackFits(x: Index, parse: Parses, prevs: seq<Identity.Symbol>, remap: map<Id, Id>, planets: seq<Folder>,
                     fixes: map<Id, Resolution>, affected: set<Id>, i: nat, r: Reload)
    requires Scan(x, parse, prevs, remap) && GroupsUsed(x) && Lists(planets, x.planetIds) && LayeredSockets.Distinct(KeysOf(planets))
    requires Decisions(Directories(x, parse, KeysOf(planets), FolderIds(planets)), fixes, affected)
    requires i < |planets| && planets[i].id in affected && ReadBack(x, parse, remap, planets[i], r)
    ensures Reloaded(r.table, x, Kept(parse, remap), r.held, Wholes(x, parse), fixes, r.at, Slices.FilesOf(x.files, planets[i].key),
                     r.files, r.loaded)
    ensures Slices.PlanetId(x, r.at) == planets[i].id
  {
    hide Scan, Scannable, Decisions, GroupsUsed, Lists, StoredScan, Subtrees.IsLoaded, Slices.PlanetId, Slices.FilesOf, Locals, Wholes,
      Kept, Directories, LayeredSockets.Distinct, PatchFits, SymbolsUnlit, Slices.Known, Slices.AllIdsDistinct, Slices.ListedOnce,
      IsSlice, Slices.GroupKeys, OfPlanet, Reloaded;
    ScannedBoth(x, parse, prevs, remap);
    var h := SliceOfPlanet(x, planets, i);
    SliceFits(x, parse, prevs, remap, planets, fixes, affected, i, r.held);
    UnlitSymbols(x, parse, prevs, remap);
    IsReload(x, Kept(parse, remap), Wholes(x, parse), fixes, Slices.FilesOf(x.files, planets[i].key), planets[i].id, r);
  }

  lemma IsReload(x: Index, found: Finds, plugs: Plugs, fixes: map<Id, Resolution>, slice: Files, planet: Id, r: Reload)
    requires StoredScan(r.table, x, found, r.held) && SymbolsUnlit(x, found) && OfPlanet(x, slice, planet) && r.at in slice
    requires PatchFits(slice, found, r.held, plugs, fixes) && Subtrees.IsLoaded(r.table, planet, x.snapshot, r.files, r.loaded)
    ensures Reloaded(r.table, x, found, r.held, plugs, fixes, r.at, slice, r.files, r.loaded) && Slices.PlanetId(x, r.at) == planet
  {
    hide StoredScan, SymbolsUnlit, PatchFits, Subtrees.IsLoaded, Slices.PlanetId;
  }

  lemma UnlitSymbols(x: Index, parse: Parses, prevs: seq<Identity.Symbol>, remap: map<Id, Id>)
    requires Scan(x, parse, prevs, remap)
    ensures SymbolsUnlit(x, Kept(parse, remap))
  {
    hide Scannable, SymbolsUnlit, WellParsed, Declarable, Reconciled;
  }

  lemma SliceFits(x: Index, parse: Parses, prevs: seq<Identity.Symbol>, remap: map<Id, Id>, planets: seq<Folder>,
                  fixes: map<Id, Resolution>, affected: set<Id>, i: nat, held: Plugs)
    requires Scan(x, parse, prevs, remap) && Lists(planets, x.planetIds) && LayeredSockets.Distinct(KeysOf(planets))
    requires Decisions(Directories(x, parse, KeysOf(planets), FolderIds(planets)), fixes, affected)
    requires i < |planets| && planets[i].id in affected
    requires forall f :: f in Slices.FilesOf(x.files, planets[i].key) ==> held(f.id) == Locals(x, parse)(f.id)
    ensures PatchFits(Slices.FilesOf(x.files, planets[i].key), Kept(parse, remap), held, Wholes(x, parse), fixes)
  {
    hide Scan, Scannable, Decisions, Lists, Slices.FilesOf, Locals, Wholes, Directories, LayeredSockets.Distinct, Slices.Known,
      Slices.AllIdsDistinct, Slices.ListedOnce, Slices.GroupKeys, ListsKeys, Carried, Stitch.PatchAll;
    var slice := Slices.FilesOf(x.files, planets[i].key);
    ScannedBoth(x, parse, prevs, remap);
    KeysAreListed(x, planets);
    SliceIs(x, planets[i].key);
    forall f | f in slice
      ensures Stitch.PatchAll(held(f.id), fixes) == Wholes(x, parse)(f.id)
      ensures forall s :: s in Kept(parse, remap)(f).symbols ==> Stitch.PatchAll(s.sockets, fixes) == s.sockets
    {
      PatchFitsFile(x, parse, prevs, remap, planets, fixes, affected, i, f);
    }
  }

  lemma PatchFitsFile(x: Index, parse: Parses, prevs: seq<Identity.Symbol>, remap: map<Id, Id>, planets: seq<Folder>,
                      fixes: map<Id, Resolution>, affected: set<Id>, i: nat, f: FileEntry)
    requires Scan(x, parse, prevs, remap) && ListsKeys(x, KeysOf(planets))
    requires Decisions(Directories(x, parse, KeysOf(planets), FolderIds(planets)), fixes, affected)
    requires i < |planets| && planets[i].id in affected && f in x.files && Slices.GroupKeys(f.path).key == planets[i].key
    ensures Stitch.PatchAll(Locals(x, parse)(f.id), fixes) == Wholes(x, parse)(f.id)
    ensures forall s :: s in Carried(parse, remap, f) ==> Stitch.PatchAll(s.sockets, fixes) == s.sockets
  {
    hide Slices.Known, Slices.AllIdsDistinct, WellParsed, Declarable, Reconciled, Decisions, SymbolsUnlit, SymbolsFit, Slices.GroupKeys,
      LocalSockets, WholeSockets, Locals, Wholes, Directories, Stitch.PatchAll, ListsKeys, Slices.ListedOnce, Rescan.RelabelEntity;
    FileEndsWhole(x, parse, KeysOf(planets), FolderIds(planets), i, fixes, affected, f);
    LocalsAre(x, parse, f);
    forall s | s in Carried(parse, remap, f) ensures Stitch.PatchAll(s.sockets, fixes) == s.sockets {
      var k :| 0 <= k < |parse(f).symbols| && s == Rescan.RelabelEntity(remap, parse(f).symbols[k]);
      assert parse(f).symbols[k] in parse(f).symbols;
      PatchRelabelled(remap, parse(f).symbols[k], fixes);
    }
  }

  /** Any other directory held the whole's subtree from the start. */
  lemma UntouchedHolds(ctx: Context, x: Index, parse: Parses, prevs: seq<Identity.Symbol>, remap: map<Id, Id>, planets: seq<Folder>,
                       partPrevs: seq<Identity.Symbol>, part: map<Id, Id>, fixes: map<Id, Resolution>, affected: set<Id>, i: nat, d: Directory)
    requires Scan(x, parse, prevs, remap) && GroupsUsed(x) && Lists(planets, x.planetIds) && LayeredSockets.Distinct(KeysOf(planets))
    requires Decisions(Directories(x, parse, KeysOf(planets), FolderIds(planets)), fixes, affected)
    requires i < |planets| && planets[i].id !in affected && ContainmentEdges(ctx.(edges := d.edges))
    requires var slice := Slices.FilesOf(x.files, planets[i].key);
             && Reconciled(part, partPrevs, x, parse, Locals(x, parse), slice) && SamePriors(prevs, partPrevs, slice)
             && d.entities == SnapshotOf(x, Kept(parse, part), Locals(x, parse), slice)
    ensures HoldsSubtree(ctx, SnapshotOf(x, Kept(parse, remap), Wholes(x, parse), x.files), d, planets[i].id)
  {
    var slice := Slices.FilesOf(x.files, planets[i].key);
    SameOnSlice(x, parse, prevs, remap, planets, partPrevs, part, fixes, affected, i);
    ScannedBoth(x, parse, prevs, remap);
    var h := SliceOfPlanet(x, planets, i);
    hide Scan, Decisions, GroupsUsed, Lists, ContainmentEdges, HoldsSubtree, SnapshotOf, Slices.PlanetId, Slices.FilesOf, Wholes, Locals,
      Kept, Directories, LayeredSockets.Distinct, Scannable, Slices.Known, Slices.AllIdsDistinct, Slices.ListedOnce, Slices.GroupKeys,
      Reconciled, SamePriors, OfPlanet;
    SliceHoldsSubtree(ctx, x, Kept(parse, remap), Wholes(x, parse), h, d.edges);
    assert d == Directory(d.entities, d.edges);
  }

  lemma SameOnSlice(x: Index, parse: Parses, prevs: seq<Identity.Symbol>, remap: map<Id, Id>, planets: seq<Folder>,
                    partPrevs: seq<Identity.Symbol>, part: map<Id, Id>, fixes: map<Id, Resolution>, affected: set<Id>, i: nat)
    requires Scan(x, parse, prevs, remap) && Lists(planets, x.planetIds) && LayeredSockets.Distinct(KeysOf(planets))
    requires Decisions(Directories(x, parse, KeysOf(planets), FolderIds(planets)), fixes, affected)
    requires i < |planets| && planets[i].id !in affected
    requires var slice := Slices.FilesOf(x.files, planets[i].key);
             Reconciled(part, partPrevs, x, parse, Locals(x, parse), slice) && SamePriors(prevs, partPrevs, slice)
    ensures var slice := Slices.FilesOf(x.files, planets[i].key);
            SnapshotOf(x, Kept(parse, part), Locals(x, parse), slice) == SnapshotOf(x, Kept(parse, remap), Wholes(x, parse), slice)
  {
    hide Scan, Scannable, Decisions, Lists, SnapshotOf, Slices.FilesOf, Locals, Wholes, Directories, LayeredSockets.Distinct,
      Slices.Known, Slices.AllIdsDistinct, Slices.ListedOnce, Slices.GroupKeys, ListsKeys, Carried, Reconciled, SamePriors;
    var slice := Slices.FilesOf(x.files, planets[i].key);
    ScannedBoth(x, parse, prevs, remap);
    KeysAreListed(x, planets);
    SliceIs(x, planets[i].key);
    forall f | f in slice
      ensures Carried(parse, part, f) == Carried(parse, remap, f) && Locals(x, parse)(f.id) == Wholes(x, parse)(f.id)
    {
      SameAtFile(x, parse, prevs, remap, planets, partPrevs, part, fixes, affected, i, f);
    }
    SameSnapshot(x, Kept(parse, part), Kept(parse, remap), Locals(x, parse), Wholes(x, parse), slice);
  }

  lemma SameAtFile(x: Index, parse: Parses, prevs: seq<Identity.Symbol>, remap: map<Id, Id>, planets: seq<Folder>,
                   partPrevs: seq<Identity.Symbol>, part: map<Id, Id>, fixes: map<Id, Resolution>, affected: set<Id>, i: nat,
                   f: FileEntry)
    requires Scan(x, parse, prevs, remap) && ListsKeys(x, KeysOf(planets))
    requires Decisions(Directories(x, parse, KeysOf(planets), FolderIds(planets)), fixes, affected)
    requires i < |planets| && planets[i].id !in affected && f in x.files && Slices.GroupKeys(f.path).key == planets[i].key
    requires var slice := Slices.FilesOf(x.files, planets[i].key);
             && Slices.Within(x, slice) && Slices.ListedOnce(slice) && f in slice
             && Reconciled(part, partPrevs, x, parse, Locals(x, parse), slice) && SamePriors(prevs, partPrevs, slice)
    ensures Carried(parse, part, f) == Carried(parse, remap, f) && Locals(x, parse)(f.id) == Wholes(x, parse)(f.id)
  {
    var slice := Slices.FilesOf(x.files, planets[i].key);
    hide SymbolsFit, RootsBuilt, WellParsed, Declarable, Reconciled, Decisions, SymbolsUnlit, Slices.FilesOf, Slices.GroupKeys,
      LocalSockets, WholeSockets, Locals, Wholes, Directories, SamePriors, Carried, Slices.Known, Slices.AllIdsDistinct,
      Slices.ListedOnce, ListsKeys;
    SameCarried(x, parse, Wholes(x, parse), Locals(x, parse), slice, remap, part, prevs, partPrevs, f);
    FileEndsWhole(x, parse, KeysOf(planets), FolderIds(planets), i, fixes, affected, f);
    LocalsAre(x, parse, f);
  }

  /** Directory by directory: parsed, matched, reconciled and evaluated alone, touched ones patched and
      evaluated again from the store, folders rolled up. Every entity ends with the Green, reasons
      included, that parsing, matching, reconciling and evaluating the whole snapshot gives it. */
  lemma ComposedScanIsWhole(
    ctx: Context, x: Index, parse: Parses, prevs: seq<Identity.Symbol>, remap: map<Id, Id>, systems: seq<Folder>, planets: seq<Folder>,
    partPrevs: seq<seq<Identity.Symbol>>, parts: seq<map<Id, Id>>, fixes: map<Id, Resolution>, affected: set<Id>,
    reloads: seq<Reload>, dirs: seq<Directory>, greenOf: map<Id, Code>)
    requires Scan(x, parse, prevs, remap) && ScannedRoots(x) && GroupsUsed(x) && x.files != []
    requires Lists(systems, x.systemIds) && Lists(planets, x.planetIds) && LayeredSockets.Distinct(KeysOf(planets))
    requires ctx.active == x.snapshot && DefaultPolicy(ctx) && ContainmentEdges(ctx)
    requires Decisions(Directories(x, parse, KeysOf(planets), FolderIds(planets)), fixes, affected)
    requires |partPrevs| == |parts| == |reloads| == |dirs| == |planets|
    requires forall i :: 0 <= i < |planets| ==>
               var slice := Slices.FilesOf(x.files, planets[i].key);
               && Reconciled(parts[i], partPrevs[i], x, parse, Locals(x, parse), slice) && SamePriors(prevs, partPrevs[i], slice)
               && LastEvaluated(x, parse, remap, parts[i], fixes, affected, planets[i], reloads[i], dirs[i].entities)
               && ContainmentEdges(ctx.(edges := dirs[i].edges))
    requires forall i :: 0 <= i < |dirs| ==>
               var alone := FullPass(ctx.(edges := dirs[i].edges), dirs[i].entities);
               planets[i].id in alone && planets[i].id in greenOf && greenOf[planets[i].id] == alone[planets[i].id].overall
    ensures ScanAgrees(ctx, x, SnapshotOf(x, Kept(parse, remap), Wholes(x, parse), x.files), systems, planets, dirs, greenOf)
  {
    hide Scannable, WellParsed, Declarable, Reconciled, Decisions, GroupsUsed, Lists, ContainmentEdges, DefaultPolicy, HoldsSubtree,
      SnapshotOf, SymbolsUnlit, Slices.FilesOf, Locals, Wholes, Directories, SamePriors, FullPass, ScanAgrees, ReadBack, AsRebuilt, Tops,
      Rebuilt, LayeredSockets.Distinct, ScannedRoots;
    forall i | 0 <= i < |dirs|
      ensures HoldsSubtree(ctx, SnapshotOf(x, Kept(parse, remap), Wholes(x, parse), x.files), dirs[i], planets[i].id)
    {
      if planets[i].id in affected {
        TouchedHolds(ctx, x, parse, prevs, remap, planets, fixes, affected, i, reloads[i], dirs[i]);
      } else {
        UntouchedHolds(ctx, x, parse, prevs, remap, planets, partPrevs[i], parts[i], fixes, affected, i, dirs[i]);
      }
    }
    HeldScanIsWhole(ctx, x, Kept(parse, remap), Wholes(x, parse), systems, planets, dirs, greenOf);
  }
}
