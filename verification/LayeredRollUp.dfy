/** The folder roll-up that ends the layered scan: Systems folded from Planets that were each
    evaluated in isolation, then the Galaxy and the Universe assessed without any edges. */
module LayeredRollUp {
  import opened Atlas
  import opened Hierarchy
  import opened Evaluator
  import opened RollUp
  import opened FullPasses
  import opened LayeredGreen
  import opened Isolation
  import ScanIndex
  import Slices

  /** A named entry of the index: a System under its name, a Planet under its key. */
  datatype Folder = Folder(key: string, id: Id)

  function FolderIds(folders: seq<Folder>): (ids: seq<Id>)
    ensures |ids| == |folders| && forall i :: 0 <= i < |ids| ==> ids[i] == folders[i].id
  {
    seq(|folders|, i requires 0 <= i < |folders| => folders[i].id)
  }

  /** The known codes of the Planets of one System, in key order. */
  function PlanetCodes(planets: seq<Folder>, system: string, greenOf: map<Id, Code>): seq<Code> {
    if planets == [] then []
    else
      var last := planets[|planets| - 1];
      PlanetCodes(planets[..|planets| - 1], system, greenOf)
      + (if Slices.PlanetKeySystem(last.key) == system && last.id in greenOf then [greenOf[last.id]] else [])
  }

  /** The table of codes once every System has been folded into it. */
  function SystemsRolled(systems: seq<Folder>, planets: seq<Folder>, greenOf: map<Id, Code>): map<Id, Code> {
    if systems == [] then greenOf
    else
      var last := systems[|systems| - 1];
      var before := SystemsRolled(systems[..|systems| - 1], planets, greenOf);
      before[last.id := WeakestOf(PlanetCodes(planets, last.key, before))]
  }

  lemma NoPlanets(system: string, greenOf: map<Id, Code>)
    ensures WeakestOf(PlanetCodes([], system, greenOf)) == Green
  {
  }

  lemma PlanetCodesStep(planets: seq<Folder>, system: string, greenOf: map<Id, Code>, i: nat)
    requires i < |planets|
    ensures PlanetCodes(planets[..i + 1], system, greenOf) ==
            if Slices.PlanetKeySystem(planets[i].key) == system && planets[i].id in greenOf
            then PlanetCodes(planets[..i], system, greenOf) + [greenOf[planets[i].id]]
            else PlanetCodes(planets[..i], system, greenOf)
  {
    assert planets[..i + 1][..i] == planets[..i];
  }

  method FoldPlanets(planets: seq<Folder>, system: string, greenOf: map<Id, Code>) returns (code: Code)
    ensures code == WeakestOf(PlanetCodes(planets, system, greenOf))
  {
    hide Slices.PlanetKeySystem, PlanetCodes, WeakestOf;
    code := Green;
    NoPlanets(system, greenOf);
    for i := 0 to |planets|
      invariant code == WeakestOf(PlanetCodes(planets[..i], system, greenOf))
    {
      PlanetCodesStep(planets, system, greenOf, i);
      if Slices.PlanetKeySystem(planets[i].key) == system && planets[i].id in greenOf {
        OneMore(PlanetCodes(planets[..i], system, greenOf), greenOf[planets[i].id]);
        code := Weakest(code, greenOf[planets[i].id]);
      }
    }
    assert planets[..|planets|] == planets;
  }

  method RollFolders(systems: seq<Folder>, planets: seq<Folder>, greenOf: map<Id, Code>, galaxy: Entity,
                     universe: Entity, ctx: Context)
    returns (codes: map<Id, Code>, galaxyGreen: Assessment, universeGreen: Assessment)
    ensures codes == SystemsRolled(systems, planets, greenOf)
    ensures galaxyGreen == Assess(ctx.(edges := []), galaxy, KnownCodes(codes, FolderIds(systems)))
    ensures universeGreen == Assess(ctx.(edges := []), universe, [galaxyGreen.overall])
  {
    hide Assess, PlanetCodes, WeakestOf, KnownCodes;
    codes := greenOf;
    for i := 0 to |systems|
      invariant codes == SystemsRolled(systems[..i], planets, greenOf)
    {
      assert systems[..i + 1][..i] == systems[..i];
      var code := FoldPlanets(planets, systems[i].key, codes);
      codes := codes[systems[i].id := code];
    }
    assert systems[..|systems|] == systems;
    var systemCodes := ChildStates(codes, FolderIds(systems));
    galaxyGreen := EvaluateEntity(galaxy, ctx.(edges := []), systemCodes, []);
    universeGreen := EvaluateEntity(universe, ctx.(edges := []), [galaxyGreen.overall], []);
  }

  // ---- The tree the folders stand for ----

  ghost function ChildSet(entities: seq<Entity>, id: Id): set<Id> {
    set e | e in entities && e.parent == Some(id) :: e.id
  }

  ghost function PlanetsOf(planets: seq<Folder>, system: string): set<Id> {
    set p | p in planets && Slices.PlanetKeySystem(p.key) == system :: p.id
  }

  ghost function SystemIds(systems: seq<Folder>): set<Id> {
    set s | s in systems :: s.id
  }

  /** The entity `id` has no child of its own scale. */
  ghost predicate KidsAreLower(entities: seq<Entity>, e: Entity) {
    forall k :: k in entities && k.parent == Some(e.id) ==> k.scale != e.scale
  }

  ghost predicate IsFolder(ctx: Context, entities: seq<Entity>, id: Id) {
    exists e :: e in entities && e.id == id && ScannedFolder(ctx, e) && KidsAreLower(entities, e)
  }

  /** The index lists the tree's folders: the Galaxy's children are the Systems, and a System's
      are the Planets whose keys it begins. No folder is empty, and all are as the scanner
      builds them. */
  ghost predicate Foldered(ctx: Context, whole: seq<Entity>, systems: seq<Folder>, planets: seq<Folder>,
                           galaxy: Entity, universe: Entity) {
    && galaxy in whole && universe in whole
    && KidsAreLower(whole, galaxy) && KidsAreLower(whole, universe)
    && ChildSet(whole, universe.id) == {galaxy.id} && ChildSet(whole, galaxy.id) == SystemIds(systems)
    && (forall s :: s in systems ==>
          IsFolder(ctx, whole, s.id) && PlanetsOf(planets, s.key) != {} && ChildSet(whole, s.id) == PlanetsOf(planets, s.key))
    && (forall p :: p in planets ==> IsFolder(ctx, whole, p.id))
  }

  /** The pass over the whole snapshot, read as a table of codes. */
  ghost function WholeCodes(ctx: Context, whole: seq<Entity>): map<Id, Code> {
    Overalls(FullPass(ctx, whole))
  }

  ghost predicate Agrees(ctx: Context, whole: seq<Entity>, greenOf: map<Id, Code>, id: Id) {
    id in greenOf && id in WholeCodes(ctx, whole) && greenOf[id] == WholeCodes(ctx, whole)[id]
  }

  /** Codes that list exactly the children's, in any order and number, assess an entity as the
      whole-snapshot pass does. */
  lemma AssessedAgainst(ctx: Context, whole: seq<Entity>, e: Entity, kids: seq<Code>)
    requires WellFormed(whole) && ParentFirst(whole) && e in whole && KidsAreLower(whole, e)
    requires forall c :: c in kids <==>
               exists id :: id in ChildSet(whole, e.id) && id in WholeCodes(ctx, whole) && WholeCodes(ctx, whole)[id] == c
    ensures e.id in FullPass(ctx, whole) && FullPass(ctx, whole)[e.id] == Assess(ctx, e, kids)
  {
    hide FullPass, Assess, KnownCodes, LowerKids, WellFormed, ParentFirst, WeakestOf;
    var j :| 0 <= j < |whole| && whole[j] == e;
    ParentFirstPass(ctx, whole, j);
    LowerKidsAre(whole, e);
    var all, lower := WholeCodes(ctx, whole), LowerKids(whole, e);
    KnownCodesAre(all, lower);
    assert forall c :: c in lower <==> c in ChildSet(whole, e.id);
    SameCodesSameWeakest(kids, KnownCodes(all, lower));
    OnlyWeakestChildMatters(ctx, e, kids, KnownCodes(all, lower));
  }

  lemma {:induction false} PlanetCodesAre(planets: seq<Folder>, system: string, greenOf: map<Id, Code>)
    ensures forall c :: c in PlanetCodes(planets, system, greenOf) <==>
              exists id :: id in PlanetsOf(planets, system) && id in greenOf && greenOf[id] == c
  {
    hide Slices.PlanetKeySystem;
    if planets != [] {
      var n := |planets| - 1;
      PlanetCodesAre(planets[..n], system, greenOf);
      assert planets == planets[..n] + [planets[n]];
      assert PlanetsOf(planets, system) ==
             PlanetsOf(planets[..n], system) + (if Slices.PlanetKeySystem(planets[n].key) == system then {planets[n].id} else {});
    }
  }

  /** A folder the scanner built is no lighter than Unknown once assessed. */
  lemma FolderIsDark(ctx: Context, whole: seq<Entity>, id: Id)
    requires WellFormed(whole) && ParentFirst(whole) && DefaultPolicy(ctx) && ContainmentEdges(ctx)
    requires IsFolder(ctx, whole, id)
    ensures id in WholeCodes(ctx, whole) && WholeCodes(ctx, whole)[id].Rank() <= Unknown.Rank()
  {
    hide FullPass, Assess, KnownCodes, LowerKids, WellFormed, ParentFirst, WeakestOf, LocalCode, ScannedFolder,
      DefaultPolicy, ContainmentEdges, KidsAreLower;
    var j :| 0 <= j < |whole| && whole[j].id == id && ScannedFolder(ctx, whole[j]);
    ParentFirstPass(ctx, whole, j);
    ScannedFolderIsUnknown(ctx, whole[j]);
    OverallIsLocalAndChildren(ctx, whole[j], KnownCodes(WholeCodes(ctx, whole), LowerKids(whole, whole[j])));
  }

  /** One System's fold is the code the whole-snapshot pass gives it. */
  lemma SystemFoldIsWhole(ctx: Context, whole: seq<Entity>, planets: seq<Folder>, system: Folder, greenOf: map<Id, Code>)
    requires WellFormed(whole) && ParentFirst(whole) && DefaultPolicy(ctx) && ContainmentEdges(ctx)
    requires IsFolder(ctx, whole, system.id) && forall p :: p in planets ==> IsFolder(ctx, whole, p.id)
    requires PlanetsOf(planets, system.key) != {} && ChildSet(whole, system.id) == PlanetsOf(planets, system.key)
    requires forall p :: p in planets ==> Agrees(ctx, whole, greenOf, p.id)
    ensures system.id in WholeCodes(ctx, whole)
    ensures WeakestOf(PlanetCodes(planets, system.key, greenOf)) == WholeCodes(ctx, whole)[system.id]
  {
    hide FullPass, Assess, PlanetCodes, WellFormed, ParentFirst, WeakestOf, LocalCode, ScannedFolder, DefaultPolicy,
      ContainmentEdges, KidsAreLower;
    var e :| e in whole && e.id == system.id && ScannedFolder(ctx, e) && KidsAreLower(whole, e);
    var kids := PlanetCodes(planets, system.key, greenOf);
    PlanetCodesAre(planets, system.key, greenOf);
    assert forall id :: id in PlanetsOf(planets, system.key) ==> Agrees(ctx, whole, greenOf, id);
    AssessedAgainst(ctx, whole, e, kids);
    var dark :| dark in PlanetsOf(planets, system.key);
    FolderIsDark(ctx, whole, dark);
    WeakestOfIsLeast(kids);
    assert greenOf[dark] in kids;
    ScannedFolderIsUnknown(ctx, e);
    FoldIsAssessedIff(ctx, e, kids);
  }

  lemma {:induction false} SystemsRolledAgree(ctx: Context, whole: seq<Entity>, systems: seq<Folder>,
                                              planets: seq<Folder>, greenOf: map<Id, Code>)
    requires WellFormed(whole) && ParentFirst(whole) && DefaultPolicy(ctx) && ContainmentEdges(ctx)
    requires forall s :: s in systems ==>
               IsFolder(ctx, whole, s.id) && PlanetsOf(planets, s.key) != {} && ChildSet(whole, s.id) == PlanetsOf(planets, s.key)
    requires forall p :: p in planets ==> IsFolder(ctx, whole, p.id) && Agrees(ctx, whole, greenOf, p.id)
    ensures forall f :: f in systems || f in planets ==> Agrees(ctx, whole, SystemsRolled(systems, planets, greenOf), f.id)
    decreases |systems|
  {
    hide FullPass, PlanetCodes, PlanetsOf, ChildSet, WellFormed, ParentFirst, WeakestOf, IsFolder, DefaultPolicy,
      ContainmentEdges;
    if systems != [] {
      var n := |systems| - 1;
      assert systems == systems[..n] + [systems[n]];
      SystemsRolledAgree(ctx, whole, systems[..n], planets, greenOf);
      SystemFoldIsWhole(ctx, whole, planets, systems[n], SystemsRolled(systems[..n], planets, greenOf));
    }
  }

  lemma {:induction false} FolderCodesAre(codes: map<Id, Code>, systems: seq<Folder>)
    ensures forall c :: c in KnownCodes(codes, FolderIds(systems)) <==>
              exists id :: id in SystemIds(systems) && id in codes && codes[id] == c
  {
    hide KnownCodes;
    KnownCodesAre(codes, FolderIds(systems));
    assert forall id :: id in FolderIds(systems) <==> id in SystemIds(systems) by {
      forall s | s in systems ensures s.id in FolderIds(systems) {
        var i :| 0 <= i < |systems| && systems[i] == s;
        assert FolderIds(systems)[i] == s.id;
      }
    }
  }

  /** From Planets that agree with the whole-snapshot pass, the roll-up ends with the code it
      gives every System and the full assessment it gives the Galaxy and the Universe. */
  lemma RollUpIsWhole(ctx: Context, whole: seq<Entity>, systems: seq<Folder>, planets: seq<Folder>,
                      galaxy: Entity, universe: Entity, greenOf: map<Id, Code>)
    requires WellFormed(whole) && ParentFirst(whole) && DefaultPolicy(ctx) && ContainmentEdges(ctx)
    requires Foldered(ctx, whole, systems, planets, galaxy, universe)
    requires forall p :: p in planets ==> Agrees(ctx, whole, greenOf, p.id)
    ensures var codes, asg, bare := SystemsRolled(systems, planets, greenOf), FullPass(ctx, whole), ctx.(edges := []);
            && (forall f :: f in systems || f in planets ==> Agrees(ctx, whole, codes, f.id))
            && galaxy.id in asg && asg[galaxy.id] == Assess(bare, galaxy, KnownCodes(codes, FolderIds(systems)))
            && universe.id in asg && asg[universe.id] == Assess(bare, universe, [asg[galaxy.id].overall])
  {
    hide FullPass, Assess, KnownCodes, PlanetsOf, WellFormed, ParentFirst, SystemsRolled, IsFolder, DefaultPolicy,
      ContainmentEdges, KidsAreLower;
    SystemsRolledAgree(ctx, whole, systems, planets, greenOf);
    var codes := SystemsRolled(systems, planets, greenOf);
    var kids := KnownCodes(codes, FolderIds(systems));
    FolderCodesAre(codes, systems);
    assert forall id :: id in SystemIds(systems) ==> Agrees(ctx, whole, codes, id);
    AssessedAgainst(ctx, whole, galaxy, kids);
    ContainmentAddsNothing(ctx, galaxy, kids);
    var top := [FullPass(ctx, whole)[galaxy.id].overall];
    assert forall c :: c in top <==> c == top[0];
    AssessedAgainst(ctx, whole, universe, top);
    ContainmentAddsNothing(ctx, universe, top);
  }

  /** One directory as the layered scan evaluates it: the subtree of its Planet under the shared
      roots, with whatever containment edges were loaded. */
  datatype Directory = Directory(entities: seq<Entity>, edges: seq<Edge>)

  ghost predicate HoldsSubtree(ctx: Context, whole: seq<Entity>, d: Directory, planet: Id) {
    && WellFormed(d.entities) && ParentFirst(d.entities) && ContainmentEdges(ctx.(edges := d.edges))
    && Records(d.entities, planet) == Records(whole, planet)
  }

  /** The layered scan's Green is the whole-snapshot scan's. Everything from a Planet down is
      assessed identically in its own directory, and folding those Planets gives the same codes
      for Systems and the same assessments for the roots. */
  lemma LayeredGreenIsWhole(ctx: Context, whole: seq<Entity>, systems: seq<Folder>, planets: seq<Folder>,
                            dirs: seq<Directory>,
                            galaxy: Entity, universe: Entity, greenOf: map<Id, Code>)
    requires WellFormed(whole) && ParentFirst(whole) && DefaultPolicy(ctx) && ContainmentEdges(ctx)
    requires Foldered(ctx, whole, systems, planets, galaxy, universe)
    requires |dirs| == |planets| && forall i :: 0 <= i < |dirs| ==> HoldsSubtree(ctx, whole, dirs[i], planets[i].id)
    requires forall i :: 0 <= i < |dirs| ==>
               var alone := FullPass(ctx.(edges := dirs[i].edges), dirs[i].entities);
               planets[i].id in alone && planets[i].id in greenOf && greenOf[planets[i].id] == alone[planets[i].id].overall
    ensures forall i, e :: 0 <= i < |dirs| && e in whole && Under(IndexOf(whole), e.id, planets[i].id) ==>
              var alone := FullPass(ctx.(edges := dirs[i].edges), dirs[i].entities);
              e.id in alone && e.id in FullPass(ctx, whole) && alone[e.id] == FullPass(ctx, whole)[e.id]
    ensures var codes, asg, bare := SystemsRolled(systems, planets, greenOf), FullPass(ctx, whole), ctx.(edges := []);
            && (forall f :: f in systems || f in planets ==> Agrees(ctx, whole, codes, f.id))
            && galaxy.id in asg && asg[galaxy.id] == Assess(bare, galaxy, KnownCodes(codes, FolderIds(systems)))
            && universe.id in asg && asg[universe.id] == Assess(bare, universe, [asg[galaxy.id].overall])
  {
    hide FullPass, Assess, KnownCodes, WellFormed, ParentFirst, SystemsRolled, Under, IndexOf, Records,
      DefaultPolicy, ContainmentEdges;
    forall i, e | 0 <= i < |dirs| && e in whole && Under(IndexOf(whole), e.id, planets[i].id)
      ensures var alone := FullPass(ctx.(edges := dirs[i].edges), dirs[i].entities);
              e.id in alone && e.id in FullPass(ctx, whole) && alone[e.id] == FullPass(ctx, whole)[e.id]
    {
      IsolatedIsWhole(ctx, dirs[i].edges, whole, dirs[i].entities, planets[i].id, e);
    }
    forall p | p in planets ensures Agrees(ctx, whole, greenOf, p.id) {
      var i :| 0 <= i < |planets| && planets[i] == p;
      var e := PlanetEntity(ctx, whole, p.id);
      assert Under(IndexOf(whole), e.id, planets[i].id);
    }
    RollUpIsWhole(ctx, whole, systems, planets, galaxy, universe, greenOf);
  }

  lemma PlanetEntity(ctx: Context, whole: seq<Entity>, id: Id) returns (e: Entity)
    requires IsFolder(ctx, whole, id)
    ensures e in whole && e.id == id && Under(IndexOf(whole), e.id, id)
  {
    e :| e in whole && e.id == id && ScannedFolder(ctx, e);
    assert Climb(IndexOf(whole), e.id, 0) == Some(id);
  }

  // ---- What the scanner builds is foldered ----

  ghost predicate Lists(folders: seq<Folder>, ids: map<string, Id>) {
    && (forall f :: f in folders ==> f.key in ids && ids[f.key] == f.id)
    && (forall k :: k in ids ==> Folder(k, ids[k]) in folders)
  }

  /** The index names no group without a file. */
  ghost predicate GroupsUsed(x: ScanIndex.Index) {
    && (forall k :: k in x.systemIds ==> exists f :: f in x.files && Slices.GroupKeys(f.path).system == k)
    && (forall k :: k in x.planetIds ==> exists f :: f in x.files && Slices.GroupKeys(f.path).key == k)
  }

  ghost predicate RootsBuilt(x: ScanIndex.Index) {
    && x.universe.scale == Universe && x.universe.parent == None
    && x.galaxy.scale == Galaxy && x.galaxy.parent == Some(x.universe.id)
  }

  /** Above the Moons, the snapshot holds exactly the rows of the index, whatever their Green. */
  ghost predicate HasRows(x: ScanIndex.Index, whole: seq<Entity>) {
    && (forall e :: e in whole && e.scale != Moon ==> Slices.IsRow(x, e.(green := None)))
    && (forall r :: Slices.IsRow(x, r) && r.scale != Moon ==> exists e :: e in whole && e.(green := None) == r)
    && x.universe.green == None && x.galaxy.green == None
  }

  lemma NonRootIsPlaced(whole: seq<Entity>, e: Entity)
    requires WellFormed(whole) && e in whole && e.parent.Some?
    ensures PlacedUnder(IndexOf(whole), e)
  {
    hide IndexOf, PlacedUnder, Climb, Roots;
    RootIsUnique(whole);
  }

  lemma MoonsHangLow(whole: seq<Entity>, e: Entity, p: Entity)
    requires WellFormed(whole) && e in whole && p in whole && e.scale == Moon && e.parent == Some(p.id)
    ensures p.scale == Planet || p.scale == Moon
  {
    hide WellFormed, IndexOf;
    NonRootIsPlaced(whole, e);
    DistinctWhenWellFormed(whole);
    IndexedUnderOwnId(whole);
  }

  /** A row above the Moons: a root, a System's or a Planet's. */
  lemma RowIs(x: ScanIndex.Index, r: Entity) returns (f: Option<ScanIndex.FileEntry>)
    requires Slices.IsRow(x, r) && r.scale != Moon
    ensures f == None ==> r == x.universe || r == x.galaxy
    ensures f.Some? ==> f.value in x.files && (r == Slices.SystemRow(x, f.value) || r == Slices.PlanetRow(x, f.value))
  {
    if r == x.universe || r == x.galaxy {
      f := None;
    } else {
      var g :| g in x.files && (r == Slices.SystemRow(x, g) || r == Slices.PlanetRow(x, g) || r == Slices.MoonRow(x, g));
      f := Some(g);
    }
  }

  /** The listed rows of the groups: each System under the Galaxy, each Planet under its System. */
  lemma GroupRows(x: ScanIndex.Index, f: ScanIndex.FileEntry)
    requires Slices.Known(x) && f in x.files
    ensures var k, s, p := Slices.GroupKeys(f.path), Slices.SystemRow(x, f), Slices.PlanetRow(x, f);
            && k.system in x.systemIds && s.id == x.systemIds[k.system] && s.parent == Some(x.galaxy.id) && s.scale == System
            && k.key in x.planetIds && p.id == x.planetIds[k.key] && p.parent == Some(s.id) && p.scale == Planet
            && Slices.PlanetKeySystem(k.key) == k.system && Slices.IsRow(x, s) && Slices.IsRow(x, p)
  {
    Slices.PlanetKeyKnowsItsSystem(f.path);
    hide Slices.GroupKeys, Slices.PlanetKeySystem;
  }

  /** What hangs from an entity above the Planets is itself a row. */
  lemma KidIsRow(x: ScanIndex.Index, whole: seq<Entity>, p: Entity, e: Entity) returns (f: Option<ScanIndex.FileEntry>)
    requires WellFormed(whole) && HasRows(x, whole) && p in whole && e in whole && e.parent == Some(p.id)
    requires p.scale != Planet && p.scale != Moon
    ensures var r := e.(green := None);
            && (f == None ==> r == x.universe || r == x.galaxy)
            && (f.Some? ==> f.value in x.files && (r == Slices.SystemRow(x, f.value) || r == Slices.PlanetRow(x, f.value)))
  {
    hide WellFormed, Slices.IsRow, Slices.SystemRow, Slices.PlanetRow;
    if e.scale == Moon {
      MoonsHangLow(whole, e, p);
    }
    f := RowIs(x, e.(green := None));
  }

  lemma UniverseKids(x: ScanIndex.Index, whole: seq<Entity>, galaxy: Entity, universe: Entity, e: Entity)
    requires WellFormed(whole) && HasRows(x, whole) && RootsBuilt(x) && Slices.Known(x) && Slices.AllIdsDistinct(x)
    requires galaxy in whole && galaxy.(green := None) == x.galaxy && universe in whole
    requires universe.(green := None) == x.universe
    requires e in whole
    ensures e.parent == Some(universe.id) <==> e.id == galaxy.id
    ensures e.parent == Some(universe.id) ==> e.scale == Galaxy
  {
    hide WellFormed, HasRows, Slices.Known, Slices.GroupKeys, Slices.SystemRow, Slices.PlanetRow;
    if e.parent == Some(universe.id) {
      var f := KidIsRow(x, whole, universe, e);
      if f.Some? {
        GroupRows(x, f.value);
      }
    }
    if e.id == galaxy.id {
      DistinctWhenWellFormed(whole);
    }
  }

  lemma GalaxyKids(x: ScanIndex.Index, whole: seq<Entity>, galaxy: Entity, systems: seq<Folder>)
    requires WellFormed(whole) && HasRows(x, whole) && RootsBuilt(x) && Slices.Known(x) && Slices.AllIdsDistinct(x)
    requires GroupsUsed(x)
    requires galaxy in whole && galaxy.(green := None) == x.galaxy && Lists(systems, x.systemIds)
    ensures ChildSet(whole, galaxy.id) == SystemIds(systems) && KidsAreLower(whole, galaxy)
  {
    hide WellFormed, HasRows, Slices.Known, Slices.GroupKeys, Slices.SystemRow, Slices.PlanetRow,
      Slices.PlanetKeySystem, Slices.IsRow;
    forall e | e in whole && e.parent == Some(galaxy.id) ensures e.id in SystemIds(systems) && e.scale == System {
      var f := KidIsRow(x, whole, galaxy, e);
      if f.Some? {
        GroupRows(x, f.value);
        var k := Slices.GroupKeys(f.value.path).system;
        assert Folder(k, x.systemIds[k]) in systems;
      }
    }
    forall s | s in systems ensures s.id in ChildSet(whole, galaxy.id) {
      var e := SystemEntity(x, whole, s);
    }
  }

  lemma SystemEntity(x: ScanIndex.Index, whole: seq<Entity>, s: Folder) returns (e: Entity)
    requires HasRows(x, whole) && Slices.Known(x) && GroupsUsed(x) && s.key in x.systemIds && x.systemIds[s.key] == s.id
    ensures e in whole && e.id == s.id && e.parent == Some(x.galaxy.id) && e.scale == System && e.sockets == []
    ensures e.conflicts == []
    ensures e.evidence == Slices.ScannerEvidence(x.snapshot) && e.snapshot == x.snapshot
  {
    hide Slices.Known, Slices.GroupKeys, Slices.IsRow;
    var f :| f in x.files && Slices.GroupKeys(f.path).system == s.key;
    GroupRows(x, f);
    e :| e in whole && e.(green := None) == Slices.SystemRow(x, f);
  }

  lemma PlanetEntityOf(x: ScanIndex.Index, whole: seq<Entity>, p: Folder) returns (e: Entity)
    requires HasRows(x, whole) && Slices.Known(x) && GroupsUsed(x) && p.key in x.planetIds && x.planetIds[p.key] == p.id
    ensures e in whole && e.id == p.id && e.scale == Planet && e.sockets == [] && e.conflicts == []
    ensures Slices.PlanetKeySystem(p.key) in x.systemIds && e.parent == Some(x.systemIds[Slices.PlanetKeySystem(p.key)])
    ensures e.evidence == Slices.ScannerEvidence(x.snapshot) && e.snapshot == x.snapshot
  {
    hide Slices.Known, Slices.GroupKeys, Slices.IsRow, Slices.PlanetKeySystem;
    var f :| f in x.files && Slices.GroupKeys(f.path).key == p.key;
    GroupRows(x, f);
    e :| e in whole && e.(green := None) == Slices.PlanetRow(x, f);
  }

  lemma SystemKids(ctx: Context, x: ScanIndex.Index, whole: seq<Entity>, systems: seq<Folder>, planets: seq<Folder>,
                   s: Folder)
    requires WellFormed(whole) && HasRows(x, whole) && RootsBuilt(x) && Slices.Known(x) && Slices.AllIdsDistinct(x)
    requires GroupsUsed(x)
    requires Lists(systems, x.systemIds) && Lists(planets, x.planetIds) && s in systems && ctx.active == x.snapshot
    ensures ChildSet(whole, s.id) == PlanetsOf(planets, s.key) != {} && IsFolder(ctx, whole, s.id)
  {
    hide WellFormed, HasRows, Slices.Known, Slices.GroupKeys, Slices.SystemRow, Slices.PlanetRow, Slices.PlanetKeySystem, Slices.IsRow,
      Slices.ScannerEvidence;
    var system := SystemEntity(x, whole, s);
    forall e | e in whole && e.parent == Some(s.id) ensures e.id in PlanetsOf(planets, s.key) && e.scale == Planet {
      var f := KidIsRow(x, whole, system, e);
      if f.Some? {
        GroupRows(x, f.value);
        var k := Slices.GroupKeys(f.value.path).key;
        assert Folder(k, x.planetIds[k]) in planets;
      }
    }
    forall p | p in planets && Slices.PlanetKeySystem(p.key) == s.key ensures p.id in ChildSet(whole, s.id) {
      var e := PlanetEntityOf(x, whole, p);
    }
    var f :| f in x.files && Slices.GroupKeys(f.path).system == s.key;
    GroupRows(x, f);
    var key := Slices.GroupKeys(f.path).key;
    assert Folder(key, x.planetIds[key]) in planets;
    assert Folder(key, x.planetIds[key]).id in PlanetsOf(planets, s.key);
    assert KidsAreLower(whole, system);
  }

  lemma PlanetIsFolder(ctx: Context, x: ScanIndex.Index, whole: seq<Entity>, planets: seq<Folder>, p: Folder)
    requires WellFormed(whole) && HasRows(x, whole) && RootsBuilt(x) && Slices.Known(x) && Slices.AllIdsDistinct(x)
    requires GroupsUsed(x)
    requires Lists(planets, x.planetIds) && p in planets && ctx.active == x.snapshot
    ensures IsFolder(ctx, whole, p.id)
  {
    hide WellFormed, HasRows, Slices.Known, Slices.GroupKeys, Slices.SystemRow, Slices.PlanetRow, Slices.PlanetKeySystem, Slices.IsRow,
      Slices.ScannerEvidence;
    var planet := PlanetEntityOf(x, whole, p);
    forall e | e in whole && e.parent == Some(p.id) ensures e.scale != Planet {
      if e.scale == Planet {
        PlanetParent(x, whole, e);
      }
    }
    assert KidsAreLower(whole, planet);
  }

  lemma PlanetParent(x: ScanIndex.Index, whole: seq<Entity>, e: Entity)
    requires HasRows(x, whole) && RootsBuilt(x) && Slices.Known(x) && e in whole && e.scale == Planet
    ensures exists k :: k in x.systemIds && e.parent == Some(x.systemIds[k])
  {
    hide Slices.Known, Slices.GroupKeys, Slices.SystemRow, Slices.PlanetRow, Slices.IsRow, Slices.PlanetKeySystem;
    var f := RowIs(x, e.(green := None));
    if f.Some? {
      GroupRows(x, f.value);
    }
  }

  /** A snapshot holding the rows `build_snapshot` makes of an index is foldered by that index's
      own tables, whatever Moons hang below. */
  lemma ScanIsFoldered(ctx: Context, x: ScanIndex.Index, whole: seq<Entity>, systems: seq<Folder>, planets: seq<Folder>,
                       galaxy: Entity, universe: Entity)
    requires WellFormed(whole) && HasRows(x, whole) && RootsBuilt(x) && Slices.Known(x) && Slices.AllIdsDistinct(x)
    requires GroupsUsed(x)
    requires Lists(systems, x.systemIds) && Lists(planets, x.planetIds) && ctx.active == x.snapshot
    requires galaxy in whole && galaxy.(green := None) == x.galaxy && universe in whole
    requires universe.(green := None) == x.universe
    ensures Foldered(ctx, whole, systems, planets, galaxy, universe)
  {
    hide WellFormed, HasRows, RootsBuilt, Slices.Known, Slices.AllIdsDistinct, GroupsUsed, Lists, IsFolder,
      PlanetsOf, SystemIds;
    forall e | e in whole { UniverseKids(x, whole, galaxy, universe, e); }
    GalaxyKids(x, whole, galaxy, systems);
    forall s | s in systems { SystemKids(ctx, x, whole, systems, planets, s); }
    forall p | p in planets { PlanetIsFolder(ctx, x, whole, planets, p); }
    assert galaxy.id in ChildSet(whole, universe.id);
    assert universe.scale == Universe by { RootScale(x, universe); }
  }

  lemma RootScale(x: ScanIndex.Index, universe: Entity)
    requires RootsBuilt(x) && universe.(green := None) == x.universe
    ensures universe.scale == Universe
  {
  }
}
