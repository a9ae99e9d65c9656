/** Cutting a scanned index into directories (`group_keys`, `build_snapshot` and
    `build_directory_entities` of `scan.rs`): the slices add up to the whole snapshot. */
module Slices {
  import opened Atlas
  import opened ScanIndex
  import opened ImportEdges
  import Stores

  datatype Keys = Keys(system: string, planet: string, key: string)

  // ---- Group keys ----

  function JoinSlash(parts: seq<string>): string {
    if parts == [] then ""
    else if |parts| == 1 then parts[0]
    else parts[0] + "/" + JoinSlash(parts[1..])
  }

  function GroupKeys(path: seq<string>): Keys {
    var system := if |path| > 1 then path[0] else "root";
    var planet := if |path| > 2 then JoinSlash(path[..|path| - 1]) else system;
    Keys(system, planet, system + "/" + planet)
  }

  /** A relative path: at least one component, none empty and none holding a slash. */
  predicate RelativePath(path: seq<string>) {
    path != [] && forall i :: 0 <= i < |path| ==> path[i] != "" && '/' !in path[i]
  }

  /** The directory a file counts for: files at the top count for `root`. */
  function Folder(path: seq<string>): seq<string>
    requires path != []
  {
    if |path| == 1 then ["root"] else path[..|path| - 1]
  }

  predicate Slashless(parts: seq<string>) {
    forall i :: 0 <= i < |parts| ==> '/' !in parts[i]
  }

  lemma KeysOfFolder(path: seq<string>)
    requires RelativePath(path)
    ensures var d := Folder(path);
            d != [] && Slashless(d) && GroupKeys(path) == Keys(d[0], JoinSlash(d), d[0] + "/" + JoinSlash(d))
  {
    assert "root" == ['r', 'o', 'o', 't'];
  }

  lemma {:induction false} SlashSplits(a: string, b: string, c: string, d: string)
    requires '/' !in a && '/' !in c && a + "/" + b == c + "/" + d
    ensures a == c && b == d
    decreases |a|
  {
    var s, t := a + "/" + b, c + "/" + d;
    assert s == t && s[|a|] == '/' && t[|c|] == '/';
    assert forall k :: 0 <= k < |a| ==> s[k] == a[k];
    assert forall k :: 0 <= k < |c| ==> t[k] == c[k];
    assert s[..|a|] == a && t[..|c|] == c && s[|a| + 1..] == b && t[|c| + 1..] == d;
  }

  lemma {:induction false} JoinIsInjective(a: seq<string>, b: seq<string>)
    requires a != [] && b != [] && Slashless(a) && Slashless(b) && JoinSlash(a) == JoinSlash(b)
    ensures a == b
    decreases |a|
  {
    if |a| == 1 && |b| == 1 {
      assert a == [a[0]] && b == [b[0]];
    } else if |a| == 1 {
      SlashInside(b);
    } else if |b| == 1 {
      SlashInside(a);
    } else {
      SlashSplits(a[0], JoinSlash(a[1..]), b[0], JoinSlash(b[1..]));
      JoinIsInjective(a[1..], b[1..]);
      assert a == [a[0]] + a[1..] && b == [b[0]] + b[1..];
    }
  }

  lemma SlashInside(parts: seq<string>)
    requires |parts| > 1
    ensures '/' in JoinSlash(parts)
  {
    assert JoinSlash(parts)[|parts[0]|] == '/';
  }

  /** Two files share a planet key exactly when they share a directory, files at the top counting
      for a directory named `root`. */
  lemma SamePlanetIff(p: seq<string>, q: seq<string>)
    requires RelativePath(p) && RelativePath(q)
    ensures GroupKeys(p).key == GroupKeys(q).key <==> Folder(p) == Folder(q)
    ensures GroupKeys(p).key == GroupKeys(q).key ==> GroupKeys(p) == GroupKeys(q)
  {
    KeysOfFolder(p);
    KeysOfFolder(q);
    hide GroupKeys;
    var d, e := Folder(p), Folder(q);
    if GroupKeys(p).key == GroupKeys(q).key {
      SlashSplits(d[0], JoinSlash(d), e[0], JoinSlash(e));
      JoinIsInjective(d, e);
    }
  }

  /** `planet_key_system`: the text before the first slash. */
  function PlanetKeySystem(key: string): string {
    if key == "" || key[0] == '/' then "" else [key[0]] + PlanetKeySystem(key[1..])
  }

  lemma {:induction false} SystemBeforeSlash(a: string, b: string)
    requires '/' !in a
    ensures PlanetKeySystem(a + "/" + b) == a
  {
    if a != "" {
      assert (a + "/" + b)[1..] == a[1..] + "/" + b;
      SystemBeforeSlash(a[1..], b);
      assert [a[0]] + a[1..] == a;
    }
  }

  /** The System a planet key names is the System its files were put under. */
  lemma PlanetKeyKnowsItsSystem(path: seq<string>)
    requires RelativePath(path)
    ensures PlanetKeySystem(GroupKeys(path).key) == GroupKeys(path).system
  {
    KeysOfFolder(path);
    hide GroupKeys;
    SystemBeforeSlash(Folder(path)[0], JoinSlash(Folder(path)));
  }

  // ---- Rows ----

  /** What the scanner asserts of every row: that it read its content and structure. */
  function ScannerEvidence(active: Snapshot): seq<Evidence> {
    [Scanned(Content, Metadata, active, "creature-context-scanner", "1"),
     Scanned(Structure, Metadata, active, "creature-context-scanner", "1")]
  }

  function Blank(id: Id, scale: Scale, kind: Kind, name: string, path: Option<string>, parent: Option<Id>,
                 fingerprint: string,
                 snapshot: string): Entity
  {
    Entity(id, scale, kind, name, path, parent, [], fingerprint, ScannerEvidence(snapshot), None, [], snapshot)
  }

  ghost predicate Known(x: Index) {
    forall f :: f in x.files ==>
      RelativePath(f.path) && GroupKeys(f.path).system in x.systemIds && GroupKeys(f.path).key in x.planetIds
  }

  function SystemId(x: Index, f: FileEntry): Id {
    if GroupKeys(f.path).system in x.systemIds then x.systemIds[GroupKeys(f.path).system] else 0
  }

  function PlanetId(x: Index, f: FileEntry): Id {
    if GroupKeys(f.path).key in x.planetIds then x.planetIds[GroupKeys(f.path).key] else 0
  }

  function SystemRow(x: Index, f: FileEntry): Entity {
    var k := GroupKeys(f.path);
    Blank(SystemId(x, f), System, Subsystem, k.system, Some(k.system), Some(x.galaxy.id), "", x.snapshot)
  }

  function PlanetRow(x: Index, f: FileEntry): Entity {
    var k := GroupKeys(f.path);
    Blank(PlanetId(x, f), Planet, Module, k.planet, Some(k.planet), Some(SystemId(x, f)), "", x.snapshot)
  }

  function MoonRow(x: Index, f: FileEntry): Entity {
    Blank(f.id, Moon, f.kind, if f.path == [] then "" else f.path[|f.path| - 1], Some(JoinSlash(f.path)),
          Some(PlanetId(x, f)), f.fingerprint, x.snapshot)
  }

  /** Everything a list of files contributes. */
  ghost predicate Contributes(x: Index, files: seq<FileEntry>, e: Entity) {
    exists f :: f in files && (e == SystemRow(x, f) || e == PlanetRow(x, f) || e == MoonRow(x, f))
  }

  /** Ids tell groups apart: distinct names, distinct ids, and no id in both tables. */
  ghost predicate GroupIdsDistinct(x: Index) {
    && (forall a, b :: a in x.systemIds && b in x.systemIds && x.systemIds[a] == x.systemIds[b] ==> a == b)
    && (forall a, b :: a in x.planetIds && b in x.planetIds && x.planetIds[a] == x.planetIds[b] ==> a == b)
    && (forall a, b :: a in x.systemIds && b in x.planetIds ==> x.systemIds[a] != x.planetIds[b])
  }

  /** The edge that puts a row under its parent. */
  function ParentEdge(x: Index, e: Entity): Edge {
    ContainsEdge(x, if e.parent.Some? then e.parent.value else x.universe.id, e.id)
  }

  /** One containment edge a row, in the order of the rows. */
  function RowEdges(x: Index, rows: seq<Entity>): (edges: seq<Edge>)
    ensures |edges| == |rows| && forall i :: 0 <= i < |rows| ==> edges[i] == ParentEdge(x, rows[i])
  {
    seq(|rows|, i requires 0 <= i < |rows| => ParentEdge(x, rows[i]))
  }

  function RootEdge(x: Index): Edge {
    ContainsEdge(x, x.universe.id, x.galaxy.id)
  }

  lemma EdgesOfRows(x: Index, f: FileEntry)
    ensures ParentEdge(x, SystemRow(x, f)) == ContainsEdge(x, x.galaxy.id, SystemId(x, f))
    ensures ParentEdge(x, PlanetRow(x, f)) == ContainsEdge(x, SystemId(x, f), PlanetId(x, f))
    ensures ParentEdge(x, MoonRow(x, f)) == ContainsEdge(x, PlanetId(x, f), f.id)
  {
    hide GroupKeys;
  }

  // ---- The rows of a list of files ----

  predicate HasSystem(files: seq<FileEntry>, f: FileEntry) {
    exists g :: g in files && GroupKeys(g.path).system == GroupKeys(f.path).system
  }

  predicate HasPlanet(files: seq<FileEntry>, f: FileEntry) {
    exists g :: g in files && GroupKeys(g.path).key == GroupKeys(f.path).key
  }

  /** What a file adds: the groups no file before it named, and itself. */
  function Added(x: Index, before: seq<FileEntry>, f: FileEntry): seq<Entity> {
    (if HasSystem(before, f) then [] else [SystemRow(x, f)])
    + (if HasPlanet(before, f) then [] else [PlanetRow(x, f)])
    + [MoonRow(x, f)]
  }

  function Rows(x: Index, files: seq<FileEntry>): seq<Entity> {
    if files == [] then []
    else
      var n := |files| - 1;
      Rows(x, files[..n]) + Added(x, files[..n], files[n])
  }

  ghost predicate Within(x: Index, files: seq<FileEntry>) {
    forall f :: f in files ==> f in x.files
  }

  lemma SameNamesSameRows(x: Index, f: FileEntry, g: FileEntry)
    requires Known(x) && f in x.files && g in x.files
    ensures GroupKeys(f.path).system == GroupKeys(g.path).system ==> SystemRow(x, f) == SystemRow(x, g)
    ensures GroupKeys(f.path).key == GroupKeys(g.path).key ==>
              PlanetRow(x, f) == PlanetRow(x, g) && GroupKeys(f.path) == GroupKeys(g.path)
  {
    SamePlanetIff(f.path, g.path);
    hide GroupKeys;
  }

  lemma AddedMembers(x: Index, before: seq<FileEntry>, f: FileEntry, e: Entity)
    requires Known(x) && Within(x, before) && f in x.files
    ensures Contributes(x, before + [f], e) <==> Contributes(x, before, e) || e in Added(x, before, f)
  {
    forall g | g in before
      ensures GroupKeys(f.path).system == GroupKeys(g.path).system ==> SystemRow(x, f) == SystemRow(x, g)
      ensures GroupKeys(f.path).key == GroupKeys(g.path).key ==> PlanetRow(x, f) == PlanetRow(x, g)
    {
      SameNamesSameRows(x, f, g);
    }
    hide SystemRow, PlanetRow, MoonRow, GroupKeys, Known;
    assert forall g :: g in before + [f] <==> g in before || g == f;
  }

  /** The rows are exactly what the files contribute, however often a group is named. */
  lemma {:induction false} RowsMembers(x: Index, files: seq<FileEntry>, e: Entity)
    requires Known(x) && Within(x, files)
    ensures e in Rows(x, files) <==> Contributes(x, files, e)
  {
    hide Added, Known;
    if files != [] {
      var n := |files| - 1;
      assert files == files[..n] + [files[n]];
      RowsMembers(x, files[..n], e);
      AddedMembers(x, files[..n], files[n], e);
    }
  }

  // ---- Ids tell rows apart ----

  ghost predicate FileIdsDistinct(x: Index) {
    forall f, g :: f in x.files && g in x.files && f.id == g.id ==> f == g
  }

  /** No file shares an id with a group or a root, and no group with a root. */
  ghost predicate AllIdsDistinct(x: Index) {
    && GroupIdsDistinct(x) && FileIdsDistinct(x) && x.universe.id != x.galaxy.id
    && (forall f, k :: f in x.files && k in x.systemIds ==> f.id != x.systemIds[k])
    && (forall f, k :: f in x.files && k in x.planetIds ==> f.id != x.planetIds[k])
    && (forall f :: f in x.files ==> f.id != x.universe.id && f.id != x.galaxy.id)
    && (forall k :: k in x.systemIds ==> x.systemIds[k] != x.universe.id && x.systemIds[k] != x.galaxy.id)
    && (forall k :: k in x.planetIds ==> x.planetIds[k] != x.universe.id && x.planetIds[k] != x.galaxy.id)
  }

  ghost predicate IsRow(x: Index, e: Entity) {
    e == x.universe || e == x.galaxy || Contributes(x, x.files, e)
  }

  lemma RowsOfOneId(x: Index, a: Entity, b: Entity)
    requires Known(x) && AllIdsDistinct(x) && IsRow(x, a) && IsRow(x, b) && a.id == b.id
    ensures a == b
  {
    hide Known, AllIdsDistinct, SystemRow, PlanetRow, MoonRow;
    if Contributes(x, x.files, a) {
      var f :| f in x.files && (a == SystemRow(x, f) || a == PlanetRow(x, f) || a == MoonRow(x, f));
      RootsApart(x, f);
      if Contributes(x, x.files, b) {
        var g :| g in x.files && (b == SystemRow(x, g) || b == PlanetRow(x, g) || b == MoonRow(x, g));
        RowsApart(x, f, g);
        RowsApart(x, g, f);
      }
    } else if Contributes(x, x.files, b) {
      var g :| g in x.files && (b == SystemRow(x, g) || b == PlanetRow(x, g) || b == MoonRow(x, g));
      RootsApart(x, g);
    } else {
      RootsDiffer(x);
    }
  }

  lemma RootsDiffer(x: Index)
    requires AllIdsDistinct(x)
    ensures x.universe.id != x.galaxy.id
  {
  }

  lemma RootsApart(x: Index, f: FileEntry)
    requires Known(x) && AllIdsDistinct(x) && f in x.files
    ensures var roots := {x.universe.id, x.galaxy.id};
            SystemRow(x, f).id !in roots && PlanetRow(x, f).id !in roots && MoonRow(x, f).id !in roots
  {
    hide GroupKeys;
  }

  lemma RowsApart(x: Index, f: FileEntry, g: FileEntry)
    requires Known(x) && AllIdsDistinct(x) && f in x.files && g in x.files
    ensures SystemRow(x, f).id == SystemRow(x, g).id ==> SystemRow(x, f) == SystemRow(x, g)
    ensures PlanetRow(x, f).id == PlanetRow(x, g).id ==> PlanetRow(x, f) == PlanetRow(x, g)
    ensures MoonRow(x, f).id == MoonRow(x, g).id ==> MoonRow(x, f) == MoonRow(x, g)
    ensures SystemRow(x, f).id != PlanetRow(x, g).id && MoonRow(x, f).id != PlanetRow(x, g).id
    ensures MoonRow(x, f).id != SystemRow(x, g).id
  {
    GroupIdsNameGroups(x, f, g);
    GroupIdsNameGroups(x, g, f);
    SameNamesSameRows(x, f, g);
    hide GroupKeys;
  }

  /** Every file of the list is another file. */
  ghost predicate ListedOnce(files: seq<FileEntry>) {
    forall i, j :: 0 <= i < j < |files| ==> files[i].id != files[j].id
  }

  lemma AppendRow(rows: seq<Entity>, r: Entity)
    requires Stores.Insertable(rows, Stores.EntityKey)
    requires forall e :: e in rows ==> e.id != r.id
    ensures Stores.Insertable(rows + [r], Stores.EntityKey)
  {
    assert (rows + [r])[..|rows|] == rows;
  }

  /** A row of the files before `f`, against the rows `f` would add. */
  lemma NewGroupsApart(x: Index, before: seq<FileEntry>, f: FileEntry, e: Entity)
    requires Known(x) && AllIdsDistinct(x) && Within(x, before) && f in x.files
    requires (e == x.universe || e == x.galaxy || Contributes(x, before, e))
    requires forall g :: g in before ==> g.id != f.id
    ensures !HasSystem(before, f) ==> e.id != SystemRow(x, f).id
    ensures !HasPlanet(before, f) ==> e.id != PlanetRow(x, f).id
    ensures e.id != MoonRow(x, f).id
  {
    RootsApart(x, f);
    hide Known, AllIdsDistinct, GroupKeys;
    if Contributes(x, before, e) {
      var g :| g in before && (e == SystemRow(x, g) || e == PlanetRow(x, g) || e == MoonRow(x, g));
      RowsApart(x, f, g);
      RowsApart(x, g, f);
      GroupsOf(x);
      GroupIdsNameGroups(x, f, g);
    }
  }

  lemma GroupsOf(x: Index)
    requires AllIdsDistinct(x)
    ensures GroupIdsDistinct(x)
  {
  }

  lemma {:induction false} RowsInsertable(x: Index, files: seq<FileEntry>)
    requires Known(x) && AllIdsDistinct(x) && Within(x, files) && ListedOnce(files)
    ensures Stores.Insertable([x.universe, x.galaxy] + Rows(x, files), Stores.EntityKey)
  {
    hide Known, AllIdsDistinct, Stores.Insertable, GroupKeys, Added;
    var roots := [x.universe, x.galaxy];
    if files == [] {
      RootsInsertable(x);
      assert roots + Rows(x, files) == roots;
    } else {
      var n := |files| - 1;
      var before, f := files[..n], files[n];
      OthersBefore(files, n);
      RowsInsertable(x, before);
      AddedInsertable(x, before, f, roots + Rows(x, before));
      assert roots + Rows(x, files) == roots + Rows(x, before) + Added(x, before, f);
    }
  }

  lemma OthersBefore(files: seq<FileEntry>, i: nat)
    requires i < |files| && ListedOnce(files)
    ensures forall g :: g in files[..i] ==> g in files && g.id != files[i].id
  {
  }

  lemma RootsInsertable(x: Index)
    requires AllIdsDistinct(x)
    ensures Stores.Insertable([x.universe, x.galaxy], Stores.EntityKey)
  {
    AppendRow([], x.universe);
    AppendRow([x.universe], x.galaxy);
    assert [] + [x.universe] == [x.universe] && [x.universe] + [x.galaxy] == [x.universe, x.galaxy];
  }

  lemma AddedInsertable(x: Index, before: seq<FileEntry>, f: FileEntry, rows: seq<Entity>)
    requires Known(x) && AllIdsDistinct(x) && Within(x, before) && f in x.files
    requires forall g :: g in before ==> g.id != f.id
    requires rows == [x.universe, x.galaxy] + Rows(x, before) && Stores.Insertable(rows, Stores.EntityKey)
    ensures Stores.Insertable(rows + Added(x, before, f), Stores.EntityKey)
  {
    hide Known, AllIdsDistinct, Stores.Insertable, SystemRow, PlanetRow, MoonRow, Rows, HasSystem, HasPlanet, Within, Added, GroupKeys;
    NewRowsApart(x, before, f);
    AddedIs(x, before, f);
    AppendThree(rows, HasSystem(before, f), SystemRow(x, f), HasPlanet(before, f), PlanetRow(x, f), MoonRow(x, f));
  }

  lemma AppendThree(rows: seq<Entity>, noSystem: bool, s: Entity, noPlanet: bool, p: Entity, m: Entity)
    requires Stores.Insertable(rows, Stores.EntityKey)
    requires forall e :: e in rows ==> (!noSystem ==> e.id != s.id) && (!noPlanet ==> e.id != p.id) && e.id != m.id
    requires s.id != p.id && m.id !in {s.id, p.id}
    ensures var a, b := if noSystem then [] else [s], if noPlanet then [] else [p];
            Stores.Insertable(rows + (a + (b + [m])), Stores.EntityKey)
  {
    hide Stores.Insertable;
    var a, b := if noSystem then [] else [s], if noPlanet then [] else [p];
    AppendUnless(rows, noSystem, s);
    AppendUnless(rows + a, noPlanet, p);
    AppendUnless(rows + a + b, false, m);
    Associate(rows, a, b, [m]);
  }

  lemma Associate<T>(a: seq<T>, b: seq<T>, c: seq<T>, d: seq<T>)
    ensures a + b + c + d == a + (b + (c + d))
  {
  }

  lemma NewRowsApart(x: Index, before: seq<FileEntry>, f: FileEntry)
    requires Known(x) && AllIdsDistinct(x) && Within(x, before) && f in x.files
    requires forall g :: g in before ==> g.id != f.id
    ensures forall e :: e in [x.universe, x.galaxy] + Rows(x, before) ==>
              && (!HasSystem(before, f) ==> e.id != SystemRow(x, f).id)
              && (!HasPlanet(before, f) ==> e.id != PlanetRow(x, f).id)
              && e.id != MoonRow(x, f).id
    ensures SystemRow(x, f).id != PlanetRow(x, f).id && MoonRow(x, f).id !in {SystemRow(x, f).id, PlanetRow(x, f).id}
  {
    hide Known, AllIdsDistinct, SystemRow, PlanetRow, MoonRow, Rows, HasSystem, HasPlanet, Within, Contributes;
    forall e | e in [x.universe, x.galaxy] + Rows(x, before)
      ensures !HasSystem(before, f) ==> e.id != SystemRow(x, f).id
      ensures !HasPlanet(before, f) ==> e.id != PlanetRow(x, f).id
      ensures e.id != MoonRow(x, f).id
    {
      RowsMembers(x, before, e);
      NewGroupsApart(x, before, f, e);
    }
    RowsApart(x, f, f);
  }

  lemma AddedIs(x: Index, before: seq<FileEntry>, f: FileEntry)
    ensures var s, p := if HasSystem(before, f) then [] else [SystemRow(x, f)], if HasPlanet(before, f) then [] else [PlanetRow(x, f)];
            Added(x, before, f) == s + (p + [MoonRow(x, f)])
  {
    hide SystemRow, PlanetRow, MoonRow, HasSystem, HasPlanet;
  }

  lemma AppendUnless(rows: seq<Entity>, skip: bool, r: Entity)
    requires Stores.Insertable(rows, Stores.EntityKey) && (!skip ==> forall e :: e in rows ==> e.id != r.id)
    ensures Stores.Insertable(rows + (if skip then [] else [r]), Stores.EntityKey)
  {
    if skip {
      assert rows + [] == rows;
    } else {
      AppendRow(rows, r);
    }
  }

  // ---- Ids tell edges apart ----

  ghost predicate WholeEdges(x: Index, edges: seq<Edge>) {
    var n := 1 + |Rows(x, x.files)|;
    && n <= |edges|
    && edges[..n] == [RootEdge(x)] + RowEdges(x, Rows(x, x.files))
    && ImportList(x, edges[n..])
  }

  lemma RowEdgesJoin(x: Index, a: seq<Entity>, b: seq<Entity>)
    ensures RowEdges(x, a + b) == RowEdges(x, a) + RowEdges(x, b)
  {
    hide ParentEdge;
  }

  lemma WholeIsInsertable(x: Index, edges: seq<Edge>)
    requires Known(x) && AllIdsDistinct(x) && EdgeIdsDistinct(x) && ListedOnce(x.files) && WholeEdges(x, edges)
    ensures Stores.Insertable([x.universe, x.galaxy] + Rows(x, x.files), Stores.EntityKey)
    ensures Stores.Insertable(edges, Stores.EdgeKey)
  {
    hide Known, AllIdsDistinct, EdgeIdsDistinct, ListedOnce, WholeEdges, Rows, Named, Stores.Insertable;
    RowsInsertable(x, x.files);
    Stores.InsertableIff([x.universe, x.galaxy] + Rows(x, x.files), Stores.EntityKey);
    var n := 1 + |Rows(x, x.files)|;
    EdgesByPlace(x, edges);
    forall i, j | 0 <= i < j < |edges| ensures edges[i].id != edges[j].id {
      if i < n {
        NamesDiffer(x, edges[i], edges[j]);
      }
    }
    Stores.InsertableIff(edges, Stores.EdgeKey);
  }

  /** First the containment edges, one to each row, and then the import edges by id. */
  lemma EdgesByPlace(x: Index, edges: seq<Edge>)
    requires Known(x) && WholeEdges(x, edges)
    ensures var n, rows := 1 + |Rows(x, x.files)|, [x.universe, x.galaxy] + Rows(x, x.files);
            && (forall i :: 0 <= i < |edges| ==> Named(x, edges[i]))
            && n <= |edges|
            && (forall i :: 0 <= i < n ==> edges[i].kind == Contains && edges[i].target == rows[i + 1].id)
            && (forall i :: n <= i < |edges| ==> edges[i].kind == Imports)
            && (forall i, j :: n <= i < j < |edges| ==> edges[i].id < edges[j].id)
  {
    hide Known, Rows, ImportedBy, Held;
    var n, rows := 1 + |Rows(x, x.files)|, [x.universe, x.galaxy] + Rows(x, x.files);
    forall i | 0 <= i < n ensures edges[i].kind == Contains && edges[i].target == rows[i + 1].id && Named(x, edges[i]) {
      assert edges[i] == edges[..n][i];
      if i == 0 {
        RootsAreHeld(x);
      } else {
        assert edges[i] == RowEdges(x, Rows(x, x.files))[i - 1];
        RowIsHeld(x, Rows(x, x.files)[i - 1]);
      }
    }
    var imports := edges[n..];
    assert forall i :: n <= i < |edges| ==> edges[i] == imports[i - n];
    forall i | n <= i < |edges| ensures edges[i].kind == Imports && Named(x, edges[i]) {
      assert edges[i] in imports;
      ImportIsHeld(x, edges[i]);
    }
  }

  lemma RootsAreHeld(x: Index)
    ensures Held(x, x.universe.id) && Held(x, x.galaxy.id)
  {
  }

  lemma RowIsHeld(x: Index, e: Entity)
    requires Known(x) && e in Rows(x, x.files)
    ensures Held(x, e.id) && e.parent.Some? && Held(x, e.parent.value)
  {
    RowsMembers(x, x.files, e);
    hide Rows;
    var f :| f in x.files && (e == SystemRow(x, f) || e == PlanetRow(x, f) || e == MoonRow(x, f));
    hide GroupKeys;
  }

  lemma ImportIsHeld(x: Index, e: Edge)
    requires IsImport(x, x.files, e)
    ensures e.kind == Imports && Named(x, e)
  {
    var f, t :| f in x.files && ImportedBy(x.files, f, t) && e == ImportEdge(x, f.id, t);
    var token :| token in f.tokens && Names(x.files, f, token, t);
    var i :| SoleOwner(x.files, f.family.value, token, i) && x.files[i].id == t;
    assert x.files[i] in x.files;
  }

  /** The edge leads between ids of the index and bears the id they and its kind give it. */
  ghost predicate Named(x: Index, e: Edge) {
    e.id == x.edgeId(e.source, e.target, e.kind) && Held(x, e.source) && Held(x, e.target)
  }

  lemma NamesDiffer(x: Index, a: Edge, b: Edge)
    requires EdgeIdsDistinct(x) && Named(x, a) && Named(x, b) && (a.target != b.target || a.kind != b.kind)
    ensures a.id != b.id
  {
    hide Held;
  }

  // ---- The whole snapshot ----

  /** The ids of the groups the first files named. */
  function Created(x: Index, files: seq<FileEntry>): set<Id> {
    (set f | f in files :: SystemId(x, f)) + (set f | f in files :: PlanetId(x, f))
  }

  /** Testing ids is testing names. */
  lemma CreatedMeans(x: Index, files: seq<FileEntry>, f: FileEntry)
    requires Known(x) && GroupIdsDistinct(x) && Within(x, files) && f in x.files
    ensures SystemId(x, f) in Created(x, files) <==> HasSystem(files, f)
    ensures PlanetId(x, f) in Created(x, files) + {SystemId(x, f)} <==> HasPlanet(files, f)
  {
    GroupIdsNameGroups(x, f, f);
    forall g | g in files
      ensures SystemId(x, f) == SystemId(x, g) <==> GroupKeys(f.path).system == GroupKeys(g.path).system
      ensures PlanetId(x, f) == PlanetId(x, g) <==> GroupKeys(f.path).key == GroupKeys(g.path).key
      ensures SystemId(x, f) != PlanetId(x, g) && SystemId(x, g) != PlanetId(x, f)
    {
      GroupIdsNameGroups(x, f, g);
      GroupIdsNameGroups(x, g, f);
    }
    hide SystemId, PlanetId, Known, GroupIdsDistinct, GroupKeys;
  }

  lemma GroupIdsNameGroups(x: Index, f: FileEntry, g: FileEntry)
    requires Known(x) && GroupIdsDistinct(x) && f in x.files && g in x.files
    ensures SystemId(x, f) == SystemId(x, g) <==> GroupKeys(f.path).system == GroupKeys(g.path).system
    ensures PlanetId(x, f) == PlanetId(x, g) <==> GroupKeys(f.path).key == GroupKeys(g.path).key
    ensures SystemId(x, f) != PlanetId(x, g)
  {
    hide GroupKeys;
  }

  /** What one more file adds, edge by row. */
  lemma NextRows(x: Index, files: seq<FileEntry>, i: nat)
    requires i < |files|
    ensures var before, f := files[..i], files[i];
            && Rows(x, files[..i + 1]) ==
               Rows(x, before)
               + ((if HasSystem(before, f) then [] else [SystemRow(x, f)])
                  + ((if HasPlanet(before, f) then [] else [PlanetRow(x, f)]) + [MoonRow(x, f)]))
            && RowEdges(x, Rows(x, files[..i + 1])) ==
               RowEdges(x, Rows(x, before))
               + ((if HasSystem(before, f) then [] else [ContainsEdge(x, x.galaxy.id, SystemId(x, f))])
                  + ((if HasPlanet(before, f) then [] else [ContainsEdge(x, SystemId(x, f), PlanetId(x, f))])
                     + [ContainsEdge(x, PlanetId(x, f), f.id)]))
  {
    hide SystemRow, PlanetRow, MoonRow, SystemId, PlanetId, HasSystem, HasPlanet, ContainsEdge, ParentEdge, RowEdges, Added;
    var before, f := files[..i], files[i];
    assert files[..i + 1][..i] == before;
    EdgesOfRows(x, f);
    AddedIs(x, before, f);
    var s := if HasSystem(before, f) then [] else [SystemRow(x, f)];
    var p := if HasPlanet(before, f) then [] else [PlanetRow(x, f)];
    RowEdgesJoin(x, Rows(x, before), s + (p + [MoonRow(x, f)]));
    RowEdgesJoin(x, s, p + [MoonRow(x, f)]);
    RowEdgesJoin(x, p, [MoonRow(x, f)]);
    hide Rows;
    OneRowEdge(x, HasSystem(before, f), SystemRow(x, f));
    OneRowEdge(x, HasPlanet(before, f), PlanetRow(x, f));
    OneRowEdge(x, false, MoonRow(x, f));
  }

  lemma OneRowEdge(x: Index, skip: bool, r: Entity)
    ensures RowEdges(x, if skip then [] else [r]) == if skip then [] else [ParentEdge(x, r)]
  {
    hide ParentEdge;
  }

  lemma NothingYet(x: Index)
    ensures Created(x, x.files[..0]) == {} && Rows(x, x.files[..0]) == [] && RowEdges(x, []) == []
  {
  }

  lemma CreatedNext(x: Index, files: seq<FileEntry>, i: nat)
    requires i < |files|
    ensures Created(x, files[..i + 1]) == Created(x, files[..i]) + {SystemId(x, files[i])} + {PlanetId(x, files[i])}
  {
    hide SystemId, PlanetId;
    assert files[..i + 1] == files[..i] + [files[i]];
    assert forall g :: g in files[..i + 1] <==> g in files[..i] || g == files[i];
  }

  /** `build_snapshot`: the groups as files first name them, each row with the edge from its
      parent, and the import edges at the end. */
  method BuildSnapshot(x: Index) returns (entities: seq<Entity>, edges: seq<Edge>)
    requires Known(x) && GroupIdsDistinct(x) && EdgeIdsDistinct(x)
    ensures entities == [x.universe, x.galaxy] + Rows(x, x.files)
    ensures WholeEdges(x, edges)
    ensures AllIdsDistinct(x) && ListedOnce(x.files) ==>
              Stores.Insertable(entities, Stores.EntityKey) && Stores.Insertable(edges, Stores.EdgeKey)
  {
    hide Known, GroupIdsDistinct, EdgeIdsDistinct, SystemRow, PlanetRow, MoonRow, SystemId, PlanetId, GroupKeys, Created, Rows,
      RowEdges, HasSystem, HasPlanet, ImportList, ContainsEdge, AllIdsDistinct, ListedOnce, WholeEdges, Stores.Insertable;
    entities, edges := [x.universe, x.galaxy], [RootEdge(x)];
    var created: set<Id> := {};
    NothingYet(x);
    for i := 0 to |x.files|
      invariant created == Created(x, x.files[..i])
      invariant entities == [x.universe, x.galaxy] + Rows(x, x.files[..i])
      invariant edges == [RootEdge(x)] + RowEdges(x, Rows(x, x.files[..i]))
    {
      var f := x.files[i];
      ghost var before := x.files[..i];
      CreatedMeans(x, before, f);
      CreatedNext(x, x.files, i);
      NextRows(x, x.files, i);
      if SystemId(x, f) !in created {
        entities := entities + [SystemRow(x, f)];
        edges := edges + [ContainsEdge(x, x.galaxy.id, SystemId(x, f))];
      }
      created := created + {SystemId(x, f)};
      if PlanetId(x, f) !in created {
        entities := entities + [PlanetRow(x, f)];
        edges := edges + [ContainsEdge(x, SystemId(x, f), PlanetId(x, f))];
      }
      created := created + {PlanetId(x, f)};
      entities := entities + [MoonRow(x, f)];
      edges := edges + [ContainsEdge(x, PlanetId(x, f), f.id)];
      assert entities == [x.universe, x.galaxy] + Rows(x, x.files[..i + 1]);
      assert edges == [RootEdge(x)] + RowEdges(x, Rows(x, x.files[..i + 1]));
    }
    assert x.files[..|x.files|] == x.files;
    var imports := ScanImports(x);
    WholeEdgesAre(x, edges, imports);
    edges := edges + imports;
    if AllIdsDistinct(x) && ListedOnce(x.files) {
      WholeIsInsertable(x, edges);
    }
  }

  lemma WholeEdgesAre(x: Index, containment: seq<Edge>, imports: seq<Edge>)
    requires containment == [RootEdge(x)] + RowEdges(x, Rows(x, x.files)) && ImportList(x, imports)
    ensures WholeEdges(x, containment + imports)
  {
    var edges := containment + imports;
    assert edges[..|containment|] == containment && edges[|containment|..] == imports;
  }

  // ---- One directory ----

  function FilesOf(files: seq<FileEntry>, key: string): seq<FileEntry> {
    if files == [] then []
    else
      var last := files[|files| - 1];
      FilesOf(files[..|files| - 1], key) + (if GroupKeys(last.path).key == key then [last] else [])
  }

  /** Each file is in the slice of its own key and in no other. */
  lemma {:induction false} FilesOfMembers(files: seq<FileEntry>, key: string)
    ensures forall f :: f in FilesOf(files, key) <==> f in files && GroupKeys(f.path).key == key
  {
    hide GroupKeys;
    if files != [] {
      var n := |files| - 1;
      FilesOfMembers(files[..n], key);
      assert files == files[..n] + [files[n]];
    }
  }

  /** `build_directory_entities`: the groups with the first file, then every file. The slice is
      what the whole loop would emit for these files alone, one edge a row. */
  method BuildDirectory(x: Index, key: string) returns (entities: seq<Entity>, edges: seq<Edge>)
    requires Known(x)
    ensures entities == Rows(x, FilesOf(x.files, key))
    ensures edges == RowEdges(x, entities)
  {
    hide Known, SystemRow, PlanetRow, MoonRow, SystemId, PlanetId, GroupKeys, ContainsEdge, HasSystem, HasPlanet, Rows, RowEdges;
    var files := FilesOf(x.files, key);
    FilesOfMembers(x.files, key);
    entities, edges := [], [];
    var rootsEmitted := false;
    NothingSliced(x, files);
    for i := 0 to |files|
      invariant rootsEmitted == (i > 0)
      invariant entities == Rows(x, files[..i]) && edges == RowEdges(x, entities)
    {
      var file := files[i];
      SliceGroups(x, files[..i], file, key);
      NextRows(x, files, i);
      if !rootsEmitted {
        rootsEmitted := true;
        entities := entities + [SystemRow(x, file)];
        edges := edges + [ContainsEdge(x, x.galaxy.id, SystemId(x, file))];
        entities := entities + [PlanetRow(x, file)];
        edges := edges + [ContainsEdge(x, SystemId(x, file), PlanetId(x, file))];
      }
      entities := entities + [MoonRow(x, file)];
      edges := edges + [ContainsEdge(x, PlanetId(x, file), file.id)];
      assert entities == Rows(x, files[..i + 1]);
      assert edges == RowEdges(x, Rows(x, files[..i + 1]));
    }
    assert files[..|files|] == files;
  }

  lemma NothingSliced(x: Index, files: seq<FileEntry>)
    ensures Rows(x, files[..0]) == [] && RowEdges(x, []) == []
  {
  }

  /** In a slice the first file alone names new groups. */
  lemma SliceGroups(x: Index, before: seq<FileEntry>, f: FileEntry, key: string)
    requires Known(x) && f in x.files && Within(x, before) && GroupKeys(f.path).key == key
    requires forall g :: g in before ==> GroupKeys(g.path).key == key
    ensures HasSystem(before, f) == HasPlanet(before, f) == (before != [])
  {
    hide GroupKeys;
    if before != [] {
      SameNamesSameRows(x, before[0], f);
    }
  }

  // ---- The slices add up ----

  /** The slices of any listing of the planet keys have exactly the rows of the whole snapshot
      under its roots, and exactly their edges. */
  lemma SlicesAddUp(x: Index, keys: seq<string>)
    requires Known(x) && forall f :: f in x.files ==> GroupKeys(f.path).key in keys
    ensures forall e :: e in Rows(x, x.files) <==> exists k :: k in keys && e in Rows(x, FilesOf(x.files, k))
    ensures forall l :: l in RowEdges(x, Rows(x, x.files)) <==>
              exists k :: k in keys && l in RowEdges(x, Rows(x, FilesOf(x.files, k)))
  {
    hide Known, GroupKeys, ParentEdge;
    forall e ensures e in Rows(x, x.files) <==> exists k :: k in keys && e in Rows(x, FilesOf(x.files, k)) {
      RowInSomeSlice(x, keys, e);
    }
    hide FilesOf, Rows;
    forall l
      ensures l in RowEdges(x, Rows(x, x.files)) <==> exists k :: k in keys && l in RowEdges(x, Rows(x, FilesOf(x.files, k)))
    {
      forall k { EdgesAreOfRows(x, Rows(x, FilesOf(x.files, k)), l); }
      EdgesAreOfRows(x, Rows(x, x.files), l);
    }
  }

  lemma EdgesAreOfRows(x: Index, rows: seq<Entity>, l: Edge)
    ensures l in RowEdges(x, rows) <==> exists e :: e in rows && l == ParentEdge(x, e)
  {
    hide ParentEdge;
    if e :| e in rows && l == ParentEdge(x, e) {
      var i :| 0 <= i < |rows| && rows[i] == e;
      assert RowEdges(x, rows)[i] == l;
    }
  }

  /** The rows of a slice are what the files of its key contribute. */
  lemma SliceMembers(x: Index, k: string, e: Entity)
    requires Known(x)
    ensures e in Rows(x, FilesOf(x.files, k)) <==>
            exists f :: f in x.files && GroupKeys(f.path).key == k && (e == SystemRow(x, f) || e == PlanetRow(x, f) || e == MoonRow(x, f))
  {
    FilesOfMembers(x.files, k);
    hide Known, SystemRow, PlanetRow, MoonRow, GroupKeys, Rows, FilesOf;
    RowsMembers(x, FilesOf(x.files, k), e);
  }

  lemma RowInSomeSlice(x: Index, keys: seq<string>, e: Entity)
    requires Known(x) && forall f :: f in x.files ==> GroupKeys(f.path).key in keys
    ensures e in Rows(x, x.files) <==> exists k :: k in keys && e in Rows(x, FilesOf(x.files, k))
  {
    hide SystemRow, PlanetRow, MoonRow, GroupKeys, Known, FilesOf, Rows;
    RowsMembers(x, x.files, e);
    forall k: string
      ensures e in Rows(x, FilesOf(x.files, k)) <==>
              exists f :: f in x.files && GroupKeys(f.path).key == k && (e == SystemRow(x, f) || e == PlanetRow(x, f) || e == MoonRow(x, f))
    {
      SliceMembers(x, k, e);
    }
    if Contributes(x, x.files, e) {
      var f :| f in x.files && (e == SystemRow(x, f) || e == PlanetRow(x, f) || e == MoonRow(x, f));
      assert e in Rows(x, FilesOf(x.files, GroupKeys(f.path).key));
    }
  }

  /** Two slices share nothing but Systems. */
  lemma OnlySystemsRepeat(x: Index, k: string, l: string, e: Entity)
    requires Known(x) && GroupIdsDistinct(x) && FileIdsDistinct(x) && k != l
    requires e in Rows(x, FilesOf(x.files, k)) && e in Rows(x, FilesOf(x.files, l))
    ensures e.scale == System
  {
    hide FilesOf, Rows, GroupKeys, Known, GroupIdsDistinct, FileIdsDistinct, SystemRow, PlanetRow, MoonRow;
    SliceMembers(x, k, e);
    SliceMembers(x, l, e);
    var f :| f in x.files && GroupKeys(f.path).key == k && (e == SystemRow(x, f) || e == PlanetRow(x, f) || e == MoonRow(x, f));
    var g :| g in x.files && GroupKeys(g.path).key == l && (e == SystemRow(x, g) || e == PlanetRow(x, g) || e == MoonRow(x, g));
    OnlySystemShared(x, f, g, e);
  }

  lemma OnlySystemShared(x: Index, f: FileEntry, g: FileEntry, e: Entity)
    requires Known(x) && GroupIdsDistinct(x) && FileIdsDistinct(x) && f in x.files && g in x.files
    requires GroupKeys(f.path).key != GroupKeys(g.path).key
    requires e == SystemRow(x, f) || e == PlanetRow(x, f) || e == MoonRow(x, f)
    requires e == SystemRow(x, g) || e == PlanetRow(x, g) || e == MoonRow(x, g)
    ensures e.scale == System
  {
    GroupIdsNameGroups(x, f, g);
    hide GroupKeys;
  }
}
