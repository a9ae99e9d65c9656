/** The containment tree of `atlas/hierarchy.rs`: validation, parent chains and
    descendants. */
module Hierarchy {
  import opened Atlas
  import opened Sorting

  datatype Error =
    | Duplicate(id: Id)
    | MissingParent(id: Id)
    | InvalidScale(child: Id, parentScale: Scale)
    | Cycle(id: Id)
    | RootCount(count: nat)

  type Index = map<Id, Entity>

  datatype Tree = Tree(entities: Index, children: map<Id, seq<Id>>, root: Id)

  /** Which scale may contain which: each the next, and the same-scale nestings of
      System and Moon. */
  predicate Allowed(parent: Scale, child: Scale) {
    match parent
    case Universe => child == Galaxy
    case Galaxy => child == System || child == Planet
    case System => child == System || child == Planet
    case Planet => child == Moon
    case Moon => child == Moon
  }

  predicate IsRoot(e: Entity) {
    e.scale == Universe && e.parent == None
  }

  function Roots(entities: seq<Entity>): seq<Id> {
    if entities == [] then []
    else
      var last := entities[|entities| - 1];
      Roots(entities[..|entities| - 1]) + (if IsRoot(last) then [last.id] else [])
  }

  function IndexOf(entities: seq<Entity>): (m: Index)
    ensures forall id :: id in m ==> m[id] in entities && m[id].id == id
    ensures forall e :: e in entities ==> e.id in m
  {
    if entities == [] then map[]
    else IndexOf(entities[..|entities| - 1])[entities[|entities| - 1].id := entities[|entities| - 1]]
  }

  /** The `n`-th ancestor of `id`, the zeroth being `id` itself. */
  ghost function Climb(m: Index, id: Id, n: nat): Option<Id> {
    if n == 0 then Some(id)
    else match Climb(m, id, n - 1)
         case None => None
         case Some(v) => if v in m then m[v].parent else None
  }

  /** The parent chain of `id` ends. */
  ghost predicate Grounded(m: Index, id: Id) {
    exists n: nat :: Climb(m, id, n) == None
  }

  ghost predicate OnCycle(m: Index, id: Id) {
    exists n: nat :: n > 0 && Climb(m, id, n) == Some(id)
  }

  ghost predicate PlacedUnder(m: Index, e: Entity) {
    e.parent.Some? && e.parent.value in m && Allowed(m[e.parent.value].scale, e.scale)
  }

  /** A containment tree: one Universe root, everything else placed under an entity of an
      allowed scale, and no parent chain that runs for ever. */
  ghost predicate WellFormed(entities: seq<Entity>) {
    var m := IndexOf(entities);
    && DistinctIds(entities)
    && |Roots(entities)| == 1
    && (forall e :: e in entities && e.id != Roots(entities)[0] ==> PlacedUnder(m, e))
    && (forall e :: e in entities ==> Grounded(m, e.id))
  }

  /** The ids of the entities placed directly under `id`, in list order. */
  function ChildIds(entities: seq<Entity>, id: Id): seq<Id> {
    if entities == [] then []
    else
      var last := entities[|entities| - 1];
      ChildIds(entities[..|entities| - 1], id) + (if last.parent == Some(id) then [last.id] else [])
  }

  /** ASCII letters in lower case. */
  function Lowered(s: string): string {
    if s == "" then ""
    else [if 'A' <= s[0] <= 'Z' then ((s[0] as int) + 32) as char else s[0]] + Lowered(s[1..])
  }

  /** Coarser first, then by lower-cased name, then by id. */
  predicate PlaceLeq(m: Index, a: Id, b: Id) {
    var r, s := if a in m then m[a].scale.Rank() else 0, if b in m then m[b].scale.Rank() else 0;
    var x, y := if a in m then Lowered(m[a].name) else "", if b in m then Lowered(m[b].name) else "";
    r < s || (r == s && TextLeq(x, y) && (x == y ==> a <= b))
  }

  function ByPlace(m: Index): (Id, Id) -> bool {
    (a, b) => PlaceLeq(m, a, b)
  }

  lemma PlacesAreOrdered(m: Index)
    ensures TotalPreorder(ByPlace(m))
    ensures forall a, b :: PlaceLeq(m, a, b) && PlaceLeq(m, b, a) ==> a == b
  {
    forall a, b ensures (PlaceLeq(m, a, b) || PlaceLeq(m, b, a)) && (PlaceLeq(m, a, b) && PlaceLeq(m, b, a) ==> a == b) {
      TextLeqTotal(if a in m then Lowered(m[a].name) else "", if b in m then Lowered(m[b].name) else "");
    }
    forall a, b, c | PlaceLeq(m, a, b) && PlaceLeq(m, b, c) ensures PlaceLeq(m, a, c) {
      PlaceIsTransitive(m, a, b, c);
    }
  }

  lemma PlaceIsTransitive(m: Index, a: Id, b: Id, c: Id)
    requires PlaceLeq(m, a, b) && PlaceLeq(m, b, c)
    ensures PlaceLeq(m, a, c)
  {
    hide Lowered;
    var x, y, z := if a in m then Lowered(m[a].name) else "", if b in m then Lowered(m[b].name) else "",
      if c in m then Lowered(m[c].name) else "";
    TextLeqTotal(x, y);
    TextLeqTotal(y, z);
    hide TextLeq;
    if TextLeq(x, y) && TextLeq(y, z) {
      TextLeqTransitive(x, y, z);
    }
  }

  /** The tree's tables: the entities by id, the root, and the children of every id in place order. */
  ghost predicate IsTreeOf(t: Tree, entities: seq<Entity>) {
    && t.entities == IndexOf(entities)
    && Roots(entities) == [t.root]
    && (forall id :: ListedUnder(t.children, id) == SortBy(ChildIds(entities, id), ByPlace(t.entities)))
  }

  /** Sorting children loses none. */
  lemma ChildrenListed(t: Tree, entities: seq<Entity>, id: Id)
    requires IsTreeOf(t, entities)
    ensures multiset(ListedUnder(t.children, id)) == multiset(ChildIds(entities, id))
    ensures Sorted(ListedUnder(t.children, id), ByPlace(t.entities))
  {
    PlacesAreOrdered(t.entities);
    hide SortBy, ByPlace, ChildIds, IndexOf, Roots;
    SortBySorts(ChildIds(entities, id), ByPlace(t.entities));
  }

  function ListedUnder(children: map<Id, seq<Id>>, id: Id): seq<Id> {
    if id in children then children[id] else []
  }

  // ---- Parent chains ----

  lemma {:induction false} ClimbOn(m: Index, id: Id, v: Id, a: nat, b: nat)
    requires Climb(m, id, a) == Some(v)
    ensures Climb(m, id, a + b) == Climb(m, v, b)
  {
    if b > 0 {
      ClimbOn(m, id, v, a, b - 1);
    }
  }

  lemma {:induction false} PastTheTop(m: Index, id: Id, a: nat, b: nat)
    requires a <= b && Climb(m, id, a) == None
    ensures Climb(m, id, b) == None
    decreases b
  {
    if a < b {
      PastTheTop(m, id, a, b - 1);
    }
  }

  lemma {:induction false} CycleNeverEnds(m: Index, v: Id, p: nat, n: nat)
    requires p > 0 && Climb(m, v, p) == Some(v)
    ensures Climb(m, v, n) != None
  {
    if n < p {
      if Climb(m, v, n) == None {
        PastTheTop(m, v, n, p);
      }
    } else {
      ClimbOn(m, v, v, p, n - p);
      CycleNeverEnds(m, v, p, n - p);
    }
  }

  /** A chain that meets the same entity twice has met a cycle, and never ends. */
  lemma RepeatIsCycle(m: Index, id: Id, a: nat, b: nat, v: Id)
    requires a < b && Climb(m, id, a) == Some(v) && Climb(m, id, b) == Some(v)
    ensures OnCycle(m, v) && !Grounded(m, id)
  {
    ClimbOn(m, id, v, a, b - a);
    forall n: nat ensures Climb(m, id, n) != None {
      if Climb(m, id, n) == None {
        PastTheTop(m, id, n, a + n);
        ClimbOn(m, id, v, a, n);
        CycleNeverEnds(m, v, b - a, n);
      }
    }
  }

  // ---- Validation ----

  lemma IndexAppend(a: seq<Entity>, e: Entity)
    ensures IndexOf(a + [e]) == IndexOf(a)[e.id := e]
  {
    assert (a + [e])[..|a|] == a;
  }

  lemma ChildIdsAppend(a: seq<Entity>, e: Entity, id: Id)
    ensures ChildIds(a + [e], id) == ChildIds(a, id) + (if e.parent == Some(id) then [e.id] else [])
  {
    assert (a + [e])[..|a|] == a;
  }

  lemma RootsAppend(a: seq<Entity>, e: Entity)
    ensures Roots(a + [e]) == Roots(a) + (if IsRoot(e) then [e.id] else [])
  {
    assert (a + [e])[..|a|] == a;
  }

  lemma {:induction false} RootsAreRoots(entities: seq<Entity>)
    ensures forall id :: id in Roots(entities) <==> exists e :: e in entities && IsRoot(e) && e.id == id
  {
    if entities != [] {
      var n := |entities| - 1;
      RootsAreRoots(entities[..n]);
      assert entities == entities[..n] + [entities[n]];
    }
  }

  lemma {:induction false} IndexedUnderOwnId(entities: seq<Entity>)
    requires DistinctIds(entities)
    ensures forall e :: e in entities ==> e.id in IndexOf(entities) && IndexOf(entities)[e.id] == e
  {
    forall e | e in entities ensures IndexOf(entities)[e.id] == e {
      var f := IndexOf(entities)[e.id];
      var i :| 0 <= i < |entities| && entities[i] == e;
      var j :| 0 <= j < |entities| && entities[j] == f;
    }
  }

  lemma RootIsUnique(entities: seq<Entity>)
    requires DistinctIds(entities) && |Roots(entities)| == 1
    ensures forall e :: e in entities ==> (IsRoot(e) <==> e.id == Roots(entities)[0])
    ensures exists e :: e in entities && IsRoot(e) && e.id == Roots(entities)[0]
  {
    RootsAreRoots(entities);
    var root := Roots(entities)[0];
    assert root in Roots(entities);
    var r :| r in entities && IsRoot(r) && r.id == root;
    hide Roots;
    forall e | e in entities && IsRoot(e) ensures e.id == root {
      assert e.id in Roots(entities);
    }
    forall e | e in entities && e.id == root ensures e == r {
      var i :| 0 <= i < |entities| && entities[i] == e;
      var j :| 0 <= j < |entities| && entities[j] == r;
    }
  }

  /** What each error reports. */
  ghost predicate Explains(entities: seq<Entity>, error: Error) {
    var m := IndexOf(entities);
    match error
    case Duplicate(id) => exists i, j :: 0 <= i < j < |entities| && entities[i].id == id == entities[j].id
    case RootCount(n) => n == |Roots(entities)| && n != 1
    case MissingParent(id) =>
      exists e :: e in entities && e.id == id && !IsRoot(e) && (e.parent.Some? ==> e.parent.value !in m)
    case InvalidScale(id, scale) =>
      exists e :: e in entities && e.id == id && e.parent.Some? && e.parent.value in m
        && m[e.parent.value].scale == scale && !Allowed(scale, e.scale)
    case Cycle(id) => OnCycle(m, id)
  }

  method IndexById(entities: seq<Entity>) returns (r: Result<Index, Error>)
    ensures r.Ok? <==> DistinctIds(entities)
    ensures r.Ok? ==> r.value == IndexOf(entities)
    ensures r.Err? ==> r.error.Duplicate? && Explains(entities, r.error)
  {
    hide IndexOf;
    var byId: Index := map[];
    assert IndexOf([]) == map[] by { EmptyIndex(); }
    assert entities[..0] == [];
    for i := 0 to |entities|
      invariant byId == IndexOf(entities[..i]) && DistinctIds(entities[..i])
    {
      assert entities[..i + 1] == entities[..i] + [entities[i]];
      IndexAppend(entities[..i], entities[i]);
      if entities[i].id in byId {
        var k :| 0 <= k < i && entities[..i][k] == byId[entities[i].id];
        return Err(Duplicate(entities[i].id));
      }
      byId := byId[entities[i].id := entities[i]];
    }
    assert entities[..|entities|] == entities;
    return Ok(byId);
  }

  lemma EmptyIndex()
    ensures IndexOf([]) == map[]
  {
  }

  method CollectRoots(entities: seq<Entity>) returns (roots: seq<Id>)
    ensures roots == Roots(entities)
  {
    roots := [];
    for i := 0 to |entities|
      invariant roots == Roots(entities[..i])
    {
      assert entities[..i + 1] == entities[..i] + [entities[i]];
      RootsAppend(entities[..i], entities[i]);
      if IsRoot(entities[i]) {
        roots := roots + [entities[i].id];
      }
    }
    assert entities[..|entities|] == entities;
  }

  method LinkChildren(entities: seq<Entity>, m: Index, root: Id) returns (r: Result<map<Id, seq<Id>>, Error>)
    requires m == IndexOf(entities)
    requires forall e :: e in entities ==> (IsRoot(e) <==> e.id == root)
    ensures r.Ok? <==> forall e :: e in entities && e.id != root ==> PlacedUnder(m, e)
    ensures r.Ok? ==> forall id :: ListedUnder(r.value, id) == ChildIds(entities, id)
    ensures r.Err? ==> Explains(entities, r.error)
  {
    hide IndexOf, ChildIds, Allowed, ListedUnder;
    var children: map<Id, seq<Id>> := map[];
    assert entities[..0] == [];
    NothingListed();
    for i := 0 to |entities|
      invariant forall id :: ListedUnder(children, id) == ChildIds(entities[..i], id)
      invariant forall e :: e in entities[..i] && e.id != root ==> PlacedUnder(m, e)
    {
      var e := entities[i];
      assert e in entities && entities[..i + 1] == entities[..i] + [e];
      if e.id != root {
        if e.parent == None || e.parent.value !in m {
          assert !PlacedUnder(m, e);
          return Err(MissingParent(e.id));
        }
        var p := e.parent.value;
        if !Allowed(m[p].scale, e.scale) {
          assert !PlacedUnder(m, e);
          return Err(InvalidScale(e.id, m[p].scale));
        }
        Linked(children, entities[..i], e, p);
        children := children[p := ListedUnder(children, p) + [e.id]];
      } else {
        Unlinked(children, entities[..i], e);
      }
    }
    assert entities[..|entities|] == entities;
    return Ok(children);
  }

  lemma Linked(children: map<Id, seq<Id>>, done: seq<Entity>, e: Entity, p: Id)
    requires forall id :: ListedUnder(children, id) == ChildIds(done, id)
    requires e.parent == Some(p)
    ensures forall id :: ListedUnder(children[p := ListedUnder(children, p) + [e.id]], id) == ChildIds(done + [e], id)
  {
    hide ChildIds;
    forall id { ChildIdsAppend(done, e, id); }
  }

  lemma Unlinked(children: map<Id, seq<Id>>, done: seq<Entity>, e: Entity)
    requires forall id :: ListedUnder(children, id) == ChildIds(done, id)
    requires e.parent == None
    ensures forall id :: ListedUnder(children, id) == ChildIds(done + [e], id)
  {
    hide ChildIds;
    forall id { ChildIdsAppend(done, e, id); }
  }

  lemma NothingListed()
    ensures forall id :: ListedUnder(map[], id) == ChildIds([], id)
  {
  }

  /** `from_entities`: succeeds on exactly the containment trees, and otherwise names a real
      defect. */
  method FromEntities(entities: seq<Entity>) returns (r: Result<Tree, Error>)
    ensures r.Ok? <==> WellFormed(entities)
    ensures r.Ok? ==> IsTreeOf(r.value, entities)
    ensures r.Err? ==> Explains(entities, r.error)
  {
    hide IndexOf, Roots, ChildIds, Explains, OnCycle, Grounded, DistinctIds, IsRoot, Allowed;
    var index := IndexById(entities);
    if index.Err? {
      return Err(index.error);
    }
    var roots := CollectRoots(entities);
    if |roots| != 1 {
      ExplainedByCount(entities);
      return Err(RootCount(|roots|));
    }
    var m, root := index.value, roots[0];
    RootIsUnique(entities);
    var children := LinkChildren(entities, m, root);
    if children.Err? {
      return Err(children.error);
    }
    var sorted := SortChildren(children.value, m);
    RootHasNoParent(entities, root);
    var cycle := FindCycle(m);
    if cycle.Some? {
      ExplainedByCycle(entities, cycle.value);
      return Err(Cycle(cycle.value));
    }
    SameKeysGrounded(entities);
    return Ok(Tree(m, sorted, root));
  }

  lemma SameKeysGrounded(entities: seq<Entity>)
    requires forall id :: id in IndexOf(entities) ==> Grounded(IndexOf(entities), id)
    ensures forall e :: e in entities ==> Grounded(IndexOf(entities), e.id)
  {
    hide Grounded;
  }

  method SortChildren(children: map<Id, seq<Id>>, m: Index) returns (sorted: map<Id, seq<Id>>)
    ensures forall id :: ListedUnder(sorted, id) == SortBy(ListedUnder(children, id), ByPlace(m))
  {
    hide ByPlace;
    sorted := children;
    var left := children.Keys;
    while left != {}
      invariant sorted.Keys == children.Keys && left <= children.Keys
      invariant forall id :: id in left ==> sorted[id] == children[id]
      invariant forall id :: id in children && id !in left ==> sorted[id] == SortBy(children[id], ByPlace(m))
    {
      var id :| id in left;
      left := left - {id};
      sorted := sorted[id := SortBy(sorted[id], ByPlace(m))];
    }
  }

  lemma ExplainedByCount(entities: seq<Entity>)
    requires |Roots(entities)| != 1
    ensures Explains(entities, RootCount(|Roots(entities)|))
  {
  }

  lemma ExplainedByCycle(entities: seq<Entity>, id: Id)
    requires OnCycle(IndexOf(entities), id)
    ensures Explains(entities, Cycle(id))
  {
  }

  lemma RootHasNoParent(entities: seq<Entity>, root: Id)
    requires DistinctIds(entities)
    requires forall e :: e in entities ==> (IsRoot(e) <==> e.id == root)
    requires forall e :: e in entities && e.id != root ==> PlacedUnder(IndexOf(entities), e)
    ensures var m := IndexOf(entities); forall id :: id in m && m[id].parent.Some? ==> m[id].parent.value in m
  {
    IndexedUnderOwnId(entities);
  }

  /** Where a climb from `id` enters a cycle: the first entity on its chain that lies on one. */
  ghost predicate EntersCycleAt(m: Index, id: Id, v: Id) {
    OnCycle(m, v) && exists n: nat :: Climb(m, id, n) == Some(v) && forall k: nat :: k < n ==> !VisitsCycle(m, id, k)
  }

  ghost predicate VisitsCycle(m: Index, id: Id, k: nat) {
    Climb(m, id, k).Some? && OnCycle(m, Climb(m, id, k).value)
  }

  /** The least id whose chain never ends, and where that chain enters its cycle. */
  ghost predicate FirstCycleAt(m: Index, v: Id) {
    exists id :: id in m && !Grounded(m, id) && (forall x :: x in m && x < id ==> Grounded(m, x)) && EntersCycleAt(m, id, v)
  }

  lemma LeastKey(ids: set<Id>) returns (least: Id)
    requires ids != {}
    ensures least in ids && forall i :: i in ids ==> least <= i
  {
    var first :| first in ids;
    least := first;
    if i :| i in ids && i < first {
      assert i in ids - {first};
      least := LeastKey(ids - {first});
      assert forall j :: j in ids ==> j == first || j in ids - {first};
    }
  }

  /** `ensure_acyclic`: climb from every entity in the order of their ids. */
  method FindCycle(m: Index) returns (r: Option<Id>)
    requires forall id :: id in m && m[id].parent.Some? ==> m[id].parent.value in m
    ensures r == None <==> forall id :: id in m ==> Grounded(m, id)
    ensures r.Some? ==> OnCycle(m, r.value) && FirstCycleAt(m, r.value)
  {
    hide Grounded, OnCycle, EntersCycleAt;
    var left := m.Keys;
    while left != {}
      invariant left <= m.Keys
      invariant forall x :: x in m && x !in left ==> Grounded(m, x)
    {
      ghost var least := LeastKey(left);
      var id :| id in left && forall i :: i in left ==> id <= i;
      r := ClimbToTop(m, id);
      if r.Some? {
        assert forall x :: x in m && x < id ==> x !in left;
        EntryIsOnCycle(m, id, r.value);
        return;
      }
      left := left - {id};
    }
    return None;
  }

  lemma EntryIsOnCycle(m: Index, id: Id, v: Id)
    requires EntersCycleAt(m, id, v)
    ensures OnCycle(m, v)
  {
  }

  /** A climb remembers what it passed; its first repeat is where it enters the cycle. */
  method ClimbToTop(m: Index, id: Id) returns (r: Option<Id>)
    requires forall id :: id in m && m[id].parent.Some? ==> m[id].parent.value in m
    ensures r == None <==> Grounded(m, id)
    ensures r.Some? ==> EntersCycleAt(m, id, r.value)
  {
    hide EntersCycleAt, Passed;
    var seen: set<Id> := {};
    var current := Some(id);
    ghost var n: nat := 0;
    NonePassed(m, id);
    while current.Some?
      invariant current == Climb(m, id, n)
      invariant current.Some? ==> current.value in m.Keys + {id}
      invariant seen <= m.Keys + {id}
      invariant Passed(m, id, n, seen)
      decreases m.Keys + {id} - seen, current.Some?
    {
      var v := current.value;
      if v in seen {
        RepeatEnters(m, id, n, seen, v);
        return Some(v);
      }
      PassNext(m, id, n, seen, v);
      seen := seen + {v};
      current := if v in m then m[v].parent else None;
      n := n + 1;
    }
    return None;
  }

  /** The first `n` places of a climb, all different, are what has been seen. */
  ghost predicate Passed(m: Index, id: Id, n: nat, seen: set<Id>) {
    && (forall v :: v in seen <==> exists j: nat :: j < n && Climb(m, id, j) == Some(v))
    && (forall j: nat, k: nat :: j < k < n ==> Climb(m, id, j) != Climb(m, id, k))
  }

  lemma NonePassed(m: Index, id: Id)
    ensures Passed(m, id, 0, {})
  {
  }

  lemma PassNext(m: Index, id: Id, n: nat, seen: set<Id>, v: Id)
    requires Passed(m, id, n, seen) && Climb(m, id, n) == Some(v) && v !in seen
    ensures Passed(m, id, n + 1, seen + {v})
  {
    hide Climb;
  }

  lemma RepeatEnters(m: Index, id: Id, n: nat, seen: set<Id>, v: Id)
    requires Passed(m, id, n, seen) && Climb(m, id, n) == Some(v) && v in seen
    ensures EntersCycleAt(m, id, v) && !Grounded(m, id)
  {
    hide Climb;
    var j: nat :| j < n && Climb(m, id, j) == Some(v);
    RepeatIsCycle(m, id, j, n, v);
    FirstRepeatEnters(m, id, j, n, v);
  }

  /** From a repeat on, the chain runs round: whatever comes later came in the first round. */
  lemma {:induction false} RunsRound(m: Index, id: Id, j: nat, p: nat, k: nat) returns (back: nat)
    requires p > 0 && Climb(m, id, j) == Climb(m, id, j + p) && k >= j
    ensures j <= back < j + p && Climb(m, id, k) == Climb(m, id, back)
    decreases k
  {
    if k < j + p {
      back := k;
    } else {
      SameAfter(m, id, j, j + p, k - p - j);
      back := RunsRound(m, id, j, p, k - p);
    }
  }

  lemma {:induction false} SameAfter(m: Index, id: Id, a: nat, b: nat, n: nat)
    requires Climb(m, id, a) == Climb(m, id, b)
    ensures Climb(m, id, a + n) == Climb(m, id, b + n)
  {
    if n > 0 {
      SameAfter(m, id, a, b, n - 1);
    }
  }

  lemma FirstRepeatEnters(m: Index, id: Id, j: nat, n: nat, v: Id)
    requires j < n && Climb(m, id, j) == Some(v) && Climb(m, id, n) == Some(v) && OnCycle(m, v)
    requires forall a: nat, b: nat :: a < b < n ==> Climb(m, id, a) != Climb(m, id, b)
    ensures EntersCycleAt(m, id, v)
  {
    forall k: nat | k < j ensures !VisitsCycle(m, id, k) {
      if VisitsCycle(m, id, k) {
        var w := Climb(m, id, k).value;
        var p: nat :| p > 0 && Climb(m, w, p) == Some(w);
        var again := Rounds(m, id, k, p, w, j);
        var back := RunsRound(m, id, j, n - j, again);
      }
    }
  }

  /** Something on a cycle comes by again as late as one likes. */
  lemma {:induction false} Rounds(m: Index, id: Id, k: nat, p: nat, w: Id, late: nat) returns (again: nat)
    requires p > 0 && Climb(m, id, k) == Some(w) && Climb(m, w, p) == Some(w)
    ensures again >= late && Climb(m, id, again) == Some(w)
    decreases late - k
  {
    if k >= late {
      again := k;
    } else {
      ClimbOn(m, id, w, k, p);
      again := Rounds(m, id, k + p, p, w, late);
    }
  }

  // ---- Depth, ancestors and descendants ----

  ghost function LeastEnd(m: Index, id: Id, n: nat): (d: nat)
    requires Climb(m, id, n) == None
    ensures d <= n && Climb(m, id, d) == None && (d == 0 || Climb(m, id, d - 1) != None)
  {
    if n == 0 || Climb(m, id, n - 1) != None then n else LeastEnd(m, id, n - 1)
  }

  /** The number of entities on the parent chain of `id`, itself included. */
  ghost function Depth(m: Index, id: Id): (d: nat)
    requires Grounded(m, id)
    ensures d > 0 && Climb(m, id, d) == None && Climb(m, id, d - 1) != None
  {
    var n: nat :| Climb(m, id, n) == None;
    LeastEnd(m, id, n)
  }

  lemma DepthOfParent(m: Index, id: Id, p: Id)
    requires Grounded(m, id) && id in m && m[id].parent == Some(p)
    ensures Grounded(m, p) && Depth(m, id) == Depth(m, p) + 1
  {
    var d := Depth(m, id);
    assert Climb(m, id, 1) == Some(p);
    assert d != 1;
    ClimbOn(m, id, p, 1, d - 1);
    ClimbOn(m, id, p, 1, d - 2);
    var e := Depth(m, p);
    if e < d - 1 {
      PastTheTop(m, p, e, d - 2);
    } else if e > d - 1 {
      PastTheTop(m, p, d - 1, e - 1);
    }
  }

  /** `x` is `a` or lies below it. */
  ghost predicate Under(m: Index, x: Id, a: Id) {
    exists n: nat :: Climb(m, x, n) == Some(a)
  }

  ghost predicate Below(m: Index, x: Id, a: Id) {
    x in m && m[x].parent.Some? && Under(m, m[x].parent.value, a)
  }

  lemma UnderIsSelfOrBelow(m: Index, x: Id, a: Id)
    ensures Under(m, x, a) <==> x == a || Below(m, x, a)
  {
    assert Climb(m, x, 0) == Some(x);
    if x != a && Under(m, x, a) {
      var n: nat :| Climb(m, x, n) == Some(a);
      if Climb(m, x, 1) == None {
        PastTheTop(m, x, 1, n);
      }
      ClimbOn(m, x, m[x].parent.value, 1, n - 1);
    }
    if Below(m, x, a) {
      var p := m[x].parent.value;
      var n: nat :| Climb(m, p, n) == Some(a);
      assert Climb(m, x, 1) == Some(p);
      ClimbOn(m, x, p, 1, n);
    }
  }

  lemma UnderTransitive(m: Index, x: Id, y: Id, z: Id)
    requires Under(m, x, y) && Under(m, y, z)
    ensures Under(m, x, z)
  {
    var a: nat :| Climb(m, x, a) == Some(y);
    var b: nat :| Climb(m, y, b) == Some(z);
    ClimbOn(m, x, y, a, b);
  }

  /** Being under something costs depth. */
  lemma {:induction false} UnderIsDeeper(m: Index, x: Id, a: Id, n: nat)
    requires Grounded(m, x) && Climb(m, x, n) == Some(a)
    ensures Grounded(m, a) && Depth(m, x) == Depth(m, a) + n
    decreases n
  {
    if n > 0 {
      var b := Climb(m, x, n - 1).value;
      UnderIsDeeper(m, x, b, n - 1);
      DepthOfParent(m, b, a);
    }
  }

  lemma BelowIsStrict(m: Index, x: Id, a: Id)
    requires Grounded(m, x) && Below(m, x, a)
    ensures Grounded(m, a) && Depth(m, x) > Depth(m, a) && x != a
  {
    var p := m[x].parent.value;
    DepthOfParent(m, x, p);
    var n: nat :| Climb(m, p, n) == Some(a);
    UnderIsDeeper(m, p, a, n);
  }

  lemma {:induction false} ChildIdsAreChildren(entities: seq<Entity>, id: Id)
    ensures forall x :: x in ChildIds(entities, id) <==> exists e :: e in entities && e.id == x && e.parent == Some(id)
    ensures DistinctIds(entities) ==> forall i, j :: 0 <= i < j < |ChildIds(entities, id)| ==> ChildIds(entities, id)[i] != ChildIds(entities, id)[j]
  {
    if entities != [] {
      var n := |entities| - 1;
      ChildIdsAreChildren(entities[..n], id);
      assert entities == entities[..n] + [entities[n]];
      assert DistinctIds(entities) ==> forall e :: e in entities[..n] ==> e.id != entities[n].id;
      assert DistinctIds(entities) ==> entities[n].id !in ChildIds(entities[..n], id);
    }
  }

  /** The ids listed under `id` are exactly the indexed entities whose parent is `id`. */
  lemma ChildrenInIndex(entities: seq<Entity>, id: Id)
    requires DistinctIds(entities)
    ensures var m := IndexOf(entities);
            forall x :: x in ChildIds(entities, id) <==> x in m && m[x].parent == Some(id)
  {
    ChildIdsAreChildren(entities, id);
    IndexedUnderOwnId(entities);
  }

  /** Every parent chain of a containment tree ends at the one root. */
  lemma ChainsEndAtRoot(entities: seq<Entity>, e: Entity)
    requires WellFormed(entities) && e in entities
    ensures Climb(IndexOf(entities), e.id, Depth(IndexOf(entities), e.id) - 1) == Some(Roots(entities)[0])
  {
    var m := IndexOf(entities);
    IndexedUnderOwnId(entities);
    RootIsUnique(entities);
    var d := Depth(m, e.id);
    var top := Climb(m, e.id, d - 1).value;
    ClimbStaysInside(entities, e.id, d - 1);
    assert Climb(m, e.id, d) == m[top].parent;
  }

  lemma {:induction false} ClimbStaysInside(entities: seq<Entity>, id: Id, n: nat)
    requires WellFormed(entities) && id in IndexOf(entities)
    ensures Climb(IndexOf(entities), id, n).Some? ==> Climb(IndexOf(entities), id, n).value in IndexOf(entities)
  {
    if n > 0 {
      ClimbStaysInside(entities, id, n - 1);
      RootIsUnique(entities);
      hide IndexOf, Roots, DistinctIds;
      RootHasNoParent(entities, Roots(entities)[0]);
    }
  }

  // ---- Descendants ----

  ghost predicate NoDuplicates(s: seq<Id>) {
    forall i, j :: 0 <= i < j < |s| ==> s[i] != s[j]
  }

  /** The state of the descendant walk: what is left to find lies under exactly one pending
      entity, and nothing found or pending lies under a pending one. */
  ghost predicate Frontier(m: Index, id: Id, result: seq<Id>, pending: seq<Id>) {
    && (forall x :: x in result || x in pending ==> x in m)
    && (forall x :: x in m ==> (Below(m, x, id) <==> x in result || exists p :: p in pending && Under(m, x, p)))
    && NoDuplicates(result)
    && (forall r, p :: r in result && p in pending ==> !Under(m, r, p))
    && (forall i, j :: 0 <= i < |pending| && 0 <= j < |pending| && i != j ==> !Under(m, pending[i], pending[j]))
  }

  /** Below `a` is under one of its children. */
  lemma BelowIsUnderAChild(m: Index, x: Id, a: Id) returns (c: Id)
    requires Below(m, x, a)
    ensures c in m && m[c].parent == Some(a) && Under(m, x, c)
  {
    var n: nat :| Climb(m, m[x].parent.value, n) == Some(a);
    assert Climb(m, x, 1) == m[x].parent;
    ClimbOn(m, x, m[x].parent.value, 1, n);
    c := Climb(m, x, n).value;
  }

  lemma ChildIsBelow(m: Index, c: Id, a: Id)
    requires c in m && m[c].parent == Some(a)
    ensures Below(m, c, a) && Under(m, c, a)
  {
    assert Climb(m, a, 0) == Some(a);
    UnderIsSelfOrBelow(m, c, a);
  }

  /** Nothing proper separates a child from its parent. */
  lemma AboveAChild(m: Index, c: Id, a: Id, q: Id)
    requires c in m && m[c].parent == Some(a) && Under(m, c, q) && c != q
    ensures Under(m, a, q)
  {
    UnderIsSelfOrBelow(m, c, q);
  }

  /** Seeding the walk with the children of `id`. */
  lemma FrontierStarts(m: Index, id: Id, kids: seq<Id>)
    requires forall x :: x in m ==> Grounded(m, x)
    requires NoDuplicates(kids) && forall x :: x in kids <==> x in m && m[x].parent == Some(id)
    ensures Frontier(m, id, [], kids)
  {
    forall x | x in m ensures Below(m, x, id) <==> exists p :: p in kids && Under(m, x, p) {
      if Below(m, x, id) {
        var c := BelowIsUnderAChild(m, x, id);
        assert c in kids;
      }
      if p :| p in kids && Under(m, x, p) {
        ChildIsBelow(m, p, id);
        UnderTransitive(m, x, p, id);
        UnderIsSelfOrBelow(m, x, id);
        if x == id {
          BelowIsStrict(m, p, id);
          var n: nat :| Climb(m, x, n) == Some(p);
          UnderIsDeeper(m, x, p, n);
        }
      }
    }
    SiblingsApart(m, id, kids);
  }

  lemma SiblingsApart(m: Index, a: Id, kids: seq<Id>)
    requires forall x :: x in m ==> Grounded(m, x)
    requires NoDuplicates(kids) && forall x :: x in kids ==> x in m && m[x].parent == Some(a)
    ensures forall i, j :: 0 <= i < |kids| && 0 <= j < |kids| && i != j ==> !Under(m, kids[i], kids[j])
  {
    forall i, j | 0 <= i < |kids| && 0 <= j < |kids| && i != j ensures !Under(m, kids[i], kids[j]) {
      if Under(m, kids[i], kids[j]) {
        AboveAChild(m, kids[i], a, kids[j]);
        assert kids[j] in kids && kids[j] in m;
        var n: nat :| Climb(m, a, n) == Some(kids[j]);
        DepthOfParent(m, kids[j], a);
        UnderIsDeeper(m, a, kids[j], n);
      }
    }
  }

  /** Popping the last pending entity and pushing its children. */
  lemma FrontierStep(m: Index, id: Id, result: seq<Id>, rest: seq<Id>, a: Id, kids: seq<Id>)
    requires forall x :: x in m ==> Grounded(m, x)
    requires Frontier(m, id, result, rest + [a])
    requires NoDuplicates(kids) && forall x :: x in kids <==> x in m && m[x].parent == Some(a)
    ensures a in m && a !in result && Frontier(m, id, result + [a], rest + kids)
  {
    hide Under, Below, Grounded;
    var pending, next, found := rest + [a], rest + kids, result + [a];
    assert pending[|rest|] == a && forall q :: q in rest ==> q in pending;
    assert forall q :: q in next <==> q in rest || q in kids;
    assert forall q :: q in found <==> q in result || q == a;
    assert Under(m, a, a) by { UnderIsSelfOrBelow(m, a, a); }
    assert forall i :: 0 <= i < |rest| ==> pending[i] == rest[i];
    forall x | x in m ensures Below(m, x, id) <==> x in found || exists p :: p in next && Under(m, x, p) {
      StepCovers(m, id, result, rest, a, kids, x);
    }
    forall r, p | r in found && p in next ensures !Under(m, r, p) {
      if p in kids {
        NotUnderKid(m, r, p, a);
      }
    }
    SiblingsApart(m, a, kids);
    forall i, j | 0 <= i < |next| && 0 <= j < |next| && i != j ensures !Under(m, next[i], next[j]) {
      StepApart(m, rest, a, kids, i, j);
    }
  }

  /** What is under a child of `a` is under `a` without being `a`. */
  lemma NotUnderKid(m: Index, r: Id, p: Id, a: Id)
    requires p in m && m[p].parent == Some(a) && Grounded(m, a) && Grounded(m, p)
    ensures Under(m, r, p) ==> r != a && Under(m, r, a)
  {
    if Under(m, r, p) {
      ChildIsBelow(m, p, a);
      UnderTransitive(m, r, p, a);
      if r == a {
        BelowIsStrict(m, p, a);
        var n: nat :| Climb(m, a, n) == Some(p);
        UnderIsDeeper(m, a, p, n);
      }
    }
  }

  lemma StepCovers(m: Index, id: Id, result: seq<Id>, rest: seq<Id>, a: Id, kids: seq<Id>, x: Id)
    requires x in m && Frontier(m, id, result, rest + [a])
    requires forall x :: x in kids <==> x in m && m[x].parent == Some(a)
    ensures Below(m, x, id) <==> x in result + [a] || exists p :: p in rest + kids && Under(m, x, p)
  {
    UnderIsSelfOrBelow(m, x, a);
    UnderIsSelfOrBelow(m, a, a);
    assert forall q :: q in rest + [a] <==> q in rest || q == a;
    assert forall q :: q in rest + kids <==> q in rest || q in kids;
    if Below(m, x, a) {
      var c := BelowIsUnderAChild(m, x, a);
      assert c in rest + kids;
    }
    if p :| p in kids && Under(m, x, p) {
      ChildIsBelow(m, p, a);
      UnderTransitive(m, x, p, a);
      assert a in rest + [a];
    }
  }

  lemma StepApart(m: Index, rest: seq<Id>, a: Id, kids: seq<Id>, i: nat, j: nat)
    requires forall i, j :: 0 <= i <= |rest| && 0 <= j <= |rest| && i != j ==> !Under(m, (rest + [a])[i], (rest + [a])[j])
    requires forall x :: x in kids ==> x in m && m[x].parent == Some(a)
    requires forall i, j :: 0 <= i < |kids| && 0 <= j < |kids| && i != j ==> !Under(m, kids[i], kids[j])
    requires i < |rest + kids| && j < |rest + kids| && i != j
    ensures !Under(m, (rest + kids)[i], (rest + kids)[j])
  {
    hide Under, Below;
    var pending, r := rest + [a], |rest|;
    assert pending[r] == a && forall k :: 0 <= k < r ==> pending[k] == rest[k];
    if i < r && j < r {
    } else if i < r {
      if Under(m, rest[i], kids[j - r]) {
        ChildIsBelow(m, kids[j - r], a);
        UnderTransitive(m, rest[i], kids[j - r], a);
      }
    } else if j < r {
      if Under(m, kids[i - r], rest[j]) {
        ChildIsBelow(m, kids[i - r], a);
        if kids[i - r] != rest[j] {
          AboveAChild(m, kids[i - r], a, rest[j]);
        }
      }
    }
  }

  /** `descendants_of`: a stack walk that lists every proper descendant exactly once. */
  method DescendantsOf(t: Tree, id: Id, ghost entities: seq<Entity>) returns (result: seq<Id>)
    requires WellFormed(entities) && IsTreeOf(t, entities)
    ensures NoDuplicates(result) && Sorted(result, ByPlace(t.entities))
    ensures forall x :: x in result <==> Below(t.entities, x, id)
  {
    ghost var m := t.entities;
    hide IndexOf, Roots, ChildIds, Frontier, IsTreeOf, SortBy, ByPlace;
    result := [];
    var pending := ListedUnder(t.children, id);
    TreeChildren(t, entities, id);
    FrontierStarts(m, id, pending);
    while pending != []
      invariant Frontier(m, id, result, pending)
      invariant forall x :: x in result ==> x in m
      decreases m.Keys - set x | x in result
    {
      var next := pending[|pending| - 1];
      var rest := pending[..|pending| - 1];
      TreeChildren(t, entities, next);
      assert pending == rest + [next];
      FrontierStep(m, id, result, rest, next, ListedUnder(t.children, next));
      assert next in m.Keys - (set x | x in result);
      pending := rest + ListedUnder(t.children, next);
      result := result + [next];
      assert next !in m.Keys - (set x | x in result);
    }
    FrontierEnds(m, id, result);
    SortedDescendants(m, result);
    result := SortBy(result, ByPlace(t.entities));
  }

  lemma SortedDescendants(m: Index, result: seq<Id>)
    requires NoDuplicates(result)
    ensures var sorted := SortBy(result, ByPlace(m));
            NoDuplicates(sorted) && Sorted(sorted, ByPlace(m)) && forall x :: x in sorted <==> x in result
  {
    PlacesAreOrdered(m);
    SortBySorts(result, ByPlace(m));
    Rearranged(result, SortBy(result, ByPlace(m)));
  }

  lemma Rearranged(a: seq<Id>, b: seq<Id>)
    requires multiset(a) == multiset(b) && NoDuplicates(a)
    ensures NoDuplicates(b) && forall x :: x in b <==> x in a
  {
    DistinctAnyOrder(a, b, Itself);
    forall x ensures x in b <==> x in a {
      assert x in multiset(b) <==> x in multiset(a);
    }
    assert forall i, j :: 0 <= i < j < |b| ==> Itself(b[i]) != Itself(b[j]);
  }

  function Itself(id: Id): Id {
    id
  }

  lemma FrontierEnds(m: Index, id: Id, result: seq<Id>)
    requires Frontier(m, id, result, [])
    ensures NoDuplicates(result) && forall x :: x in result <==> Below(m, x, id)
  {
    assert forall x :: Below(m, x, id) ==> x in m;
  }

  lemma TreeChildren(t: Tree, entities: seq<Entity>, id: Id)
    requires WellFormed(entities) && IsTreeOf(t, entities)
    ensures NoDuplicates(ListedUnder(t.children, id))
    ensures forall x :: x in ListedUnder(t.children, id) <==> x in t.entities && t.entities[x].parent == Some(id)
    ensures forall x :: x in t.entities ==> Grounded(t.entities, x)
  {
    ChildrenInIndex(entities, id);
    ChildIdsAreChildren(entities, id);
    ChildrenListed(t, entities, id);
    hide ChildIds, IndexOf;
    Rearranged(ChildIds(entities, id), ListedUnder(t.children, id));
  }
}
