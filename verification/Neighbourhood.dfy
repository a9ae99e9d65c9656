/** The two breadth-first searches over the relationship index: `ModuleMap::neighbourhood`, and
    the Orbit compiler's, which also records distances. */
module Neighbourhoods {
  import opened Atlas
  import opened Sorting
  import opened ModuleMaps

  // ---- What a neighbourhood is ----

  /** The entities at most `d` relationships away from the starts, in either direction. */
  ghost function Within(g: seq<Edge>, starts: set<Id>, d: nat): set<Id> {
    if d == 0 then starts
    else
      var inner := Within(g, starts, d - 1);
      inner + (set e | e in g && e.source in inner :: e.target) + (set e | e in g && e.target in inner :: e.source)
  }

  ghost predicate Linked(g: seq<Edge>, a: Id, b: Id) {
    exists e :: e in g && ((e.source == a && e.target == b) || (e.source == b && e.target == a))
  }

  ghost predicate IsWalk(g: seq<Edge>, walk: seq<Id>) {
    walk != [] && forall i :: 0 < i < |walk| ==> Linked(g, walk[i - 1], walk[i])
  }

  ghost predicate Connects(g: seq<Edge>, starts: set<Id>, x: Id, d: nat, walk: seq<Id>) {
    IsWalk(g, walk) && |walk| <= d + 1 && walk[0] in starts && walk[|walk| - 1] == x
  }

  /** `Within` is what its name says: a walk of at most `d` relationships leads there. */
  lemma {:induction false} WithinIsByWalks(g: seq<Edge>, starts: set<Id>, x: Id, d: nat)
    ensures x in Within(g, starts, d) <==> exists walk :: Connects(g, starts, x, d, walk)
    decreases d
  {
    if x in Within(g, starts, d) {
      WalkThere(g, starts, x, d);
    }
    forall walk | Connects(g, starts, x, d, walk) ensures x in Within(g, starts, d) {
      WalkStaysWithin(g, starts, x, d, walk);
    }
  }

  lemma {:induction false} WalkThere(g: seq<Edge>, starts: set<Id>, x: Id, d: nat)
    requires x in Within(g, starts, d)
    ensures exists walk :: Connects(g, starts, x, d, walk)
    decreases d
  {
    if d == 0 {
      assert Connects(g, starts, x, d, [x]);
    } else if x in Within(g, starts, d - 1) {
      WalkThere(g, starts, x, d - 1);
      var walk :| Connects(g, starts, x, d - 1, walk);
      assert Connects(g, starts, x, d, walk);
    } else {
      var inner := Within(g, starts, d - 1);
      var e :| e in g && ((e.source in inner && e.target == x) || (e.target in inner && e.source == x));
      var y := if e.target == x && e.source in inner then e.source else e.target;
      assert Linked(g, y, x);
      WalkThere(g, starts, y, d - 1);
      var walk :| Connects(g, starts, y, d - 1, walk);
      assert Connects(g, starts, x, d, walk + [x]);
    }
  }

  lemma {:induction false} WalkStaysWithin(g: seq<Edge>, starts: set<Id>, x: Id, d: nat, walk: seq<Id>)
    requires Connects(g, starts, x, d, walk)
    ensures x in Within(g, starts, d)
    decreases |walk|
  {
    if |walk| == 1 {
      WithinGrows(g, starts, 0, d);
    } else {
      var n := |walk| - 1;
      assert IsWalk(g, walk[..n]);
      assert Connects(g, starts, walk[n - 1], d - 1, walk[..n]);
      WalkStaysWithin(g, starts, walk[n - 1], d - 1, walk[..n]);
      assert Linked(g, walk[n - 1], walk[n]);
    }
  }

  lemma {:induction false} WithinGrows(g: seq<Edge>, starts: set<Id>, c: nat, d: nat)
    requires c <= d
    ensures Within(g, starts, c) <= Within(g, starts, d)
    decreases d
  {
    if c < d {
      WithinGrows(g, starts, c, d - 1);
    }
  }

  /** `x` lies exactly `d` relationships away. */
  ghost predicate Exactly(g: seq<Edge>, starts: set<Id>, x: Id, d: int) {
    0 <= d && x in Within(g, starts, d) && (d > 0 ==> x !in Within(g, starts, d - 1))
  }

  /** An end of `e` lies strictly inside the depth bound. */
  ghost predicate Near(g: seq<Edge>, starts: set<Id>, depth: nat, e: Edge) {
    depth > 0 && (e.source in Within(g, starts, depth - 1) || e.target in Within(g, starts, depth - 1))
  }

  /** The distances of all entities within `depth`, and of no other. */
  ghost predicate Distances(depthOf: map<Id, int>, g: seq<Edge>, starts: set<Id>, depth: nat) {
    && depthOf.Keys == Within(g, starts, depth)
    && forall x :: x in depthOf ==> Exactly(g, starts, x, depthOf[x])
  }

  /** The near edges sorted by id, one for each id. */
  ghost predicate NearEdges(edges: seq<Edge>, g: seq<Edge>, starts: set<Id>, depth: nat) {
    && Sorted(edges, EdgeById)
    && UniqueEdgeIds(edges)
    && (forall e :: e in edges ==> e in g && Near(g, starts, depth, e))
    && (forall e :: e in g && Near(g, starts, depth, e) ==> e.id in EdgeIds(edges))
  }

  function EdgeIds(edges: seq<Edge>): set<Id> {
    set e | e in edges :: e.id
  }

  function EdgeIdOf(e: Edge): Id {
    e.id
  }

  ghost predicate UniqueEdgeIds(edges: seq<Edge>) {
    DistinctKeys(edges, EdgeIdOf)
  }

  // ---- The state of a search ----

  /** An entity waiting to be followed, with its distance. */
  datatype Stop = Stop(id: Id, distance: int)

  datatype Search = Search(depthOf: map<Id, int>, edgeIds: set<Id>, edges: seq<Edge>, queue: seq<Stop>)

  function OtherEnd(e: Edge, id: Id): Id {
    if e.source == id then e.target else e.source
  }

  ghost function Noted(s: Search, e: Edge): Search {
    if e.id in s.edgeIds then s else s.(edgeIds := s.edgeIds + {e.id}, edges := s.edges + [e])
  }

  ghost function Reached(s: Search, x: Id, d: int): Search {
    if x in s.depthOf then s else s.(depthOf := s.depthOf[x := d], queue := s.queue + [Stop(x, d)])
  }

  /** One edge followed from `id`, which lies at distance `d`. */
  ghost function Follow(s: Search, id: Id, d: int, e: Edge): Search {
    Reached(Noted(s, e), OtherEnd(e, id), d + 1)
  }

  /** Every entity reached so far has its distance, and level `c` is complete. */
  ghost predicate Placed(s: Search, g: seq<Edge>, starts: set<Id>, c: nat) {
    && (forall x :: x in s.depthOf ==> Exactly(g, starts, x, s.depthOf[x]))
    && Within(g, starts, c) <= s.depthOf.Keys
  }

  ghost predicate Ordered(s: Search, c: nat, depth: nat) {
    && (forall i :: 0 <= i < |s.queue| ==> c <= s.queue[i].distance <= c + 1 && s.queue[i].distance <= depth)
    && (forall i, j :: 0 <= i < j < |s.queue| ==> s.queue[i].distance <= s.queue[j].distance)
    && (forall i :: 0 <= i < |s.queue| ==> s.queue[i].id in s.depthOf && s.depthOf[s.queue[i].id] == s.queue[i].distance)
  }

  ghost predicate Seen(s: Search, e: Edge) {
    e.id in s.edgeIds && e.source in s.depthOf && e.target in s.depthOf
  }

  ghost predicate Waiting(s: Search, x: Id) {
    exists i :: 0 <= i < |s.queue| && s.queue[i].id == x
  }

  ghost predicate Done(s: Search, g: seq<Edge>, x: Id, depth: nat) {
    x in s.depthOf && s.depthOf[x] < depth ==>
      forall e :: e in g && (e.source == x || e.target == x) ==> Seen(s, e)
  }

  /** Everything reached is waiting, done, or being followed right now. */
  ghost predicate Accounted(s: Search, g: seq<Edge>, depth: nat, now: set<Id>) {
    forall x :: x in s.depthOf ==> x in now || Waiting(s, x) || Done(s, g, x, depth)
  }

  ghost predicate Listed(s: Search, g: seq<Edge>, starts: set<Id>, depth: nat) {
    && s.edgeIds == EdgeIds(s.edges)
    && UniqueEdgeIds(s.edges)
    && (forall e :: e in s.edges ==> e in g && Near(g, starts, depth, e))
  }

  ghost predicate Searching(s: Search, g: seq<Edge>, starts: set<Id>, c: int, depth: nat, now: set<Id>) {
    0 <= c <= depth && (forall x :: x in s.depthOf ==> s.depthOf[x] <= depth) && Placed(s, g, starts, c) && Ordered(s, c, depth) && Accounted(s, g, depth, now) && Listed(s, g, starts, depth)
  }

  // ---- Start, pop, follow, finish ----

  function Initial(starts: seq<Id>): seq<Stop> {
    seq(|starts|, i requires 0 <= i < |starts| => Stop(starts[i], 0))
  }

  function StartSet(starts: seq<Id>): set<Id> {
    set id | id in starts
  }

  function AtZero(starts: seq<Id>): map<Id, int> {
    map id | id in starts :: 0
  }

  lemma Begins(g: seq<Edge>, starts: seq<Id>, depth: nat)
    ensures Searching(Search(AtZero(starts), {}, [], Initial(starts)), g, StartSet(starts), 0, depth, {})
    ensures AtZero(starts).Keys == StartSet(starts)
  {
    var s := Search(AtZero(starts), {}, [], Initial(starts));
    forall x | x in s.depthOf ensures Waiting(s, x) {
      var i :| 0 <= i < |starts| && starts[i] == x;
      assert s.queue[i].id == x;
    }
  }

  /** Taking the head of the queue: when it is on the next level, this level is complete. */
  lemma Pop(s: Search, g: seq<Edge>, starts: set<Id>, c: int, depth: nat)
    requires Searching(s, g, starts, c, depth, {}) && s.queue != []
    ensures var Stop(id, d) := s.queue[0];
            id in s.depthOf && s.depthOf[id] == d && 0 <= d
            && Searching(s.(queue := s.queue[1..]), g, starts, d, depth, {id})
  {
    hide Within, Exactly, Waiting, Done, Near;
    HeadLevel(s, g, starts, c, depth);
    PopOrdered(s, c, depth);
    StillAccounted(s, g, depth);
  }

  lemma HeadLevel(s: Search, g: seq<Edge>, starts: set<Id>, c: nat, depth: nat)
    requires Searching(s, g, starts, c, depth, {}) && s.queue != []
    ensures s.queue[0].distance <= depth && Within(g, starts, s.queue[0].distance) <= s.depthOf.Keys
  {
    hide Within, Exactly, Waiting, Done, Near;
    if s.queue[0].distance == c + 1 {
      LevelComplete(s, g, starts, c, depth);
    }
  }

  lemma PopOrdered(s: Search, c: nat, depth: nat)
    requires Ordered(s, c, depth) && s.queue != []
    ensures s.queue[0].id in s.depthOf && s.depthOf[s.queue[0].id] == s.queue[0].distance
    ensures Ordered(s.(queue := s.queue[1..]), s.queue[0].distance, depth)
  {
  }

  lemma StillAccounted(s: Search, g: seq<Edge>, depth: nat)
    requires Accounted(s, g, depth, {}) && s.queue != []
    ensures Accounted(s.(queue := s.queue[1..]), g, depth, {s.queue[0].id})
  {
    var t := s.(queue := s.queue[1..]);
    forall x | x in t.depthOf ensures x == s.queue[0].id || Waiting(t, x) || Done(t, g, x, depth) {
      if x != s.queue[0].id && Waiting(s, x) {
        var i :| 0 <= i < |s.queue| && s.queue[i].id == x;
        assert t.queue[i - 1].id == x;
      }
      assert Done(s, g, x, depth) ==> Done(t, g, x, depth);
    }
  }

  /** When nothing of level `c` waits, all of level `c + 1` has been reached. */
  lemma LevelComplete(s: Search, g: seq<Edge>, starts: set<Id>, c: nat, depth: nat)
    requires Searching(s, g, starts, c, depth, {}) && c < depth
    requires forall i :: 0 <= i < |s.queue| ==> s.queue[i].distance > c
    ensures Within(g, starts, c + 1) <= s.depthOf.Keys
  {
    hide Within;
    forall e | e in g && (e.source in Within(g, starts, c) || e.target in Within(g, starts, c)) ensures Seen(s, e) {
      var x := if e.source in Within(g, starts, c) then e.source else e.target;
      ExactlyIsLeast(g, starts, x, s.depthOf[x], c);
      assert !Waiting(s, x) && Done(s, g, x, depth);
    }
    hide Searching;
    NextLevel(g, starts, c, s.depthOf.Keys);
  }

  lemma NotedKeeps(s: Search, g: seq<Edge>, starts: set<Id>, c: nat, depth: nat, now: set<Id>, e: Edge)
    requires Searching(s, g, starts, c, depth, now) && e in g && Near(g, starts, depth, e)
    ensures Searching(Noted(s, e), g, starts, c, depth, now)
  {
    hide Within, Near, Exactly;
    var t := Noted(s, e);
    if e.id !in s.edgeIds {
      assert forall f :: f in t.edges <==> f in s.edges || f == e;
      assert forall f :: f in s.edges ==> f.id in s.edgeIds;
      assert t.edgeIds == EdgeIds(t.edges);
    }
    forall x | x in t.depthOf ensures x in now || Waiting(t, x) || Done(t, g, x, depth) {
      assert Waiting(s, x) ==> Waiting(t, x);
      assert Done(s, g, x, depth) ==> Done(t, g, x, depth);
    }
  }

  lemma ReachedKeeps(s: Search, g: seq<Edge>, starts: set<Id>, c: nat, depth: nat, now: set<Id>, x: Id)
    requires Searching(s, g, starts, c, depth, now) && c < depth && x in Within(g, starts, c + 1)
    ensures Searching(Reached(s, x, c + 1), g, starts, c, depth, now)
  {
    hide Within, Near;
    var t := Reached(s, x, c + 1);
    if x !in s.depthOf {
      assert Exactly(g, starts, x, c + 1);
      assert t.queue[|s.queue|].id == x;
      forall y | y in t.depthOf ensures y in now || Waiting(t, y) || Done(t, g, y, depth) {
        if y != x {
          if Waiting(s, y) {
            var i :| 0 <= i < |s.queue| && s.queue[i].id == y;
            assert t.queue[i].id == y;
          }
          assert Done(s, g, y, depth) ==> Done(t, g, y, depth);
        }
      }
    }
  }

  ghost predicate Grown(s: Search, t: Search) {
    && s.edgeIds <= t.edgeIds && s.depthOf.Keys <= t.depthOf.Keys
    && (forall x :: x in s.depthOf ==> t.depthOf[x] == s.depthOf[x])
  }

  /** Following one edge of the entity at hand. */
  lemma FollowKeeps(s: Search, g: seq<Edge>, starts: set<Id>, c: nat, depth: nat, id: Id, e: Edge)
    requires Searching(s, g, starts, c, depth, {id}) && c < depth
    requires id in s.depthOf && s.depthOf[id] == c && e in g && (e.source == id || e.target == id)
    ensures Searching(Follow(s, id, c, e), g, starts, c, depth, {id})
    ensures Seen(Follow(s, id, c, e), e) && Grown(s, Follow(s, id, c, e))
  {
    assert id in Within(g, starts, c);
    hide Within, Near, Searching, Noted, Reached;
    OneStepFurther(g, starts, c, depth, id, e);
    NotedKeeps(s, g, starts, c, depth, {id}, e);
    ReachedKeeps(Noted(s, e), g, starts, c, depth, {id}, OtherEnd(e, id));
    FollowSees(s, id, c, e);
  }

  lemma OneStepFurther(g: seq<Edge>, starts: set<Id>, c: nat, depth: nat, id: Id, e: Edge)
    requires id in Within(g, starts, c) && c < depth && e in g && (e.source == id || e.target == id)
    ensures Near(g, starts, depth, e) && OtherEnd(e, id) in Within(g, starts, c + 1)
  {
    WithinGrows(g, starts, c, depth - 1);
  }

  lemma FollowSees(s: Search, id: Id, c: nat, e: Edge)
    requires id in s.depthOf && (e.source == id || e.target == id)
    ensures Seen(Follow(s, id, c, e), e) && Grown(s, Follow(s, id, c, e))
  {
  }

  /** After its edges are followed, or at the depth bound, an entity is done. */
  lemma Settle(s: Search, g: seq<Edge>, starts: set<Id>, c: nat, depth: nat, id: Id)
    requires Searching(s, g, starts, c, depth, {id})
    requires Done(s, g, id, depth)
    ensures Searching(s, g, starts, c, depth, {})
  {
    hide Within, Near, Done;
  }

  lemma ExactlyIsLeast(g: seq<Edge>, starts: set<Id>, x: Id, d: int, n: nat)
    requires Exactly(g, starts, x, d) && x in Within(g, starts, n)
    ensures d <= n
  {
    if n < d {
      WithinGrows(g, starts, n, d - 1);
    }
  }

  /** With nothing left to follow, every level up to the bound has been reached. */
  lemma {:induction false} AllReached(s: Search, g: seq<Edge>, starts: set<Id>, c: nat, depth: nat, n: nat)
    requires Searching(s, g, starts, c, depth, {}) && s.queue == [] && n <= depth
    ensures Within(g, starts, n) <= s.depthOf.Keys
    decreases n
  {
    hide Within, Searching;
    if n == 0 {
      StartsReached(s, g, starts, c, depth);
    } else {
      AllReached(s, g, starts, c, depth, n - 1);
      var inner := Within(g, starts, n - 1);
      forall e | e in g && (e.source in inner || e.target in inner) ensures e.source in s.depthOf && e.target in s.depthOf {
        EdgeReached(s, g, starts, c, depth, n - 1, e);
      }
      NextLevel(g, starts, n - 1, s.depthOf.Keys);
    }
  }

  lemma StartsReached(s: Search, g: seq<Edge>, starts: set<Id>, c: nat, depth: nat)
    requires Searching(s, g, starts, c, depth, {})
    ensures Within(g, starts, 0) <= s.depthOf.Keys
  {
    WithinGrows(g, starts, 0, c);
    hide Within;
  }

  lemma NextLevel(g: seq<Edge>, starts: set<Id>, n: nat, reached: set<Id>)
    requires Within(g, starts, n) <= reached
    requires forall e :: e in g && (e.source in Within(g, starts, n) || e.target in Within(g, starts, n)) ==>
               e.source in reached && e.target in reached
    ensures Within(g, starts, n + 1) <= reached
  {
  }

  lemma EdgeReached(s: Search, g: seq<Edge>, starts: set<Id>, c: nat, depth: nat, n: nat, e: Edge)
    requires Searching(s, g, starts, c, depth, {}) && s.queue == [] && n < depth
    requires Within(g, starts, n) <= s.depthOf.Keys
    requires e in g && (e.source in Within(g, starts, n) || e.target in Within(g, starts, n))
    ensures e.source in s.depthOf && e.target in s.depthOf
  {
    var x := if e.source in Within(g, starts, n) then e.source else e.target;
    hide Within, Searching;
    NearIsSeen(s, g, starts, c, depth, x, n, e);
  }

  lemma NearIsSeen(s: Search, g: seq<Edge>, starts: set<Id>, c: nat, depth: nat, x: Id, n: nat, e: Edge)
    requires Searching(s, g, starts, c, depth, {}) && s.queue == [] && n < depth
    requires x in s.depthOf && x in Within(g, starts, n) && e in g && (e.source == x || e.target == x)
    ensures Seen(s, e)
  {
    ExactlyIsLeast(g, starts, x, s.depthOf[x], n);
    assert !Waiting(s, x) && Done(s, g, x, depth);
  }

  lemma NearIsListed(s: Search, g: seq<Edge>, starts: set<Id>, c: nat, depth: nat, e: Edge)
    requires Searching(s, g, starts, c, depth, {}) && s.queue == [] && e in g && Near(g, starts, depth, e)
    ensures e.id in s.edgeIds
  {
    AllReached(s, g, starts, c, depth, depth - 1);
    var inner := Within(g, starts, depth - 1);
    var x := if e.source in inner then e.source else e.target;
    hide Within, Searching;
    NearIsSeen(s, g, starts, c, depth, x, depth - 1, e);
  }

  lemma AllPlaced(s: Search, g: seq<Edge>, starts: set<Id>, c: nat, depth: nat)
    requires Searching(s, g, starts, c, depth, {}) && s.queue == []
    ensures Distances(s.depthOf, g, starts, depth)
  {
    AllReached(s, g, starts, c, depth, depth);
    forall x | x in s.depthOf ensures x in Within(g, starts, depth) {
      WithinGrows(g, starts, s.depthOf[x], depth);
    }
  }

  lemma Finish(s: Search, g: seq<Edge>, starts: set<Id>, c: int, depth: nat)
    requires Searching(s, g, starts, c, depth, {}) && s.queue == []
    ensures Distances(s.depthOf, g, starts, depth)
    ensures NearEdges(SortBy(s.edges, EdgeById), g, starts, depth)
  {
    hide Near, Within, Distances, NearEdges;
    AllPlaced(s, g, starts, c, depth);
    forall e | e in g && Near(g, starts, depth, e) ensures e.id in s.edgeIds {
      NearIsListed(s, g, starts, c, depth, e);
    }
    SortedNear(s, g, starts, depth);
  }

  lemma SortedNear(s: Search, g: seq<Edge>, starts: set<Id>, depth: nat)
    requires Listed(s, g, starts, depth)
    requires forall e :: e in g && Near(g, starts, depth, e) ==> e.id in s.edgeIds
    ensures NearEdges(SortBy(s.edges, EdgeById), g, starts, depth)
  {
    hide Near, SortBy;
    EdgeOrder();
    SortBySorts(s.edges, EdgeById);
    SortedMembers(s.edges);
    DistinctAnyOrder(s.edges, SortBy(s.edges, EdgeById), EdgeIdOf);
  }

  // ---- Termination ----

  /** Where a search can go: the starts and the ends of edges. */
  ghost function Reachable(g: seq<Edge>, starts: set<Id>): set<Id> {
    starts + (set e | e in g :: e.source) + (set e | e in g :: e.target)
  }

  /** What is waiting, and what is still to be reached. */
  ghost function Ahead(s: Search, g: seq<Edge>, starts: set<Id>): nat {
    |Reachable(g, starts) - s.depthOf.Keys| + |s.queue|
  }

  lemma OtherEndIsReachable(g: seq<Edge>, starts: set<Id>, id: Id, e: Edge)
    requires e in g
    ensures OtherEnd(e, id) in Reachable(g, starts)
  {
  }

  lemma FollowIsNeutral(s: Search, g: seq<Edge>, starts: set<Id>, id: Id, c: int, e: Edge)
    requires e in g
    ensures Ahead(Follow(s, id, c, e), g, starts) == Ahead(s, g, starts)
  {
    hide Reachable, Follow, OtherEnd;
    var x, t := OtherEnd(e, id), Follow(s, id, c, e);
    OtherEndIsReachable(g, starts, id, e);
    FollowFields(s, id, c, e);
    if x !in s.depthOf {
      assert Reachable(g, starts) - t.depthOf.Keys == Reachable(g, starts) - s.depthOf.Keys - {x};
    } else {
      assert Reachable(g, starts) - t.depthOf.Keys == Reachable(g, starts) - s.depthOf.Keys;
    }
  }

  // ---- The two searches ----

  lemma EdgesOf(m: ModuleMap, all: seq<Edge>, g: seq<Edge>, id: Id, includeInferred: bool)
    requires Indexes(m, all) && g == OnlyVisible(all, includeInferred)
    ensures forall e :: e in Outgoing(m, id, includeInferred) + Incoming(m, id, includeInferred) <==>
              e in g && (e.source == id || e.target == id)
  {
    hide Indexes, Outgoing, Incoming, OnlyVisible, Visible;
    FiltersAreExact(m, all, id, includeInferred);
    OnlyVisibleMembers(all, includeInferred);
  }

  lemma AllSeen(s: Search, g: seq<Edge>, id: Id, depth: nat, edges: seq<Edge>)
    requires forall e :: e in edges <==> e in g && (e.source == id || e.target == id)
    requires forall k :: 0 <= k < |edges| ==> Seen(s, edges[k])
    ensures Done(s, g, id, depth)
  {
    hide Seen;
  }

  lemma StaySeen(s: Search, t: Search, edges: seq<Edge>, k: nat)
    requires Grown(s, t) && k < |edges| && Seen(t, edges[k])
    requires forall j :: 0 <= j < k ==> Seen(s, edges[j])
    ensures forall j :: 0 <= j < k + 1 ==> Seen(t, edges[j])
  {
  }

  /** The first `k` edges of `touching` have been followed from `id`. */
  ghost predicate Following(s: Search, g: seq<Edge>, starts: set<Id>, d: int, depth: nat, id: Id,
                            touching: seq<Edge>, k: nat, ahead: nat) {
    && Searching(s, g, starts, d, depth, {id}) && 0 <= d < depth && id in s.depthOf && s.depthOf[id] == d
    && (forall e :: e in touching <==> e in g && (e.source == id || e.target == id))
    && k <= |touching| && (forall j :: 0 <= j < k ==> Seen(s, touching[j]))
    && Ahead(s, g, starts) == ahead
  }

  lemma FollowStep(s: Search, g: seq<Edge>, starts: set<Id>, d: int, depth: nat, id: Id,
                   touching: seq<Edge>, k: nat, ahead: nat)
    requires Following(s, g, starts, d, depth, id, touching, k, ahead) && k < |touching|
    ensures Following(Follow(s, id, d, touching[k]), g, starts, d, depth, id, touching, k + 1, ahead)
  {
    hide Searching, Seen, Ahead, Follow, Grown;
    var e := touching[k];
    FollowKeeps(s, g, starts, d, depth, id, e);
    FollowIsNeutral(s, g, starts, id, d, e);
    GrownKeeps(s, Follow(s, id, d, e), id);
    StaySeen(s, Follow(s, id, d, e), touching, k);
  }

  lemma FollowEnds(s: Search, g: seq<Edge>, starts: set<Id>, d: int, depth: nat, id: Id, touching: seq<Edge>,
                   ahead: nat)
    requires Following(s, g, starts, d, depth, id, touching, |touching|, ahead)
    ensures Searching(s, g, starts, d, depth, {}) && Ahead(s, g, starts) == ahead
  {
    hide Searching, Seen, Ahead;
    AllSeen(s, g, id, depth, touching);
    Settle(s, g, starts, d, depth, id);
  }

  /** Taking the head of the queue, whichever branch follows. */
  lemma TakeHead(s: Search, m: ModuleMap, all: seq<Edge>, includeInferred: bool, starts: set<Id>, c: int, depth: nat)
    requires Indexes(m, all) && s.queue != []
    requires Searching(s, OnlyVisible(all, includeInferred), starts, c, depth, {})
    ensures var g, Stop(id, d), t := OnlyVisible(all, includeInferred), s.queue[0], s.(queue := s.queue[1..]);
            && 0 <= d && Ahead(t, g, starts) < Ahead(s, g, starts)
            && (d >= depth ==> Searching(t, g, starts, d, depth, {}))
            && (d < depth ==> Following(t, g, starts, d, depth, id,
                  Outgoing(m, id, includeInferred) + Incoming(m, id, includeInferred), 0, Ahead(t, g, starts)))
  {
    var Stop(id, d) := s.queue[0];
    var g, t := OnlyVisible(all, includeInferred), s.(queue := s.queue[1..]);
    hide Searching, Ahead, OnlyVisible, Outgoing, Incoming, Indexes, Done;
    Pop(s, g, starts, c, depth);
    Shorter(s, g, starts);
    EdgesOf(m, all, g, id, includeInferred);
    if d >= depth {
      DoneAtBound(t, g, id, depth);
      Settle(t, g, starts, d, depth, id);
    }
  }

  /** The Orbit compiler's search: entities, near edges and distances. */
  method WithDepth(m: ModuleMap, ghost all: seq<Edge>, starts: seq<Id>, depth: nat, includeInferred: bool)
    returns (entities: set<Id>, edges: seq<Edge>, depthMap: map<Id, int>)
    requires Indexes(m, all)
    ensures entities == Within(OnlyVisible(all, includeInferred), StartSet(starts), depth)
    ensures Distances(depthMap, OnlyVisible(all, includeInferred), StartSet(starts), depth)
    ensures NearEdges(edges, OnlyVisible(all, includeInferred), StartSet(starts), depth)
  {
    ghost var g, from := OnlyVisible(all, includeInferred), StartSet(starts);
    entities := StartSet(starts);
    depthMap := AtZero(starts);
    var edgeIds: set<Id> := {};
    edges := [];
    var queue: seq<Stop> := Initial(starts);
    ghost var c := 0;
    Begins(g, starts, depth);
    hide *;
    while queue != []
      invariant Searching(Search(depthMap, edgeIds, edges, queue), g, from, c, depth, {})
      invariant entities == depthMap.Keys
      decreases Ahead(Search(depthMap, edgeIds, edges, queue), g, from)
    {
      var Stop(id, d) := queue[0];
      TakeHead(Search(depthMap, edgeIds, edges, queue), m, all, includeInferred, from, c, depth);
      queue := queue[1..];
      c := d;
      if d >= depth {
        continue;
      }
      ghost var ahead := Ahead(Search(depthMap, edgeIds, edges, queue), g, from);
      var touching := Outgoing(m, id, includeInferred) + Incoming(m, id, includeInferred);
      for k := 0 to |touching|
        invariant Following(Search(depthMap, edgeIds, edges, queue), g, from, d, depth, id, touching, k, ahead)
        invariant entities == depthMap.Keys
      {
        var edge := touching[k];
        FollowStep(Search(depthMap, edgeIds, edges, queue), g, from, d, depth, id, touching, k, ahead);
        FollowFields(Search(depthMap, edgeIds, edges, queue), id, d, edge);
        if edge.id !in edgeIds {
          edgeIds := edgeIds + {edge.id};
          edges := edges + [edge];
        }
        var neighbour := OtherEnd(edge, id);
        if neighbour !in entities {
          entities := entities + {neighbour};
          depthMap := depthMap[neighbour := d + 1];
          queue := queue + [Stop(neighbour, d + 1)];
        }
      }
      FollowEnds(Search(depthMap, edgeIds, edges, queue), g, from, d, depth, id, touching, ahead);
    }
    Finish(Search(depthMap, edgeIds, edges, queue), g, from, c, depth);
    DistancesCover(depthMap, g, from, depth);
    edges := SortBy(edges, EdgeById);
  }

  /** The index's own search: the same entities and edges, without recording distances. */
  method Neighbourhood(m: ModuleMap, ghost all: seq<Edge>, starts: seq<Id>, depth: nat, includeInferred: bool)
    returns (entities: set<Id>, edges: seq<Edge>)
    requires Indexes(m, all)
    ensures entities == Within(OnlyVisible(all, includeInferred), StartSet(starts), depth)
    ensures NearEdges(edges, OnlyVisible(all, includeInferred), StartSet(starts), depth)
  {
    ghost var g, from := OnlyVisible(all, includeInferred), StartSet(starts);
    entities := StartSet(starts);
    var edgeIds: set<Id> := {};
    edges := [];
    var queue: seq<Stop> := Initial(starts);
    ghost var depthMap: map<Id, int> := AtZero(starts);
    ghost var c := 0;
    Begins(g, starts, depth);
    hide *;
    while queue != []
      invariant Searching(Search(depthMap, edgeIds, edges, queue), g, from, c, depth, {})
      invariant entities == depthMap.Keys
      decreases Ahead(Search(depthMap, edgeIds, edges, queue), g, from)
    {
      var Stop(id, d) := queue[0];
      TakeHead(Search(depthMap, edgeIds, edges, queue), m, all, includeInferred, from, c, depth);
      queue := queue[1..];
      c := d;
      if d >= depth {
        continue;
      }
      ghost var ahead := Ahead(Search(depthMap, edgeIds, edges, queue), g, from);
      var touching := Outgoing(m, id, includeInferred) + Incoming(m, id, includeInferred);
      for k := 0 to |touching|
        invariant Following(Search(depthMap, edgeIds, edges, queue), g, from, d, depth, id, touching, k, ahead)
        invariant entities == depthMap.Keys
      {
        var edge := touching[k];
        FollowStep(Search(depthMap, edgeIds, edges, queue), g, from, d, depth, id, touching, k, ahead);
        FollowFields(Search(depthMap, edgeIds, edges, queue), id, d, edge);
        if edge.id !in edgeIds {
          edgeIds := edgeIds + {edge.id};
          edges := edges + [edge];
        }
        var neighbour := OtherEnd(edge, id);
        if neighbour !in entities {
          entities := entities + {neighbour};
          queue := queue + [Stop(neighbour, d + 1)];
          depthMap := depthMap[neighbour := d + 1];
        }
      }
      FollowEnds(Search(depthMap, edgeIds, edges, queue), g, from, d, depth, id, touching, ahead);
    }
    Finish(Search(depthMap, edgeIds, edges, queue), g, from, c, depth);
    DistancesCover(depthMap, g, from, depth);
    edges := SortBy(edges, EdgeById);
  }

  /** The four ways an edge can change the search. */
  lemma FollowFields(s: Search, id: Id, d: int, e: Edge)
    ensures var x, t := OtherEnd(e, id), Stop(OtherEnd(e, id), d + 1);
            && (e.id in s.edgeIds && x in s.depthOf ==> Follow(s, id, d, e) == Search(s.depthOf, s.edgeIds, s.edges, s.queue))
            && (e.id in s.edgeIds && x !in s.depthOf ==>
                  Follow(s, id, d, e) == Search(s.depthOf[x := d + 1], s.edgeIds, s.edges, s.queue + [t]))
            && (e.id !in s.edgeIds && x in s.depthOf ==>
                  Follow(s, id, d, e) == Search(s.depthOf, s.edgeIds + {e.id}, s.edges + [e], s.queue))
            && (e.id !in s.edgeIds && x !in s.depthOf ==>
                  Follow(s, id, d, e) == Search(s.depthOf[x := d + 1], s.edgeIds + {e.id}, s.edges + [e], s.queue + [t]))
  {
  }

  lemma GrownKeeps(s: Search, t: Search, id: Id)
    requires Grown(s, t) && id in s.depthOf
    ensures id in t.depthOf && t.depthOf[id] == s.depthOf[id]
  {
  }

  lemma DistancesCover(depthOf: map<Id, int>, g: seq<Edge>, starts: set<Id>, depth: nat)
    requires Distances(depthOf, g, starts, depth)
    ensures depthOf.Keys == Within(g, starts, depth)
  {
  }

  lemma Shorter(s: Search, g: seq<Edge>, starts: set<Id>)
    requires s.queue != []
    ensures Ahead(s.(queue := s.queue[1..]), g, starts) < Ahead(s, g, starts)
  {
  }

  lemma DoneAtBound(s: Search, g: seq<Edge>, id: Id, depth: nat)
    requires id in s.depthOf && s.depthOf[id] >= depth
    ensures Done(s, g, id, depth)
  {
  }

  /** With distinct edge ids there is one such edge list, so the two searches agree on both
      results. */
  lemma NearEdgesAreUnique(a: seq<Edge>, b: seq<Edge>, g: seq<Edge>, starts: set<Id>, depth: nat)
    requires NearEdges(a, g, starts, depth) && NearEdges(b, g, starts, depth) && UniqueEdgeIds(g)
    ensures a == b
    ensures forall e :: e in a <==> e in g && Near(g, starts, depth, e)
  {
    hide Near;
    forall e ensures e in a <==> e in g && Near(g, starts, depth, e) {
      Contains(a, g, starts, depth, e);
    }
    forall e ensures e in b <==> e in g && Near(g, starts, depth, e) {
      Contains(b, g, starts, depth, e);
    }
    hide NearEdges;
    forall e ensures multiset(a)[e] == multiset(b)[e] {
      assert e in multiset(a) <==> e in multiset(b);
      DistinctOnce(a, EdgeIdOf, e);
      DistinctOnce(b, EdgeIdOf, e);
    }
    EdgeOrder();
    assert multiset(a) == multiset(b);
    SortedIsUnique(a, b, EdgeById);
  }

  lemma Contains(a: seq<Edge>, g: seq<Edge>, starts: set<Id>, depth: nat, e: Edge)
    requires NearEdges(a, g, starts, depth) && UniqueEdgeIds(g)
    ensures e in a <==> e in g && Near(g, starts, depth, e)
  {
    hide Near;
    if e in g && Near(g, starts, depth, e) {
      var f :| f in a && f.id == e.id;
      var i :| 0 <= i < |g| && g[i] == e;
      var j :| 0 <= j < |g| && g[j] == f;
      assert i == j;
    }
  }
}
