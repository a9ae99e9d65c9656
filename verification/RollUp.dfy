/** What the Green roll-up means, apart from the order any algorithm visits entities in: every
    entity is assessed against its children's current codes. */
module RollUp {
  import opened Atlas
  import opened Hierarchy
  import opened Evaluator

  function Greens(entities: seq<Entity>): map<Id, Code> {
    if entities == [] then map[]
    else
      var last := entities[|entities| - 1];
      var before := Greens(entities[..|entities| - 1]);
      if last.green.Some? then before[last.id := last.green.value.overall] else before
  }

  /** Entity `e` carries the assessment that its children's codes call for. */
  ghost predicate Current(ctx: Context, entities: seq<Entity>, e: Entity) {
    e.green == Some(Assess(ctx, e, KnownCodes(Greens(entities), ChildIds(entities, e.id))))
  }

  /** Green is consistent: every entity is current. */
  ghost predicate RolledUp(ctx: Context, entities: seq<Entity>) {
    forall e :: e in entities ==> Current(ctx, entities, e)
  }

  /** Two lists of the same records that may differ in their Green. */
  ghost predicate SameButGreen(a: seq<Entity>, b: seq<Entity>) {
    |a| == |b| && forall i :: 0 <= i < |a| ==> a[i] == b[i].(green := a[i].green)
  }

  /** Two lists of entities with the same ids, scales and parents. */
  ghost predicate SameShape(a: seq<Entity>, b: seq<Entity>) {
    |a| == |b| && forall i :: 0 <= i < |a| ==> a[i].id == b[i].id && a[i].scale == b[i].scale && a[i].parent == b[i].parent
  }

  predicate NestedIn(child: Entity, parent: Entity) {
    child.parent == Some(parent.id) && child.scale == parent.scale
  }

  /** Under same-scale nesting, every child is listed before its parent. */
  ghost predicate ChildFirst(entities: seq<Entity>) {
    forall i, j :: 0 <= i < |entities| && 0 <= j < |entities| && NestedIn(entities[i], entities[j]) ==> i < j
  }

  // ---- Lists that share a shape share a tree ----

  lemma {:induction false} ShapeKeepsChildren(a: seq<Entity>, b: seq<Entity>, id: Id)
    requires SameShape(a, b)
    ensures ChildIds(a, id) == ChildIds(b, id)
  {
    if a != [] {
      var n := |a| - 1;
      ShapeKeepsChildren(a[..n], b[..n], id);
    }
  }

  lemma {:induction false} ShapeKeepsRoots(a: seq<Entity>, b: seq<Entity>)
    requires SameShape(a, b)
    ensures Roots(a) == Roots(b)
  {
    if a != [] {
      var n := |a| - 1;
      ShapeKeepsRoots(a[..n], b[..n]);
    }
  }

  ghost predicate SameLinks(m: Index, k: Index) {
    m.Keys == k.Keys && forall id :: id in m ==> m[id].parent == k[id].parent && m[id].scale == k[id].scale
  }

  lemma {:induction false} ShapeKeepsIndex(a: seq<Entity>, b: seq<Entity>)
    requires SameShape(a, b)
    ensures SameLinks(IndexOf(a), IndexOf(b))
  {
    if a != [] {
      var n := |a| - 1;
      ShapeKeepsIndex(a[..n], b[..n]);
    }
  }

  lemma {:induction false} LinksKeepClimb(m: Index, k: Index, id: Id, n: nat)
    requires SameLinks(m, k)
    ensures Climb(m, id, n) == Climb(k, id, n)
  {
    if n > 0 {
      LinksKeepClimb(m, k, id, n - 1);
    }
  }

  lemma ShapeKeepsWellFormed(a: seq<Entity>, b: seq<Entity>)
    requires SameShape(a, b) && WellFormed(b)
    ensures WellFormed(a)
  {
    ShapeKeepsRoots(a, b);
    ShapeKeepsIndex(a, b);
    var m, k := IndexOf(a), IndexOf(b);
    forall i, j | 0 <= i < j < |a| ensures a[i].id != a[j].id {
      assert b[i].id != b[j].id;
    }
    forall e | e in a ensures Grounded(m, e.id) && (e.id != Roots(a)[0] ==> PlacedUnder(m, e)) {
      var i :| 0 <= i < |a| && a[i] == e;
      assert b[i] in b && PlacedUnder(k, b[i]) == PlacedUnder(m, e);
      var n: nat :| Climb(k, e.id, n) == None;
      LinksKeepClimb(m, k, e.id, n);
    }
  }

  // ---- Codes ----

  lemma {:induction false} GreensAre(entities: seq<Entity>)
    requires DistinctIds(entities)
    ensures forall id :: id in Greens(entities) ==> exists e :: e in entities && e.id == id && e.green.Some?
    ensures forall e :: e in entities ==>
      (e.id in Greens(entities) <==> e.green.Some?)
      && (e.green.Some? ==> Greens(entities)[e.id] == e.green.value.overall)
  {
    if entities != [] {
      var n := |entities| - 1;
      var last := entities[n];
      GreensAre(entities[..n]);
      assert entities == entities[..n] + [last];
      assert forall e :: e in entities[..n] ==> e.id != last.id;
    }
  }

  lemma {:induction false} SameKnownCodes(a: map<Id, Code>, b: map<Id, Code>, ids: seq<Id>)
    requires forall id :: id in ids ==> (id in a <==> id in b) && (id in a ==> a[id] == b[id])
    ensures KnownCodes(a, ids) == KnownCodes(b, ids)
  {
    if ids != [] {
      SameKnownCodes(a, b, ids[1..]);
    }
  }

  // ---- The roll-up is unique ----

  /** A deepest element of a finite set of entities. */
  lemma {:induction false} Deepest(m: Index, s: set<Id>) returns (d: Id)
    requires s != {} && forall x :: x in s ==> Grounded(m, x)
    ensures d in s && forall x :: x in s ==> Depth(m, x) <= Depth(m, d)
  {
    d :| d in s;
    if s - {d} != {} {
      var e := Deepest(m, s - {d});
      if Depth(m, e) > Depth(m, d) {
        d := e;
      }
      assert s == (s - {d}) + {d};
    } else {
      assert s == {d};
    }
  }

  lemma AssessIgnoresGreen(ctx: Context, e: Entity, g: Option<Assessment>, kids: seq<Code>)
    ensures Assess(ctx, e.(green := g), kids) == Assess(ctx, e, kids)
  {
    forall axis ensures AssessAxis(ctx, e.(green := g), kids, axis) == AssessAxis(ctx, e, kids, axis) {
    }
    hide AssessAxis;
  }

  /** A containment tree has exactly one consistent Green. */
  lemma RollUpIsUnique(ctx: Context, a: seq<Entity>, b: seq<Entity>)
    requires WellFormed(b) && SameButGreen(a, b)
    requires RolledUp(ctx, a) && RolledUp(ctx, b)
    ensures a == b
  {
    hide IndexOf, Roots, ChildIds, Assess, Greens, KnownCodes, PlacedUnder;
    var m := IndexOf(b);
    if k :| 0 <= k < |a| && a[k] != b[k] {
      var differing := set i | 0 <= i < |a| && a[i] != b[i] :: b[i].id;
      assert b[k].id in differing;
      assert forall x :: x in differing ==> Grounded(m, x);
      var d := Deepest(m, differing);
      var i :| 0 <= i < |a| && a[i] != b[i] && b[i].id == d;
      ShapeKeepsChildren(a, b, d);
      forall c | c in ChildIds(b, d) ensures c in Greens(a) && c in Greens(b) && Greens(a)[c] == Greens(b)[c] {
        ChildAgrees(ctx, a, b, d, c, differing);
      }
      SameKnownCodes(Greens(a), Greens(b), ChildIds(b, d));
      assert a[i] in a && b[i] in b;
      AssessIgnoresGreen(ctx, b[i], a[i].green, KnownCodes(Greens(b), ChildIds(b, d)));
      assert false;
    }
  }

  lemma SameIdsDistinct(a: seq<Entity>, b: seq<Entity>)
    requires SameButGreen(a, b) && DistinctIds(b)
    ensures DistinctIds(a)
  {
    forall i, k | 0 <= i < k < |a| ensures a[i].id != a[k].id {
      assert b[i].id != b[k].id;
    }
  }

  lemma ChildAgrees(ctx: Context, a: seq<Entity>, b: seq<Entity>, d: Id, c: Id, differing: set<Id>)
    requires WellFormed(b) && SameButGreen(a, b) && RolledUp(ctx, b)
    requires differing == set i | 0 <= i < |a| && a[i] != b[i] :: b[i].id
    requires Grounded(IndexOf(b), d) && c in ChildIds(b, d)
    requires forall x :: x in differing ==> Grounded(IndexOf(b), x) && Depth(IndexOf(b), x) <= Depth(IndexOf(b), d)
    ensures c in Greens(a) && c in Greens(b) && Greens(a)[c] == Greens(b)[c]
  {
    hide Roots, Assess, Greens, KnownCodes, PlacedUnder, ChildIds, RolledUp;
    ChildrenInIndex(b, d);
    var m := IndexOf(b);
    var k := m[c];
    hide IndexOf;
    DepthOfParent(m, c, d);
    assert c !in differing;
    hide Depth, Grounded;
    var j :| 0 <= j < |b| && b[j] == k;
    assert a[j] == k;
    SameIdsDistinct(a, b);
    BothGreen(ctx, a, b, k);
  }

  lemma BothGreen(ctx: Context, a: seq<Entity>, b: seq<Entity>, k: Entity)
    requires DistinctIds(a) && DistinctIds(b) && RolledUp(ctx, b) && k in a && k in b
    ensures k.id in Greens(a) && k.id in Greens(b) && Greens(a)[k.id] == Greens(b)[k.id]
  {
    hide Assess, Greens;
    GreensAre(a);
    GreensAre(b);
    assert Current(ctx, b, k);
  }

  // ---- The roll-up is a minimum over the subtree ----

  lemma {:induction false} AncestorIsNoLighter(ctx: Context, entities: seq<Entity>, e: Entity, x: Entity, n: nat)
    requires DistinctIds(entities) && RolledUp(ctx, entities) && e in entities && x in entities
    requires Climb(IndexOf(entities), x.id, n) == Some(e.id)
    ensures e.green.Some? && e.green.value.overall.Rank() <= LocalCode(ctx, x).Rank()
    decreases n
  {
    hide Assess, LocalCode, Current, IndexOf;
    IndexedUnderOwnId(entities);
    if n == 0 {
      DarkerThanOwn(ctx, entities, e);
    } else {
      var m := IndexOf(entities);
      var c := Climb(m, x.id, n - 1).value;
      AncestorIsNoLighter(ctx, entities, m[c], x, n - 1);
      DarkerThanChild(ctx, entities, e, m[c]);
    }
  }

  lemma DarkerThanOwn(ctx: Context, entities: seq<Entity>, e: Entity)
    requires RolledUp(ctx, entities) && e in entities
    ensures e.green.Some? && e.green.value.overall.Rank() <= LocalCode(ctx, e).Rank()
  {
    hide Assess, LocalCode;
    OverallIsLocalAndChildren(ctx, e, KnownCodes(Greens(entities), ChildIds(entities, e.id)));
    assert Current(ctx, entities, e);
  }

  lemma DarkerThanChild(ctx: Context, entities: seq<Entity>, e: Entity, c: Entity)
    requires DistinctIds(entities) && RolledUp(ctx, entities) && e in entities && c in entities
    requires c.parent == Some(e.id)
    ensures e.green.Some? && c.green.Some? && e.green.value.overall.Rank() <= c.green.value.overall.Rank()
  {
    hide Assess, LocalCode;
    var kids := KnownCodes(Greens(entities), ChildIds(entities, e.id));
    OverallIsLocalAndChildren(ctx, e, kids);
    assert Current(ctx, entities, e) && Current(ctx, entities, c);
    GreensAre(entities);
    ChildIdsAreChildren(entities, e.id);
    KnownCodesAre(Greens(entities), ChildIds(entities, e.id));
    WeakestOfIsLeast(kids);
  }

  /** Where the darkness comes from: the entity itself or a child of the same code. */
  lemma DarknessHasSource(ctx: Context, entities: seq<Entity>, e: Entity) returns (c: Option<Entity>)
    requires DistinctIds(entities) && RolledUp(ctx, entities) && e in entities
    ensures e.green.Some? && (c == None ==> e.green.value.overall == LocalCode(ctx, e))
    ensures c.Some? ==> c.value in entities && c.value.parent == Some(e.id) && c.value.green.Some?
    ensures c.Some? ==> c.value.green.value.overall == e.green.value.overall
  {
    hide Assess, LocalCode;
    var kids := KnownCodes(Greens(entities), ChildIds(entities, e.id));
    OverallIsLocalAndChildren(ctx, e, kids);
    assert Current(ctx, entities, e);
    c := None;
    if e.green.value.overall != LocalCode(ctx, e) {
      WeakestOfIsLeast(kids);
      KnownCodesAre(Greens(entities), ChildIds(entities, e.id));
      GreensAre(entities);
      ChildIdsAreChildren(entities, e.id);
      var id :| id in ChildIds(entities, e.id) && id in Greens(entities) && Greens(entities)[id] == e.green.value.overall;
      var k :| k in entities && k.id == id && k.parent == Some(e.id);
      assert Current(ctx, entities, k);
      c := Some(k);
    }
  }

  ghost predicate IsSubtreeMinimum(ctx: Context, entities: seq<Entity>, e: Entity, code: Code) {
    var m := IndexOf(entities);
    && (forall x :: x in entities && Under(m, x.id, e.id) ==> code.Rank() <= LocalCode(ctx, x).Rank())
    && (exists x :: x in entities && Under(m, x.id, e.id) && LocalCode(ctx, x) == code)
  }

  /** Follow the darkness down until an entity is dark by itself. */
  lemma SourceBelow(ctx: Context, entities: seq<Entity>, e: Entity, candidates: set<Id>) returns (x: Entity)
    requires WellFormed(entities) && RolledUp(ctx, entities) && e in entities
    requires e.id in candidates && candidates <= IndexOf(entities).Keys
    requires forall y :: y in entities && Under(IndexOf(entities), y.id, e.id) ==> y.id in candidates
    ensures x in entities && Under(IndexOf(entities), x.id, e.id) && e.green.Some?
    ensures LocalCode(ctx, x) == e.green.value.overall
    decreases candidates
  {
    hide Assess, LocalCode, Current, Roots;
    var m := IndexOf(entities);
    IndexedUnderOwnId(entities);
    hide IndexOf;
    UnderIsSelfOrBelow(m, e.id, e.id);
    x := e;
    var c := DarknessHasSource(ctx, entities, e);
    if c.Some? {
      var k := c.value;
      ChildIsBelow(m, k.id, e.id);
      forall y | y in entities && Under(m, y.id, k.id) ensures y.id in candidates - {e.id} {
        UnderTransitive(m, y.id, k.id, e.id);
        if y.id == e.id {
          ParentNotUnderChild(m, e.id, k.id);
        }
      }
      UnderIsSelfOrBelow(m, k.id, k.id);
      x := SourceBelow(ctx, entities, k, candidates - {e.id});
      UnderTransitive(m, x.id, k.id, e.id);
    }
  }

  lemma ParentNotUnderChild(m: Index, p: Id, c: Id)
    requires Grounded(m, c) && c in m && m[c].parent == Some(p)
    ensures !Under(m, p, c)
  {
    DepthOfParent(m, c, p);
    if Under(m, p, c) {
      var n: nat :| Climb(m, p, n) == Some(c);
      UnderIsDeeper(m, p, c, n);
    }
  }

  /** An entity's overall code is the minimum of the local codes over its subtree. */
  lemma OverallIsSubtreeMinimum(ctx: Context, entities: seq<Entity>, e: Entity)
    requires WellFormed(entities) && RolledUp(ctx, entities) && e in entities
    ensures e.green.Some? && IsSubtreeMinimum(ctx, entities, e, e.green.value.overall)
  {
    hide Assess, Roots, LocalCode, Current, IndexOf;
    var m := IndexOf(entities);
    var source := SourceBelow(ctx, entities, e, m.Keys);
    forall x | x in entities && Under(m, x.id, e.id) ensures e.green.value.overall.Rank() <= LocalCode(ctx, x).Rank() {
      var n: nat :| Climb(m, x.id, n) == Some(e.id);
      AncestorIsNoLighter(ctx, entities, e, x, n);
    }
  }
}
