/** What a subtree is assessed as when it is evaluated alone. The scan lists every file before the
    symbols appended for it, so the full pass never folds a symbol into its file; on such lists it
    gives a subtree the same assessments inside every snapshot that contains it. */
module Isolation {
  import opened Atlas
  import opened Hierarchy
  import opened Evaluator
  import opened RollUp
  import opened FullPasses
  import opened LayeredGreen

  /** Under same-scale nesting, every parent is listed before its child. */
  ghost predicate ParentFirst(entities: seq<Entity>) {
    forall i, j :: 0 <= i < |entities| && 0 <= j < |entities| && NestedIn(entities[i], entities[j]) ==> j < i
  }

  /** The scan's rows nest nothing in its own scale, and the symbols pushed after them hang from
      rows, so an enriched snapshot lists parents first. */
  lemma AppendedComeAfter(rows: seq<Entity>, symbols: seq<Entity>)
    requires forall a, b :: a in rows && b in rows ==> !NestedIn(a, b)
    requires forall s, e :: s in symbols && e in symbols ==> s.parent != Some(e.id)
    requires forall r, s :: r in rows && s in symbols ==> r.parent != Some(s.id)
    ensures ParentFirst(rows + symbols)
  {
    var all := rows + symbols;
    forall i, j | 0 <= i < |all| && 0 <= j < |all| && NestedIn(all[i], all[j]) ensures j < i {
      OneOfThem(rows, symbols, i);
      OneOfThem(rows, symbols, j);
    }
  }

  lemma OneOfThem(rows: seq<Entity>, symbols: seq<Entity>, i: nat)
    requires i < |rows + symbols|
    ensures if i < |rows| then (rows + symbols)[i] in rows else (rows + symbols)[i] in symbols
  {
  }

  /** The children of `e` that are not of its own scale. */
  function LowerKids(entities: seq<Entity>, e: Entity): seq<Id> {
    if entities == [] then []
    else
      var last := entities[|entities| - 1];
      LowerKids(entities[..|entities| - 1], e)
      + (if last.parent == Some(e.id) && last.scale != e.scale then [last.id] else [])
  }

  ghost predicate IsLowerKid(entities: seq<Entity>, e: Entity, c: Id) {
    exists k :: k in entities && k.id == c && k.parent == Some(e.id) && k.scale != e.scale
  }

  lemma {:induction false} LowerKidsAre(entities: seq<Entity>, e: Entity)
    ensures forall c :: c in LowerKids(entities, e) <==> IsLowerKid(entities, e, c)
  {
    if entities != [] {
      var n := |entities| - 1;
      LowerKidsAre(entities[..n], e);
      assert entities == entities[..n] + [entities[n]];
    }
  }

  // ---- The pass on such a list ----

  lemma VisitedIffLower(entities: seq<Entity>, j: nat, c: Id)
    requires WellFormed(entities) && ParentFirst(entities)
    requires j < |entities| && c in ChildIds(entities, entities[j].id)
    ensures c in Before(entities, j) <==> IsLowerKid(entities, entities[j], c)
  {
    hide FromRank, OfRank, ChildIds, WellFormed;
    var e := entities[j];
    ChildIdsAreChildren(entities, e.id);
    var i :| 0 <= i < |entities| && entities[i].id == c && entities[i].parent == Some(e.id);
    DistinctWhenWellFormed(entities);
    ChildIsNoHigher(entities, e, entities[i]);
    if entities[i].scale == e.scale {
      assert NestedIn(entities[i], e);
      NotVisitedBefore(entities, i, j);
    } else {
      FromRankMembers(entities, e.scale.Rank() + 1);
      assert entities[i] in entities;
    }
  }

  /** What the pass really folds: an entity is assessed against exactly its children of another
      scale, whatever the order those are listed in. */
  lemma ParentFirstPass(ctx: Context, entities: seq<Entity>, j: nat)
    requires WellFormed(entities) && ParentFirst(entities) && j < |entities|
    ensures entities[j].id in FullPass(ctx, entities)
    ensures FullPass(ctx, entities)[entities[j].id] ==
            Assess(ctx, entities[j], KnownCodes(Overalls(FullPass(ctx, entities)), LowerKids(entities, entities[j])))
  {
    hide FullPass, PassOver, Assess, KnownCodes, ChildIds, LowerKids, Before, WellFormed, IndexOf, ParentFirst;
    var e, before := entities[j], Before(entities, j);
    DistinctWhenWellFormed(entities);
    AssessedAgainstEarlier(ctx, entities, j);
    EarlierAreFinal(ctx, entities, j);
    BeforeIndexed(entities, j);
    PassKeys(ctx, entities, before);
    var early, all := Overalls(PassOver(ctx, entities, before)), Overalls(FullPass(ctx, entities));
    var kids, lower := ChildIds(entities, e.id), LowerKids(entities, e);
    forall c | c in kids ensures c in before <==> IsLowerKid(entities, e, c) { VisitedIffLower(entities, j, c); }
    ChildIdsAreChildren(entities, e.id);
    LowerKidsAre(entities, e);
    KnownCodesAre(early, kids);
    KnownCodesAre(all, lower);
    assert forall c :: c in lower ==> c in kids;
    assert forall c :: c in early <==> c in before;
    assert forall c :: c in before ==> c in all && all[c] == early[c];
    SameCodesSameWeakest(KnownCodes(early, kids), KnownCodes(all, lower));
    OnlyWeakestChildMatters(ctx, e, KnownCodes(early, kids), KnownCodes(all, lower));
  }

  // ---- A subtree alone ----

  /** The records at and below `top`, whatever their Green. */
  ghost function Records(entities: seq<Entity>, top: Id): set<Entity> {
    set e | e in entities && Under(IndexOf(entities), e.id, top) :: e.(green := None)
  }

  lemma ChildIsUnder(entities: seq<Entity>, top: Id, e: Entity, k: Entity)
    requires WellFormed(entities) && e in entities && k in entities && k.parent == Some(e.id)
    requires Under(IndexOf(entities), e.id, top)
    ensures Under(IndexOf(entities), k.id, top)
  {
    hide Roots, Climb;
    IndexedUnderOwnId(entities);
    ChildIsBelow(IndexOf(entities), k.id, e.id);
    UnderTransitive(IndexOf(entities), k.id, e.id, top);
  }

  lemma LowerKidShared(a: seq<Entity>, b: seq<Entity>, top: Id, e: Entity, c: Id)
    requires WellFormed(a) && Records(a, top) <= Records(b, top)
    requires e in a && Under(IndexOf(a), e.id, top) && IsLowerKid(a, e, c)
    ensures IsLowerKid(b, e, c)
  {
    hide WellFormed, Under, IndexOf;
    var k :| k in a && k.id == c && k.parent == Some(e.id) && k.scale != e.scale;
    ChildIsUnder(a, top, e, k);
    assert k.(green := None) in Records(a, top);
    var l :| l in b && l.(green := None) == k.(green := None);
    assert l.id == k.id && l.parent == k.parent && l.scale == k.scale;
  }

  lemma Counterpart(a: seq<Entity>, b: seq<Entity>, top: Id, e: Entity) returns (f: Entity)
    requires Records(a, top) <= Records(b, top) && e in a && Under(IndexOf(a), e.id, top)
    ensures f in b && Under(IndexOf(b), f.id, top) && f == e.(green := f.green)
  {
    hide Under, IndexOf;
    assert e.(green := None) in Records(a, top);
    f :| f in b && Under(IndexOf(b), f.id, top) && f.(green := None) == e.(green := None);
    assert e.(green := None).(green := f.green) == f.(green := None).(green := f.green);
  }

  lemma SamePolicy(ctx: Context, edges: seq<Edge>)
    requires DefaultPolicy(ctx)
    ensures DefaultPolicy(ctx.(edges := edges))
  {
    forall scale, axis ensures Floor(ctx.(edges := edges), scale, axis) == Metadata {
      assert Floor(ctx, scale, axis) == Metadata;
    }
  }

  /** With only containment edges required, it does not matter which of them are at hand. */
  lemma EdgesDoNotMatter(ctx: Context, edges: seq<Edge>, e: Entity, kids: seq<Code>)
    requires DefaultPolicy(ctx) && ContainmentEdges(ctx) && ContainmentEdges(ctx.(edges := edges))
    ensures Assess(ctx, e, kids) == Assess(ctx.(edges := edges), e, kids)
  {
    hide Assess, DefaultPolicy, ContainmentEdges;
    SamePolicy(ctx, edges);
    ContainmentAddsNothing(ctx, e, kids);
    ContainmentAddsNothing(ctx.(edges := edges), e, kids);
  }

  /** A subtree evaluated alone is assessed exactly as the whole-snapshot pass assesses it:
      codes, evidence and reasons. */
  lemma {:induction false} IsolatedIsWhole(ctx: Context, edges: seq<Edge>, whole: seq<Entity>, part: seq<Entity>,
                                           top: Id, e: Entity)
    requires WellFormed(whole) && WellFormed(part) && ParentFirst(whole) && ParentFirst(part)
    requires Records(whole, top) == Records(part, top) && e in whole && Under(IndexOf(whole), e.id, top)
    requires DefaultPolicy(ctx) && ContainmentEdges(ctx) && ContainmentEdges(ctx.(edges := edges))
    ensures e.id in FullPass(ctx, whole) && e.id in FullPass(ctx.(edges := edges), part)
    ensures FullPass(ctx, whole)[e.id] == FullPass(ctx.(edges := edges), part)[e.id]
    decreases 5 - e.scale.Rank()
  {
    hide FullPass, Assess, KnownCodes, LowerKids, WellFormed, ParentFirst, Records, Under, IndexOf, DefaultPolicy,
      ContainmentEdges;
    var narrow := ctx.(edges := edges);
    var f := Counterpart(whole, part, top, e);
    var j :| 0 <= j < |whole| && whole[j] == e;
    var i :| 0 <= i < |part| && part[i] == f;
    ParentFirstPass(ctx, whole, j);
    ParentFirstPass(narrow, part, i);
    var allCodes, partCodes := Overalls(FullPass(ctx, whole)), Overalls(FullPass(narrow, part));
    forall c ensures c in LowerKids(whole, e) <==> c in LowerKids(part, f)
             ensures c in LowerKids(whole, e) ==> c in allCodes && c in partCodes && allCodes[c] == partCodes[c]
    {
      KidsShared(whole, part, top, e, f, c);
      if c in LowerKids(whole, e) {
        var k := LowerKid(whole, top, e, c);
        IsolatedIsWhole(ctx, edges, whole, part, top, k);
      }
    }
    KnownCodesAre(allCodes, LowerKids(whole, e));
    KnownCodesAre(partCodes, LowerKids(part, f));
    SameCodesSameWeakest(KnownCodes(allCodes, LowerKids(whole, e)), KnownCodes(partCodes, LowerKids(part, f)));
    var kids := KnownCodes(partCodes, LowerKids(part, f));
    OnlyWeakestChildMatters(ctx, e, KnownCodes(allCodes, LowerKids(whole, e)), kids);
    AssessIgnoresGreen(ctx, e, f.green, kids);
    EdgesDoNotMatter(ctx, edges, f, kids);
  }

  lemma KidsShared(whole: seq<Entity>, part: seq<Entity>, top: Id, e: Entity, f: Entity, c: Id)
    requires WellFormed(whole) && WellFormed(part) && Records(whole, top) == Records(part, top)
    requires e in whole && Under(IndexOf(whole), e.id, top)
    requires f in part && Under(IndexOf(part), f.id, top) && f == e.(green := f.green)
    ensures c in LowerKids(whole, e) <==> c in LowerKids(part, f)
  {
    hide WellFormed, Records, Under, IndexOf, LowerKids;
    LowerKidsAre(whole, e);
    LowerKidsAre(part, f);
    if IsLowerKid(whole, e, c) { LowerKidShared(whole, part, top, e, c); }
    if IsLowerKid(part, f, c) { LowerKidShared(part, whole, top, f, c); }
  }

  lemma LowerKid(entities: seq<Entity>, top: Id, e: Entity, c: Id) returns (k: Entity)
    requires WellFormed(entities) && e in entities && Under(IndexOf(entities), e.id, top)
    requires c in LowerKids(entities, e)
    ensures k in entities && k.id == c && Under(IndexOf(entities), k.id, top) && k.scale.Rank() > e.scale.Rank()
  {
    hide WellFormed, Under, IndexOf, LowerKids;
    LowerKidsAre(entities, e);
    k :| k in entities && k.id == c && k.parent == Some(e.id) && k.scale != e.scale;
    ChildIsUnder(entities, top, e, k);
    ChildIsNoHigher(entities, e, k);
  }
}
