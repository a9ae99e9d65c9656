/** The full pass of `evaluate_snapshot` against the roll-up: it computes the consistent Green
    for every choice of evidence exactly when same-scale children are listed before their
    parents. */
module FullPasses {
  import opened Atlas
  import opened Hierarchy
  import opened Evaluator
  import opened RollUp

  /** The entities visited before `entities[j]`: those of greater rank, then those of its own
      rank listed earlier. */
  function Before(entities: seq<Entity>, j: nat): seq<Id>
    requires j < |entities|
  {
    FromRank(entities, entities[j].scale.Rank() + 1) + OfRank(entities[..j], entities[j].scale.Rank())
  }

  lemma {:induction false} OfRankSplit(entities: seq<Entity>, j: nat, rank: nat) returns (rest: seq<Id>)
    requires j < |entities| && entities[j].scale.Rank() == rank
    ensures OfRank(entities, rank) == OfRank(entities[..j], rank) + [entities[j].id] + rest
  {
    var n := |entities| - 1;
    if j == n {
      rest := [];
    } else {
      assert entities[..n][..j] == entities[..j];
      rest := OfRankSplit(entities[..n], j, rank);
      rest := rest + (if entities[n].scale.Rank() == rank then [entities[n].id] else []);
    }
  }

  lemma {:induction false} FromRankSplit(entities: seq<Entity>, low: nat, high: nat) returns (rest: seq<Id>)
    requires low <= high <= 5
    ensures FromRank(entities, low) == FromRank(entities, high) + rest
    decreases high - low
  {
    if low == high {
      rest := [];
    } else {
      hide FromRank, OfRank;
      var upper := FromRankSplit(entities, low + 1, high);
      rest := upper + OfRank(entities, low);
      FromRankIs(entities, low);
      Associate(FromRank(entities, high), upper, OfRank(entities, low));
    }
  }

  lemma OrderSplit(entities: seq<Entity>, j: nat) returns (rest: seq<Id>)
    requires j < |entities|
    ensures EvaluationOrder(entities) == Before(entities, j) + [entities[j].id] + rest
  {
    var rank := entities[j].scale.Rank();
    var lower := FromRankSplit(entities, 0, rank);
    var later := OfRankSplit(entities, j, rank);
    rest := later + lower;
    hide FromRank, OfRank;
    var above, here := FromRank(entities, rank + 1), OfRank(entities[..j], rank);
    FromRankIs(entities, rank);
    Regroup(above, here, [entities[j].id], later, lower);
  }

  lemma FromRankIs(entities: seq<Entity>, rank: nat)
    requires rank < 5
    ensures FromRank(entities, rank) == FromRank(entities, rank + 1) + OfRank(entities, rank)
  {
    hide OfRank;
  }

  lemma Associate<T>(a: seq<T>, b: seq<T>, c: seq<T>)
    ensures (a + b) + c == a + (b + c)
  {
  }

  lemma Regroup<T>(a: seq<T>, b: seq<T>, c: seq<T>, d: seq<T>, e: seq<T>)
    ensures (a + (b + c + d)) + e == (a + b) + c + (d + e)
  {
  }

  // ---- No entity is visited twice ----

  lemma {:induction false} OfRankDistinct(entities: seq<Entity>, rank: nat)
    requires DistinctIds(entities)
    ensures NoDuplicates(OfRank(entities, rank))
  {
    if entities != [] {
      var n := |entities| - 1;
      OfRankDistinct(entities[..n], rank);
      OfRankMembers(entities[..n], rank);
      assert entities[n].id !in OfRank(entities[..n], rank);
    }
  }

  lemma {:induction false} FromRankDistinct(entities: seq<Entity>, rank: nat)
    requires DistinctIds(entities)
    ensures NoDuplicates(FromRank(entities, rank))
    decreases 5 - rank
  {
    if rank <= 4 {
      FromRankDistinct(entities, rank + 1);
      OfRankDistinct(entities, rank);
      FromRankMembers(entities, rank + 1);
      OfRankMembers(entities, rank);
      IndexedUnderOwnId(entities);
      forall x | x in FromRank(entities, rank + 1) ensures x !in OfRank(entities, rank) {
        var e :| e in entities && e.id == x && e.scale.Rank() >= rank + 1;
        assert forall f :: f in entities && f.id == x ==> f == e;
      }
      DistinctTogether(FromRank(entities, rank + 1), OfRank(entities, rank));
    }
  }

  lemma DistinctTogether(a: seq<Id>, b: seq<Id>)
    requires NoDuplicates(a) && NoDuplicates(b) && forall x :: x in a ==> x !in b
    ensures NoDuplicates(a + b)
  {
    forall i, j | 0 <= i < j < |a + b| ensures (a + b)[i] != (a + b)[j] {
      if i < |a| <= j {
        assert a[i] in a && b[j - |a|] in b;
      }
    }
  }

  // ---- What the pass holds after a prefix of its order ----

  lemma {:induction false} LaterVisitsKeep(ctx: Context, entities: seq<Entity>, done: seq<Id>, rest: seq<Id>, id: Id)
    requires forall x :: x in done + rest ==> x in IndexOf(entities)
    requires id !in rest
    ensures var a, b := PassOver(ctx, entities, done), PassOver(ctx, entities, done + rest);
            (id in a <==> id in b) && (id in a ==> a[id] == b[id])
  {
    hide Assess, KnownCodes, IndexOf, ChildIds, Overalls;
    if rest == [] {
      assert done + rest == done;
    } else {
      var n := |rest| - 1;
      assert (done + rest)[..|done + rest| - 1] == done + rest[..n];
      assert rest[n] in done + rest && forall x :: x in done + rest[..n] ==> x in done + rest;
      LaterVisitsKeep(ctx, entities, done, rest[..n], id);
      PassStep(ctx, entities, done + rest);
    }
  }

  lemma OrderIndexed(entities: seq<Entity>)
    ensures forall x :: x in EvaluationOrder(entities) <==> x in IndexOf(entities)
  {
    FromRankMembers(entities, 0);
  }

  /** The entities visited before `entities[j]` have their final assessment by then. */
  lemma EarlierAreFinal(ctx: Context, entities: seq<Entity>, j: nat)
    requires DistinctIds(entities) && j < |entities|
    ensures entities[j].id !in Before(entities, j)
    ensures forall c :: c in Before(entities, j) ==>
              c in PassOver(ctx, entities, Before(entities, j)) && c in FullPass(ctx, entities)
              && PassOver(ctx, entities, Before(entities, j))[c] == FullPass(ctx, entities)[c]
  {
    hide Before, PassOver, FromRank, IndexOf;
    var id, before := entities[j].id, Before(entities, j);
    var rest := OrderSplit(entities, j);
    OrderIndexed(entities);
    FromRankDistinct(entities, 0);
    ApartIn(before, id, rest);
    assert before + ([id] + rest) == EvaluationOrder(entities);
    PassKeys(ctx, entities, before);
    forall c | c in before
      ensures c in PassOver(ctx, entities, before) && c in FullPass(ctx, entities)
      ensures PassOver(ctx, entities, before)[c] == FullPass(ctx, entities)[c]
    {
      LaterVisitsKeep(ctx, entities, before, [id] + rest, c);
    }
  }

  /** What `entities[j]` is assessed as: against the children visited before it, no others. */
  lemma AssessedAgainstEarlier(ctx: Context, entities: seq<Entity>, j: nat)
    requires DistinctIds(entities) && j < |entities|
    ensures entities[j].id in FullPass(ctx, entities)
    ensures FullPass(ctx, entities)[entities[j].id] ==
            Assess(ctx, entities[j], KnownCodes(Overalls(PassOver(ctx, entities, Before(entities, j))),
                                                ChildIds(entities, entities[j].id)))
  {
    hide Assess, KnownCodes, ChildIds, Overalls, Before, PassOver, FromRank;
    var e, before := entities[j], Before(entities, j);
    var rest := OrderSplit(entities, j);
    OrderIndexed(entities);
    FromRankDistinct(entities, 0);
    IndexedUnderOwnId(entities);
    hide IndexOf;
    ApartIn(before, e.id, rest);
    assert e in entities && (before + [e.id])[..|before|] == before;
    PassStep(ctx, entities, before + [e.id]);
    LaterVisitsKeep(ctx, entities, before + [e.id], rest, e.id);
  }

  lemma ApartIn(before: seq<Id>, id: Id, rest: seq<Id>)
    requires NoDuplicates(before + [id] + rest)
    ensures id !in before && id !in rest
    ensures forall c :: c in before ==> c !in [id] + rest
  {
    var s := before + [id] + rest;
    var n := |before|;
    assert s[n] == id;
    assert forall i :: 0 <= i < n ==> before[i] == s[i];
    assert forall i :: 0 <= i < |rest| ==> rest[i] == s[n + 1 + i];
    forall c | c in before ensures c !in [id] + rest {
      var i :| 0 <= i < n && before[i] == c;
    }
  }

  // ---- The pass is the roll-up when children come first ----

  lemma ChildIsNoHigher(entities: seq<Entity>, e: Entity, k: Entity)
    requires WellFormed(entities) && e in entities && k in entities && k.parent == Some(e.id)
    ensures k.scale.Rank() > e.scale.Rank() || k.scale == e.scale
  {
    hide Roots, IndexOf, Grounded;
    IndexedUnderOwnId(entities);
    RootIsUnique(entities);
    assert PlacedUnder(IndexOf(entities), k);
  }

  lemma ChildVisitedBefore(entities: seq<Entity>, j: nat, c: Id)
    requires WellFormed(entities) && ChildFirst(entities)
    requires j < |entities| && c in ChildIds(entities, entities[j].id)
    ensures c in Before(entities, j)
  {
    hide FromRank, OfRank, ChildIds, WellFormed;
    var e := entities[j];
    ChildIdsAreChildren(entities, e.id);
    var k :| k in entities && k.id == c && k.parent == Some(e.id);
    ChildIsNoHigher(entities, e, k);
    FromRankMembers(entities, e.scale.Rank() + 1);
    OfRankMembers(entities[..j], e.scale.Rank());
    if k.scale == e.scale {
      var i :| 0 <= i < |entities| && entities[i] == k;
      assert NestedIn(entities[i], entities[j]);
      assert entities[i] in entities[..j];
    }
  }

  function IdsOf(entities: seq<Entity>): set<Id> {
    set e | e in entities :: e.id
  }

  lemma {:induction false} StampedGreens(entities: seq<Entity>, asg: map<Id, Assessment>)
    requires IdsOf(entities) <= asg.Keys
    ensures Greens(Stamped(entities, asg)) == map id | id in IdsOf(entities) :: asg[id].overall
  {
    if entities != [] {
      var n := |entities| - 1;
      IdsOfLast(entities);
      StampedGreens(entities[..n], asg);
      assert Stamped(entities, asg)[..n] == Stamped(entities[..n], asg);
      hide Stamped, IdsOf;
    }
  }

  lemma IdsOfLast(entities: seq<Entity>)
    requires entities != []
    ensures IdsOf(entities) == IdsOf(entities[..|entities| - 1]) + {entities[|entities| - 1].id}
  {
    var n := |entities| - 1;
    assert entities == entities[..n] + [entities[n]];
  }

  lemma FullPassKeys(ctx: Context, entities: seq<Entity>)
    ensures FullPass(ctx, entities).Keys == IdsOf(entities)
    ensures Greens(Stamped(entities, FullPass(ctx, entities))) == Overalls(FullPass(ctx, entities))
  {
    hide PassOver, Stamped, Greens, FromRank, IndexOf;
    OrderIndexed(entities);
    PassKeys(ctx, entities, EvaluationOrder(entities));
    StampedGreens(entities, FullPass(ctx, entities));
    FromRankMembers(entities, 0);
    forall id ensures id in FullPass(ctx, entities) <==> id in IdsOf(entities) {
    }
  }

  /** With children listed before their parents, the full pass computes the consistent Green. */
  lemma FullPassRollsUp(ctx: Context, entities: seq<Entity>)
    requires WellFormed(entities) && ChildFirst(entities)
    ensures RolledUp(ctx, Stamped(entities, FullPass(ctx, entities)))
  {
    hide FullPass, Stamped, Greens, WellFormed, ChildFirst, Current;
    var s := Stamped(entities, FullPass(ctx, entities));
    FullPassKeys(ctx, entities);
    forall e | e in s ensures Current(ctx, s, e) {
      var j :| 0 <= j < |s| && s[j] == e;
      StampedIsCurrent(ctx, entities, j);
    }
  }

  lemma StampedIsCurrent(ctx: Context, entities: seq<Entity>, j: nat)
    requires WellFormed(entities) && ChildFirst(entities) && j < |entities|
    requires Greens(Stamped(entities, FullPass(ctx, entities))) == Overalls(FullPass(ctx, entities))
    ensures Current(ctx, Stamped(entities, FullPass(ctx, entities)), Stamped(entities, FullPass(ctx, entities))[j])
  {
    hide FullPass, Assess, Greens, Stamped, IndexOf, Roots, ChildIds, Before, PassOver, WellFormed;
    var asg, e := FullPass(ctx, entities), entities[j];
    var s := Stamped(entities, asg);
    DistinctWhenWellFormed(entities);
    AssessedAgainstEarlier(ctx, entities, j);
    EarlierAreFinal(ctx, entities, j);
    var partial := PassOver(ctx, entities, Before(entities, j));
    forall c | c in ChildIds(entities, e.id) {
      ChildVisitedBefore(entities, j, c);
    }
    SameKnownCodes(Overalls(partial), Overalls(asg), ChildIds(entities, e.id));
    ShapeKeepsChildren(s, entities, e.id);
    AssessIgnoresGreen(ctx, e, s[j].green, KnownCodes(Overalls(asg), ChildIds(entities, e.id)));
  }

  lemma DistinctWhenWellFormed(entities: seq<Entity>)
    requires WellFormed(entities)
    ensures DistinctIds(entities)
  {
  }

  // ---- And only then ----

  /** A person's evidence. */
  function Signed(axis: Axis, outcome: Outcome, active: Snapshot): Evidence {
    Evidence(axis, Observed, HumanProof, outcome, active, Origin("", "", "", "1"))
  }

  /** Passing evidence of the highest strength on every axis that evidence decides. */
  function Passing(active: Snapshot): seq<Evidence> {
    [Signed(Content, Pass, active), Signed(Structure, Pass, active),
     Signed(Integration, Pass, active), Signed(Verification, Pass, active),
     Signed(Coherence, Pass, active)]
  }

  /** The same tree with everything locally Green but the one entity `bad`, which fails. */
  function OneFails(entities: seq<Entity>, bad: Id, active: Snapshot): (r: seq<Entity>)
    ensures SameShape(r, entities)
  {
    seq(|entities|, i requires 0 <= i < |entities| =>
      entities[i].(sockets := [], conflicts := [], snapshot := active,
                   evidence := if entities[i].id == bad then [Signed(Content, Fail, active)]
                               else Passing(active)))
  }

  lemma PassingIsGreen(ctx: Context, e: Entity)
    requires e.evidence == Passing(ctx.active) && e.sockets == [] && e.conflicts == []
    requires e.snapshot == ctx.active && ctx.edges == []
    ensures LocalCode(ctx, e) == Green
  {
    hide AssessAxis;
    forall axis ensures AssessAxis(ctx, e, [], axis).code == Green {
      PassingAxisIsGreen(ctx, e, axis);
    }
    UnfoldSix(Green, Green, Green, Green, Green, Green);
  }

  lemma SignedPasses(axis: Axis, active: Snapshot, floor: Proof)
    ensures CodeFromEvidence([Signed(axis, Pass, active)], active, floor) == Green
  {
    var s := Signed(axis, Pass, active);
    assert s in [s];
  }

  lemma PassingAxisIsGreen(ctx: Context, e: Entity, axis: Axis)
    requires e.evidence == Passing(ctx.active) && e.sockets == [] && e.conflicts == []
    requires e.snapshot == ctx.active && ctx.edges == []
    ensures AssessAxis(ctx, e, [], axis).code == Green
  {
    hide EvidenceOn, Passing, CodeFromEvidence;
    if axis != Freshness {
      PassingOn(ctx.active, axis);
      SignedPasses(axis, ctx.active, Floor(ctx, e.scale, axis));
    }
  }

  lemma PassingOn(active: Snapshot, axis: Axis)
    requires axis != Freshness
    ensures EvidenceOn(Passing(active), axis) == [Signed(axis, Pass, active)]
  {
    var p := Passing(active);
    assert p[1..][1..] == p[2..] && p[2..][1..] == p[3..] && p[3..][1..] == p[4..];
    assert EvidenceOn(p[4..], axis) == if axis == Coherence then [p[4]] else [];
    assert EvidenceOn(p[3..], axis) == (if axis == Verification then [p[3]] else []) + EvidenceOn(p[4..], axis);
    assert EvidenceOn(p[2..], axis) == (if axis == Integration then [p[2]] else []) + EvidenceOn(p[3..], axis);
    assert EvidenceOn(p[1..], axis) == (if axis == Structure then [p[1]] else []) + EvidenceOn(p[2..], axis);
  }

  lemma FailingIsRed(ctx: Context, e: Entity)
    requires e.evidence == [Signed(Content, Fail, ctx.active)]
    ensures LocalCode(ctx, e) == Red
  {
    var f := e.evidence[0];
    assert EvidenceOn(e.evidence, Content) == [f];
    assert f in [f] && Has([f], ctx.active, Fail);
    assert AssessAxis(ctx, e, [], Content).code == Red;
    hide AssessAxis;
    UnfoldSix(AssessAxis(ctx, e, [], Content).code, AssessAxis(ctx, e, [], Structure).code,
              AssessAxis(ctx, e, [], Integration).code, AssessAxis(ctx, e, [], Verification).code,
              AssessAxis(ctx, e, [], Freshness).code, AssessAxis(ctx, e, [], Coherence).code);
  }

  lemma {:induction false} AllGreenSoFar(ctx: Context, entities: seq<Entity>, visited: seq<Id>)
    requires forall id :: id in visited ==> id in IndexOf(entities) && LocalCode(ctx, IndexOf(entities)[id]) == Green
    ensures forall id :: id in PassOver(ctx, entities, visited) ==> PassOver(ctx, entities, visited)[id].overall == Green
  {
    hide IndexOf, Assess, ChildIds, KnownCodes, LocalCode;
    if visited != [] {
      var n := |visited| - 1;
      var before := PassOver(ctx, entities, visited[..n]);
      var id := visited[n];
      assert visited == visited[..n] + [id];
      AllGreenSoFar(ctx, entities, visited[..n]);
      PassStep(ctx, entities, visited);
      GreenOnGreens(ctx, IndexOf(entities)[id], Overalls(before), ChildIds(entities, id));
    }
  }

  lemma GreenOnGreens(ctx: Context, e: Entity, codes: map<Id, Code>, ids: seq<Id>)
    requires forall id :: id in codes ==> codes[id] == Green
    requires LocalCode(ctx, e) == Green
    ensures Assess(ctx, e, KnownCodes(codes, ids)).overall == Green
  {
    KnownCodesAre(codes, ids);
    WeakestOfIsLeast(KnownCodes(codes, ids));
    OverallIsLocalAndChildren(ctx, e, KnownCodes(codes, ids));
  }

  lemma NotVisitedBefore(entities: seq<Entity>, i: nat, j: nat)
    requires DistinctIds(entities) && j < i < |entities| && entities[i].scale == entities[j].scale
    ensures entities[i].id !in Before(entities, j)
  {
    hide FromRank, OfRank;
    var rank := entities[j].scale.Rank();
    FromRankMembers(entities, rank + 1);
    OfRankMembers(entities[..j], rank);
    IndexedUnderOwnId(entities);
    assert entities[i] in entities;
    hide IndexOf;
    assert forall k :: 0 <= k < j ==> entities[k].id != entities[i].id;
  }

  lemma OthersAreGreen(ctx: Context, entities: seq<Entity>, bad: Id, e: Entity)
    requires ctx.edges == [] && e in OneFails(entities, bad, ctx.active) && e.id != bad
    ensures LocalCode(ctx, e) == Green
  {
    PassingIsGreen(ctx, e);
  }

  /** A parent listed before its same-scale child stays Green though the child is Red. */
  lemma ParentStaysGreen(ctx: Context, entities: seq<Entity>, i: nat, j: nat)
    requires WellFormed(entities) && ctx.edges == [] && j < i < |entities| && NestedIn(entities[i], entities[j])
    ensures entities[j].id in FullPass(ctx, OneFails(entities, entities[i].id, ctx.active))
    ensures FullPass(ctx, OneFails(entities, entities[i].id, ctx.active))[entities[j].id].overall == Green
  {
    hide FullPass, PassOver, Assess, LocalCode, KnownCodes, ChildIds, Before, WellFormed, OneFails;
    var es := OneFails(entities, entities[i].id, ctx.active);
    ShapeKeepsWellFormed(es, entities);
    DistinctWhenWellFormed(es);
    NotVisitedBefore(es, i, j);
    BeforeIndexed(es, j);
    IndexedUnderOwnId(es);
    hide IndexOf;
    forall id | id in Before(es, j) ensures LocalCode(ctx, IndexOf(es)[id]) == Green {
      OthersAreGreen(ctx, entities, entities[i].id, IndexOf(es)[id]);
    }
    AllGreenSoFar(ctx, es, Before(es, j));
    AssessedAgainstEarlier(ctx, es, j);
    assert es[i].id != es[j].id && es[j] in es;
    OthersAreGreen(ctx, entities, entities[i].id, es[j]);
    GreenOnGreens(ctx, es[j], Overalls(PassOver(ctx, es, Before(es, j))), ChildIds(es, es[j].id));
  }

  lemma ChildIsRed(ctx: Context, entities: seq<Entity>, i: nat)
    requires WellFormed(entities) && i < |entities|
    ensures entities[i].id in FullPass(ctx, OneFails(entities, entities[i].id, ctx.active))
    ensures FullPass(ctx, OneFails(entities, entities[i].id, ctx.active))[entities[i].id].overall == Red
  {
    hide FullPass, PassOver, Assess, LocalCode, KnownCodes, ChildIds, Before, Roots, Climb, IndexOf;
    var es := OneFails(entities, entities[i].id, ctx.active);
    ShapeKeepsWellFormed(es, entities);
    DistinctWhenWellFormed(es);
    AssessedAgainstEarlier(ctx, es, i);
    FailingIsRed(ctx, es[i]);
    OverallIsLocalAndChildren(ctx, es[i],
      KnownCodes(Overalls(PassOver(ctx, es, Before(es, i))), ChildIds(es, es[i].id)));
  }

  lemma BeforeIndexed(entities: seq<Entity>, j: nat)
    requires j < |entities|
    ensures forall x :: x in Before(entities, j) ==> x in IndexOf(entities) && IndexOf(entities)[x] in entities
  {
    var rest := OrderSplit(entities, j);
    OrderIndexed(entities);
    forall x | x in Before(entities, j) ensures x in EvaluationOrder(entities) {
    }
  }

  lemma ParentFirstBreaksRollUp(ctx: Context, entities: seq<Entity>, i: nat, j: nat)
    requires WellFormed(entities) && ctx.edges == [] && j < i < |entities| && NestedIn(entities[i], entities[j])
    ensures var es := OneFails(entities, entities[i].id, ctx.active);
            !RolledUp(ctx, Stamped(es, FullPass(ctx, es)))
  {
    hide FullPass, WellFormed, Greens, RolledUp, OneFails;
    var es := OneFails(entities, entities[i].id, ctx.active);
    var s, bad := Stamped(es, FullPass(ctx, es)), entities[i].id;
    ParentStaysGreen(ctx, entities, i, j);
    ChildIsRed(ctx, entities, i);
    FullPassKeys(ctx, es);
    assert s[i] in s && s[i].parent == Some(s[j].id);
    RedChildDarkens(ctx, s, j, s[i]);
    NotCurrent(ctx, s, j);
  }

  lemma RedChildDarkens(ctx: Context, entities: seq<Entity>, j: nat, child: Entity)
    requires j < |entities| && child in entities && child.parent == Some(entities[j].id)
    requires child.id in Greens(entities) && Greens(entities)[child.id] == Red
    ensures Assess(ctx, entities[j], KnownCodes(Greens(entities), ChildIds(entities, entities[j].id))).overall == Red
  {
    hide Assess, Greens, KnownCodes, ChildIds;
    var ids := ChildIds(entities, entities[j].id);
    ChildIdsAreChildren(entities, entities[j].id);
    KnownCodesAre(Greens(entities), ids);
    assert child.id in ids;
    RedKidDarkens(ctx, entities[j], KnownCodes(Greens(entities), ids));
  }

  lemma RedKidDarkens(ctx: Context, e: Entity, kids: seq<Code>)
    requires Red in kids
    ensures Assess(ctx, e, kids).overall == Red
  {
    hide Assess, LocalCode, WeakestOf;
    WeakestOfIsLeast(kids);
    OverallIsLocalAndChildren(ctx, e, kids);
  }

  lemma NotCurrent(ctx: Context, entities: seq<Entity>, j: nat)
    requires j < |entities| && entities[j].green.Some?
    requires Assess(ctx, entities[j], KnownCodes(Greens(entities), ChildIds(entities, entities[j].id))).overall
             != entities[j].green.value.overall
    ensures !RolledUp(ctx, entities)
  {
    assert entities[j] in entities && !Current(ctx, entities, entities[j]);
  }

  /** The exact condition: over every policy, evidence, socket and conflict the tree could
      carry, the full pass is the roll-up if and only if same-scale children are listed
      before their parents. */
  lemma FullPassIsRollUpIffChildFirst(entities: seq<Entity>)
    requires WellFormed(entities)
    ensures ChildFirst(entities) <==>
            forall ctx: Context, es: seq<Entity> :: SameShape(es, entities) ==> RolledUp(ctx, Stamped(es, FullPass(ctx, es)))
  {
    hide FullPass, Stamped, RolledUp, WellFormed;
    if ChildFirst(entities) {
      forall ctx: Context, es: seq<Entity> | SameShape(es, entities)
        ensures RolledUp(ctx, Stamped(es, FullPass(ctx, es)))
      {
        ShapeKeepsWellFormed(es, entities);
        forall i, j | 0 <= i < |es| && 0 <= j < |es| && NestedIn(es[i], es[j]) ensures i < j {
          assert NestedIn(entities[i], entities[j]);
        }
        FullPassRollsUp(ctx, es);
      }
    } else {
      var i, j :| 0 <= i < |entities| && 0 <= j < |entities| && NestedIn(entities[i], entities[j]) && i >= j;
      NotItsOwnParent(entities, i);
      var ctx := Context("", map[], [], []);
      ParentFirstBreaksRollUp(ctx, entities, i, j);
      assert SameShape(OneFails(entities, entities[i].id, ""), entities);
    }
  }

  lemma NotItsOwnParent(entities: seq<Entity>, i: nat)
    requires WellFormed(entities) && i < |entities|
    ensures entities[i].parent != Some(entities[i].id)
  {
    IndexedUnderOwnId(entities);
    var m, id := IndexOf(entities), entities[i].id;
    assert entities[i] in entities;
    if entities[i].parent == Some(id) {
      assert Climb(m, id, 0) == Some(id) && Climb(m, id, 1) == Some(id);
      RepeatIsCycle(m, id, 0, 1, id);
    }
  }
}
