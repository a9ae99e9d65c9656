/** The Green roll-up of `green/evaluator.rs`: what one entity is assessed as, and the pass
    that assesses a whole snapshot. */
module Evaluator {
  import opened Atlas
  import opened Hierarchy
  import Sorting

  /** What an assessment reads besides the entity and its children. */
  datatype Context = Context(
    active: Snapshot, floors: map<Scale, map<Axis, Proof>>, edges: seq<Edge>, conflicts: seq<Conflict>)

  function Weakest(left: Code, right: Code): Code {
    if left.Rank() <= right.Rank() then left else right
  }

  function WeakestOf(codes: seq<Code>): Code {
    if codes == [] then Green
    else Weakest(WeakestOf(codes[..|codes| - 1]), codes[|codes| - 1])
  }

  predicate Has(evidence: seq<Evidence>, active: Snapshot, outcome: Outcome) {
    exists e :: e in evidence && e.snapshot == active && e.outcome == outcome
  }

  /** Only evidence of the active snapshot speaks, the worst outcome wins, and Green takes a
      passing proof at the floor that was not merely inferred. */
  function CodeFromEvidence(evidence: seq<Evidence>, active: Snapshot, floor: Proof): Code {
    if !exists e :: e in evidence && e.snapshot == active then Unknown
    else if Has(evidence, active, Fail) then Red
    else if Has(evidence, active, Warning) then Yellow
    else if exists e :: e in evidence && e.snapshot == active && e.outcome == Pass
                     && e.proof.Rank() >= floor.Rank() && e.source != Inferred then Green
    else Unknown
  }

  datatype Contribution = Contribution(code: Code, reason: Reason)

  /** What one socket adds to the integration axis; optional and confirmed ones add nothing. */
  function SocketContribution(s: Socket): Option<Contribution> {
    if s.direction != Requires || s.optional then None
    else
      var reason := SocketReason(s.shape.name, s.resolution);
      match s.resolution
      case Unresolved => Some(Contribution(Unknown, reason))
      case Hole(why, _, _) => Some(Contribution(if why == NoMatch then Red else Yellow, reason))
      case Fit(_, _, status, _, _, _, _) =>
        match status
        case Rejected => Some(Contribution(Red, reason))
        case Unconfirmed => Some(Contribution(Yellow, reason))
        case Confirmed => None
  }

  function SocketContributions(sockets: seq<Socket>): seq<Contribution> {
    if sockets == [] then []
    else
      var c := SocketContribution(sockets[0]);
      (if c.Some? then [c.value] else []) + SocketContributions(sockets[1..])
  }

  function FindConflict(conflicts: seq<Conflict>, id: Id): Option<Conflict> {
    if conflicts == [] then None
    else if conflicts[0].id == id then Some(conflicts[0])
    else FindConflict(conflicts[1..], id)
  }

  function CoherenceContributions(ids: seq<Id>, conflicts: seq<Conflict>): seq<Contribution> {
    if ids == [] then []
    else
      var c := FindConflict(conflicts, ids[0]);
      (if c.Some? && c.value.open then [Contribution(c.value.severity, OpenContradiction(c.value.id))] else [])
      + CoherenceContributions(ids[1..], conflicts)
  }

  function EvidenceOn(evidence: seq<Evidence>, axis: Axis): seq<Evidence> {
    if evidence == [] then []
    else (if evidence[0].axis == axis then [evidence[0]] else []) + EvidenceOn(evidence[1..], axis)
  }

  function RequiredFrom(edges: seq<Edge>, id: Id): seq<Edge> {
    if edges == [] then []
    else
      var last := edges[|edges| - 1];
      RequiredFrom(edges[..|edges| - 1], id) + (if last.required && last.source == id then [last] else [])
  }

  function EdgeCodes(edges: seq<Edge>, active: Snapshot, floor: Proof): seq<Code> {
    if edges == [] then []
    else EdgeCodes(edges[..|edges| - 1], active, floor)
         + [CodeFromEvidence(edges[|edges| - 1].evidence, active, floor)]
  }

  function CodesOf(cs: seq<Contribution>): seq<Code> {
    if cs == [] then [] else CodesOf(cs[..|cs| - 1]) + [cs[|cs| - 1].code]
  }

  function ReasonsOf(cs: seq<Contribution>): seq<Reason> {
    if cs == [] then [] else ReasonsOf(cs[..|cs| - 1]) + [cs[|cs| - 1].reason]
  }

  function Floor(ctx: Context, scale: Scale, axis: Axis): Proof {
    if scale in ctx.floors && axis in ctx.floors[scale] then ctx.floors[scale][axis] else Metadata
  }

  predicate AnyNotGreen(codes: seq<Code>) {
    exists c :: c in codes && c != Green
  }

  /** The code an axis starts from: freshness from the snapshot stamp, the rest from evidence. */
  function BaseCode(ctx: Context, e: Entity, axis: Axis): Code {
    if axis == Freshness then (if e.snapshot == ctx.active then Green else Unknown)
    else CodeFromEvidence(EvidenceOn(e.evidence, axis), ctx.active, Floor(ctx, e.scale, axis))
  }

  /** The assessment of one axis: its base code darkened by everything that bears on it. */
  function AssessAxis(ctx: Context, e: Entity, kids: seq<Code>, axis: Axis): AxisAssessment {
    var floor, base := Floor(ctx, e.scale, axis), BaseCode(ctx, e, axis);
    var evidence := EvidenceOn(e.evidence, axis);
    match axis
    case Structure =>
      AxisAssessment(Weakest(base, WeakestOf(kids)), floor, evidence,
                     if AnyNotGreen(kids) then [ChildNotGreen] else [])
    case Integration =>
      var edges := EdgeCodes(RequiredFrom(ctx.edges, e.id), ctx.active, floor);
      var sockets := SocketContributions(e.sockets);
      AxisAssessment(Weakest(base, WeakestOf(edges + CodesOf(sockets))), floor, evidence,
                     (if AnyNotGreen(edges) then [RelationshipLacksEvidence] else []) + ReasonsOf(sockets))
    case Coherence =>
      var open := CoherenceContributions(e.conflicts, ctx.conflicts);
      AxisAssessment(Weakest(base, WeakestOf(CodesOf(open))), floor, evidence, ReasonsOf(open))
    case _ => AxisAssessment(base, floor, evidence, [])
  }

  /** The assessment of one entity from its own record and its children's overall codes. */
  function Assess(ctx: Context, e: Entity, kids: seq<Code>): Assessment {
    Assessment(
      WeakestOf([AssessAxis(ctx, e, kids, Content).code, AssessAxis(ctx, e, kids, Structure).code,
                 AssessAxis(ctx, e, kids, Integration).code, AssessAxis(ctx, e, kids, Verification).code,
                 AssessAxis(ctx, e, kids, Freshness).code, AssessAxis(ctx, e, kids, Coherence).code]),
      map[Content := AssessAxis(ctx, e, kids, Content), Structure := AssessAxis(ctx, e, kids, Structure),
          Integration := AssessAxis(ctx, e, kids, Integration), Verification := AssessAxis(ctx, e, kids, Verification),
          Freshness := AssessAxis(ctx, e, kids, Freshness), Coherence := AssessAxis(ctx, e, kids, Coherence)],
      ctx.active)
  }

  /** What an entity would be assessed as with no children. */
  function LocalCode(ctx: Context, e: Entity): Code {
    Assess(ctx, e, []).overall
  }

  // ---- The lattice ----

  lemma {:induction false} WeakestOfIsLeast(codes: seq<Code>)
    ensures forall c :: c in codes ==> WeakestOf(codes).Rank() <= c.Rank()
    ensures WeakestOf(codes) == Green || WeakestOf(codes) in codes
    ensures AnyNotGreen(codes) <==> WeakestOf(codes) != Green
  {
    if codes != [] {
      var n := |codes| - 1;
      WeakestOfIsLeast(codes[..n]);
      assert codes == codes[..n] + [codes[n]];
    }
  }

  lemma {:induction false} WeakestOfAppend(a: seq<Code>, b: seq<Code>)
    ensures WeakestOf(a + b) == Weakest(WeakestOf(a), WeakestOf(b))
  {
    if b == [] {
      assert a + b == a;
    } else {
      var n := |b| - 1;
      assert (a + b)[..|a + b| - 1] == a + b[..n];
      WeakestOfAppend(a, b[..n]);
    }
  }

  /** An entity's overall code is its own code darkened by its weakest child. */
  lemma OverallIsLocalAndChildren(ctx: Context, e: Entity, kids: seq<Code>)
    ensures Assess(ctx, e, kids).overall == Weakest(LocalCode(ctx, e), WeakestOf(kids))
  {
    var s := BaseCode(ctx, e, Structure);
    assert AssessAxis(ctx, e, kids, Structure).code == Weakest(s, WeakestOf(kids));
    assert AssessAxis(ctx, e, [], Structure).code == s;
    SixCodes(AssessAxis(ctx, e, kids, Content).code, s, WeakestOf(kids),
             AssessAxis(ctx, e, kids, Integration).code, AssessAxis(ctx, e, kids, Verification).code,
             AssessAxis(ctx, e, kids, Freshness).code, AssessAxis(ctx, e, kids, Coherence).code);
    hide BaseCode, Floor, EvidenceOn;
  }

  lemma Slide(a: Code, b: Code, k: Code)
    ensures Weakest(a, Weakest(b, k)) == Weakest(Weakest(a, b), k)
    ensures Weakest(Weakest(a, k), b) == Weakest(Weakest(a, b), k)
  {
  }

  lemma SixCodes(c: Code, s: Code, k: Code, i: Code, v: Code, f: Code, h: Code)
    ensures WeakestOf([c, Weakest(s, k), i, v, f, h]) == Weakest(WeakestOf([c, s, i, v, f, h]), k)
  {
    hide WeakestOf, Weakest;
    UnfoldSix(c, s, i, v, f, h);
    UnfoldSix(c, Weakest(s, k), i, v, f, h);
    var content := Weakest(Green, c);
    var structure := Weakest(content, s);
    Slide(content, s, k);
    Slide(structure, i, k);
    var integration := Weakest(structure, i);
    Slide(integration, v, k);
    var verification := Weakest(integration, v);
    Slide(verification, f, k);
    Slide(Weakest(verification, f), h, k);
  }

  function FoldSix(c: Code, s: Code, i: Code, v: Code, f: Code, h: Code): Code {
    Weakest(Weakest(Weakest(Weakest(Weakest(Weakest(Green, c), s), i), v), f), h)
  }

  lemma UnfoldSix(c: Code, s: Code, i: Code, v: Code, f: Code, h: Code)
    ensures WeakestOf([c, s, i, v, f, h]) == FoldSix(c, s, i, v, f, h)
  {
    WeakestOfAppend([c, s, i, v, f], [h]);
    WeakestOfAppend([c, s, i, v], [f]);
    WeakestOfAppend([c, s, i], [v]);
    WeakestOfAppend([c, s], [i]);
    WeakestOfAppend([c], [s]);
    assert [c, s, i, v, f, h] == [c, s, i, v, f] + [h];
    assert [c, s, i, v, f] == [c, s, i, v] + [f];
    assert [c, s, i, v] == [c, s, i] + [v];
    assert [c, s, i] == [c, s] + [i];
    assert [c, s] == [c] + [s];
  }

  /** Nothing but the weakest child matters: the order and number of children do not. */
  lemma OnlyWeakestChildMatters(ctx: Context, e: Entity, a: seq<Code>, b: seq<Code>)
    requires WeakestOf(a) == WeakestOf(b)
    ensures Assess(ctx, e, a) == Assess(ctx, e, b)
  {
    WeakestOfIsLeast(a);
    WeakestOfIsLeast(b);
  }

  // ---- One entity ----

  lemma WeakestAssociates(a: Code, b: Code, c: Code)
    ensures Weakest(Weakest(a, b), c) == Weakest(a, Weakest(b, c))
  {
  }

  lemma WeakestOfPrefix(base: Code, codes: seq<Code>, i: nat)
    requires i < |codes|
    ensures Weakest(base, WeakestOf(codes[..i + 1])) == Weakest(Weakest(base, WeakestOf(codes[..i])), codes[i])
  {
    assert codes[..i + 1][..i] == codes[..i];
  }

  /** Folds `codes` into `code` one at a time, as each of the source's inner loops does. */
  method Darken(base: Code, codes: seq<Code>) returns (code: Code)
    ensures code == Weakest(base, WeakestOf(codes))
  {
    code := base;
    for i := 0 to |codes|
      invariant code == Weakest(base, WeakestOf(codes[..i]))
    {
      WeakestOfPrefix(base, codes, i);
      code := Weakest(code, codes[i]);
    }
    assert codes[..|codes|] == codes;
  }

  method EvaluateAxis(e: Entity, ctx: Context, kids: seq<Code>, required: seq<Edge>,
                      axis: Axis) returns (r: AxisAssessment)
    requires required == RequiredFrom(ctx.edges, e.id)
    ensures r == AssessAxis(ctx, e, kids, axis)
  {
    hide WeakestOf, Weakest;
    var floor := Floor(ctx, e.scale, axis);
    var code := BaseCode(ctx, e, axis);
    var reasons := [];
    if axis == Structure {
      code := Darken(code, kids);
      if AnyNotGreen(kids) {
        reasons := reasons + [ChildNotGreen];
      }
    }
    if axis == Integration {
      var edgeCodes := EdgeCodes(required, ctx.active, floor);
      ghost var base := code;
      code := Darken(code, edgeCodes);
      if AnyNotGreen(edgeCodes) {
        reasons := reasons + [RelationshipLacksEvidence];
      }
      var sockets := SocketContributions(e.sockets);
      code := Darken(code, CodesOf(sockets));
      WeakestOfAppend(edgeCodes, CodesOf(sockets));
      WeakestAssociates(base, WeakestOf(edgeCodes), WeakestOf(CodesOf(sockets)));
      reasons := reasons + ReasonsOf(sockets);
    }
    if axis == Coherence {
      var open := CoherenceContributions(e.conflicts, ctx.conflicts);
      code := Darken(code, CodesOf(open));
      reasons := reasons + ReasonsOf(open);
    }
    r := AxisAssessment(code, floor, EvidenceOn(e.evidence, axis), reasons);
  }

  /** `evaluate_entity`: the six axes in turn, then the weakest of them. */
  method EvaluateEntity(e: Entity, ctx: Context, kids: seq<Code>, required: seq<Edge>) returns (r: Assessment)
    requires required == RequiredFrom(ctx.edges, e.id)
    ensures r == Assess(ctx, e, kids)
  {
    hide AssessAxis, WeakestOf, Assess;
    var axes: map<Axis, AxisAssessment> := map[];
    var overall := Green;
    ghost var codes: seq<Code> := [];
    OneMore(codes, Green);
    for i := 0 to |ALL_AXES|
      invariant axes.Keys == set a | a in ALL_AXES[..i]
      invariant forall a :: a in axes ==> axes[a] == AssessAxis(ctx, e, kids, a)
      invariant |codes| == i && forall j :: 0 <= j < i ==> codes[j] == AssessAxis(ctx, e, kids, ALL_AXES[j]).code
      invariant overall == WeakestOf(codes)
    {
      var axis := ALL_AXES[i];
      var a := EvaluateAxis(e, ctx, kids, required, axis);
      axes := axes[axis := a];
      OneMore(codes, a.code);
      codes := codes + [a.code];
      overall := Weakest(overall, a.code);
    }
    r := Assessment(overall, axes, ctx.active);
    AllAxesDone(e, ctx, kids, axes, codes);
  }

  lemma {:induction false} AllAxesDone(e: Entity, ctx: Context, kids: seq<Code>, axes: map<Axis, AxisAssessment>,
                                       codes: seq<Code>)
    requires axes.Keys == set a | a in ALL_AXES
    requires forall a :: a in axes ==> axes[a] == AssessAxis(ctx, e, kids, a)
    requires |codes| == 6 && forall j :: 0 <= j < 6 ==> codes[j] == AssessAxis(ctx, e, kids, ALL_AXES[j]).code
    ensures Assess(ctx, e, kids) == Assessment(WeakestOf(codes), axes, ctx.active)
  {
    hide AssessAxis, WeakestOf;
    assert codes == [codes[0], codes[1], codes[2], codes[3], codes[4], codes[5]];
    forall a ensures a in axes {
      assert a in ALL_AXES by { AxisListed(a); }
    }
    assert axes == Assess(ctx, e, kids).axes;
  }

  lemma AxisListed(a: Axis)
    ensures a in ALL_AXES
  {
    match a
    case Content => assert ALL_AXES[0] == a;
    case Structure => assert ALL_AXES[1] == a;
    case Integration => assert ALL_AXES[2] == a;
    case Verification => assert ALL_AXES[3] == a;
    case Freshness => assert ALL_AXES[4] == a;
    case Coherence => assert ALL_AXES[5] == a;
  }

  lemma OneMore(codes: seq<Code>, c: Code)
    ensures WeakestOf([]) == Green && WeakestOf(codes + [c]) == Weakest(WeakestOf(codes), c)
  {
    assert (codes + [c])[..|codes|] == codes;
  }

  // ---- The whole snapshot ----

  /** The ids of the entities of one rank, in list order. */
  function OfRank(entities: seq<Entity>, rank: nat): seq<Id> {
    if entities == [] then []
    else
      var last := entities[|entities| - 1];
      OfRank(entities[..|entities| - 1], rank) + (if last.scale.Rank() == rank then [last.id] else [])
  }

  /** The stable sort by descending scale rank: Moons first, the Universe last. */
  function FromRank(entities: seq<Entity>, rank: nat): seq<Id>
    decreases 5 - rank
  {
    if rank > 4 then [] else FromRank(entities, rank + 1) + OfRank(entities, rank)
  }

  function EvaluationOrder(entities: seq<Entity>): seq<Id> {
    FromRank(entities, 0)
  }

  /** The codes of the listed entities that have one. */
  function KnownCodes(codes: map<Id, Code>, ids: seq<Id>): seq<Code> {
    if ids == [] then []
    else (if ids[0] in codes then [codes[ids[0]]] else []) + KnownCodes(codes, ids[1..])
  }

  function Overalls(asg: map<Id, Assessment>): map<Id, Code> {
    map id | id in asg :: asg[id].overall
  }

  /** The assessments after the ids of `order` have been visited in turn. */
  function PassOver(ctx: Context, entities: seq<Entity>, order: seq<Id>): map<Id, Assessment> {
    if order == [] then map[]
    else
      var before := PassOver(ctx, entities, order[..|order| - 1]);
      var id, m := order[|order| - 1], IndexOf(entities);
      if id in m then before[id := Assess(ctx, m[id], KnownCodes(Overalls(before), ChildIds(entities, id)))]
      else before
  }

  /** What the full pass assesses every entity as. */
  function FullPass(ctx: Context, entities: seq<Entity>): map<Id, Assessment> {
    PassOver(ctx, entities, EvaluationOrder(entities))
  }

  lemma {:induction false} OfRankMembers(entities: seq<Entity>, rank: nat)
    ensures forall id :: id in OfRank(entities, rank) <==> exists e :: e in entities && e.id == id && e.scale.Rank() == rank
  {
    if entities != [] {
      var n := |entities| - 1;
      OfRankMembers(entities[..n], rank);
      assert entities == entities[..n] + [entities[n]];
    }
  }

  lemma {:induction false} FromRankMembers(entities: seq<Entity>, rank: nat)
    ensures forall id :: id in FromRank(entities, rank) <==> exists e :: e in entities && e.id == id && e.scale.Rank() >= rank
    decreases 5 - rank
  {
    if rank <= 4 {
      FromRankMembers(entities, rank + 1);
      OfRankMembers(entities, rank);
    }
  }

  lemma PassStep(ctx: Context, entities: seq<Entity>, order: seq<Id>)
    requires order != [] && order[|order| - 1] in IndexOf(entities)
    ensures var before := PassOver(ctx, entities, order[..|order| - 1]);
            var id := order[|order| - 1];
            PassOver(ctx, entities, order) ==
            before[id := Assess(ctx, IndexOf(entities)[id], KnownCodes(Overalls(before), ChildIds(entities, id)))]
  {
    hide Assess, KnownCodes, IndexOf, ChildIds, Overalls;
  }

  lemma {:induction false} PassKeys(ctx: Context, entities: seq<Entity>, order: seq<Id>)
    requires forall id :: id in order ==> id in IndexOf(entities)
    ensures PassOver(ctx, entities, order).Keys == set id | id in order
  {
    hide Assess, KnownCodes, IndexOf, ChildIds, Overalls;
    if order != [] {
      var n := |order| - 1;
      assert order == order[..n] + [order[n]];
      PassKeys(ctx, entities, order[..n]);
      PassStep(ctx, entities, order);
      hide PassOver;
      assert (set id | id in order) == (set id | id in order[..n]) + {order[n]};
    }
  }

  lemma RequiredAppend(edges: seq<Edge>, i: nat, id: Id)
    requires i < |edges|
    ensures RequiredFrom(edges[..i + 1], id) ==
            RequiredFrom(edges[..i], id) + (if edges[i].required && edges[i].source == id then [edges[i]] else [])
  {
    assert edges[..i + 1][..i] == edges[..i];
  }

  /** Groups the required edges by source, keeping their order. */
  method GroupRequired(edges: seq<Edge>) returns (bySource: map<Id, seq<Edge>>)
    ensures forall id :: RequiredFrom(edges, id) == if id in bySource then bySource[id] else []
  {
    bySource := map[];
    for i := 0 to |edges|
      invariant forall id :: RequiredFrom(edges[..i], id) == if id in bySource then bySource[id] else []
    {
      hide RequiredFrom;
      forall id { RequiredAppend(edges, i, id); }
      if edges[i].required {
        var s := edges[i].source;
        bySource := bySource[s := (if s in bySource then bySource[s] else []) + [edges[i]]];
      }
    }
    assert edges[..|edges|] == edges;
  }

  lemma {:induction false} KnownCodesAre(codes: map<Id, Code>, ids: seq<Id>)
    ensures forall c :: c in KnownCodes(codes, ids) <==> exists id :: id in ids && id in codes && codes[id] == c
  {
    if ids != [] {
      KnownCodesAre(codes, ids[1..]);
      assert ids == [ids[0]] + ids[1..];
    }
  }

  /** Listing the children otherwise changes no assessment. */
  lemma SameChildren(ctx: Context, e: Entity, codes: map<Id, Code>, a: seq<Id>, b: seq<Id>)
    requires multiset(a) == multiset(b)
    ensures Assess(ctx, e, KnownCodes(codes, a)) == Assess(ctx, e, KnownCodes(codes, b))
  {
    hide Assess, WeakestOf, KnownCodes;
    KnownCodesAre(codes, a);
    KnownCodesAre(codes, b);
    forall id ensures id in a <==> id in b {
      assert id in multiset(a) <==> id in multiset(b);
    }
    SameCodesSameWeakest(KnownCodes(codes, a), KnownCodes(codes, b));
    OnlyWeakestChildMatters(ctx, e, KnownCodes(codes, a), KnownCodes(codes, b));
  }

  lemma SameCodesSameWeakest(a: seq<Code>, b: seq<Code>)
    requires forall c :: c in a <==> c in b
    ensures WeakestOf(a) == WeakestOf(b)
  {
    WeakestOfIsLeast(a);
    WeakestOfIsLeast(b);
    hide WeakestOf;
    FirstIsMember(a);
    FirstIsMember(b);
  }

  lemma FirstIsMember(a: seq<Code>)
    ensures a != [] ==> a[0] in a
  {
  }

  method ChildStates(overall: map<Id, Code>, ids: seq<Id>) returns (codes: seq<Code>)
    ensures codes == KnownCodes(overall, ids)
  {
    codes := [];
    for i := 0 to |ids|
      invariant codes + KnownCodes(overall, ids[i..]) == KnownCodes(overall, ids)
    {
      if ids[i] in overall {
        codes := codes + [overall[ids[i]]];
      }
    }
  }

  method AssessInOrder(es: seq<Entity>, tree: Tree, ctx: Context) returns (asg: map<Id, Assessment>)
    requires IsTreeOf(tree, es)
    ensures asg == FullPass(ctx, es)
    ensures asg.Keys == set e | e in es :: e.id
  {
    hide Assess, IndexOf, ChildIds, RequiredFrom, KnownCodes, Roots, FromRank, WellFormed, Sorting.SortBy, ByPlace;
    var order := EvaluationOrder(es);
    var required := GroupRequired(ctx.edges);
    asg := map[];
    FromRankMembers(es, 0);
    for i := 0 to |order|
      invariant asg == PassOver(ctx, es, order[..i])
    {
      var id := order[i];
      assert order[..i + 1][..i] == order[..i];
      assert id in order;
      ChildrenListed(tree, es, id);
      SameChildren(ctx, tree.entities[id], Overalls(asg), ListedUnder(tree.children, id), ChildIds(es, id));
      var kids := ChildStates(Overalls(asg), ListedUnder(tree.children, id));
      var a := EvaluateEntity(tree.entities[id], ctx, kids, if id in required then required[id] else []);
      asg := asg[id := a];
    }
    assert order[..|order|] == order;
    PassKeys(ctx, es, order);
  }

  /** `evaluate_snapshot`: refuses anything but a containment tree, and otherwise stamps every
      entity with what the pass assessed it as. */
  method EvaluateSnapshot(entities: array<Entity>, ctx: Context) returns (ok: bool)
    modifies entities
    ensures ok <==> WellFormed(old(entities[..]))
    ensures !ok ==> entities[..] == old(entities[..])
    ensures ok ==> entities[..] == Stamped(old(entities[..]), FullPass(ctx, old(entities[..])))
  {
    hide WellFormed, FullPass, IsTreeOf, Stamped;
    var es := entities[..];
    var t := FromEntities(es);
    if t.Err? {
      return false;
    }
    var asg := AssessInOrder(es, t.value, ctx);
    for i := 0 to |es|
      invariant forall j :: 0 <= j < i ==> entities[j] == es[j].(green := Some(asg[es[j].id]))
      invariant forall j :: i <= j < |es| ==> entities[j] == es[j]
    {
      entities[i] := es[i].(green := Some(asg[es[i].id]));
    }
    assert entities[..] == Stamped(es, asg);
    return true;
  }

  function Stamped(entities: seq<Entity>, asg: map<Id, Assessment>): (r: seq<Entity>)
    ensures |r| == |entities|
    ensures forall i :: 0 <= i < |r| ==>
      r[i] == entities[i].(green := if entities[i].id in asg then Some(asg[entities[i].id]) else None)
  {
    if entities == [] then []
    else
      var last := entities[|entities| - 1];
      Stamped(entities[..|entities| - 1], asg)
      + [last.(green := if last.id in asg then Some(asg[last.id]) else None)]
  }
}
