/** What an assessment says: exactly when an entity is Green, and exactly when it is Red, told in
    terms of its record rather than of the folds that compute the code. */
module GreenMeaning {
  import opened Atlas
  import opened Evaluator

  /** Evidence that proves: some of it is fresh, passing, strong enough and not merely inferred,
      and nothing fresh fails or warns. */
  ghost predicate Proven(evidence: set<Evidence>, active: Snapshot, floor: Proof) {
    && (exists e :: e in evidence && e.snapshot == active && e.outcome == Pass && e.proof.Rank() >= floor.Rank() && e.source != Inferred)
    && (forall e :: e in evidence && e.snapshot == active ==> e.outcome != Fail && e.outcome != Warning)
  }

  ghost predicate Failing(evidence: set<Evidence>, active: Snapshot) {
    exists e :: e in evidence && e.snapshot == active && e.outcome == Fail
  }

  ghost function OnAxis(evidence: seq<Evidence>, axis: Axis): set<Evidence> {
    set e | e in evidence && e.axis == axis
  }

  ghost function All(evidence: seq<Evidence>): set<Evidence> {
    set e | e in evidence
  }

  predicate Demands(s: Socket) {
    s.direction == Requires && !s.optional
  }

  ghost predicate OpenAt(ctx: Context, id: Id, severity: Code) {
    var c := FindConflict(ctx.conflicts, id);
    c.Some? && c.value.open && c.value.severity == severity
  }

  ghost predicate RequiredEdge(ctx: Context, e: Entity, edge: Edge) {
    edge in ctx.edges && edge.required && edge.source == e.id
  }

  /** Every required relationship is proven and every demanded socket has a confirmed fit. */
  ghost predicate WiredGreen(ctx: Context, e: Entity) {
    && (forall edge :: RequiredEdge(ctx, e, edge) ==> Proven(All(edge.evidence), ctx.active, Floor(ctx, e.scale, Integration)))
    && (forall s :: s in e.sockets && Demands(s) ==> s.resolution.Fit? && s.resolution.status == Confirmed)
  }

  /** A required relationship fails, or a demanded socket is unmatched or wrongly matched. */
  ghost predicate WiredRed(ctx: Context, e: Entity) {
    || (exists edge :: RequiredEdge(ctx, e, edge) && Failing(All(edge.evidence), ctx.active))
    || (exists s :: s in e.sockets && Demands(s)
          && ((s.resolution.Hole? && s.resolution.reason == NoMatch) || (s.resolution.Fit? && s.resolution.status == Rejected)))
  }

  /** All that Green takes: a current record, proof on every axis, Green children, proven required
      relationships, confirmed fits, and no open contradiction of any severity. */
  ghost predicate EarnsGreen(ctx: Context, e: Entity, kids: seq<Code>) {
    && e.snapshot == ctx.active
    && (forall axis :: axis != Freshness ==> Proven(OnAxis(e.evidence, axis), ctx.active, Floor(ctx, e.scale, axis)))
    && (forall k :: k in kids ==> k == Green)
    && WiredGreen(ctx, e)
    && (forall id, severity :: id in e.conflicts && severity != Green ==> !OpenAt(ctx, id, severity))
  }

  /** All that can redden: fresh failing evidence on an axis evidence decides, a Red child, a required
      relationship that fails, an unmatched or rejected requirement, an open Red contradiction. */
  ghost predicate IsBroken(ctx: Context, e: Entity, kids: seq<Code>) {
    || (exists axis :: axis != Freshness && Failing(OnAxis(e.evidence, axis), ctx.active))
    || Red in kids
    || WiredRed(ctx, e)
    || (exists id :: id in e.conflicts && OpenAt(ctx, id, Red))
  }

  // ---- Members of the folded lists ----

  lemma {:induction false} EvidenceOnIs(evidence: seq<Evidence>, axis: Axis)
    ensures forall x :: x in EvidenceOn(evidence, axis) <==> x in evidence && x.axis == axis
  {
    if evidence != [] {
      EvidenceOnIs(evidence[1..], axis);
      assert evidence == [evidence[0]] + evidence[1..];
    }
  }

  lemma EvidenceOnAxis(evidence: seq<Evidence>, axis: Axis)
    ensures All(EvidenceOn(evidence, axis)) == OnAxis(evidence, axis)
  {
    EvidenceOnIs(evidence, axis);
  }

  lemma {:induction false} RequiredAre(edges: seq<Edge>, id: Id)
    ensures forall x :: x in RequiredFrom(edges, id) <==> x in edges && x.required && x.source == id
  {
    if edges != [] {
      RequiredAre(edges[..|edges| - 1], id);
      assert edges == edges[..|edges| - 1] + [edges[|edges| - 1]];
    }
  }

  lemma {:induction false} EdgeCodesAre(edges: seq<Edge>, active: Snapshot, floor: Proof)
    ensures forall c :: c in EdgeCodes(edges, active, floor) <==>
              exists x :: x in edges && CodeFromEvidence(x.evidence, active, floor) == c
  {
    hide CodeFromEvidence;
    if edges != [] {
      EdgeCodesAre(edges[..|edges| - 1], active, floor);
      assert edges == edges[..|edges| - 1] + [edges[|edges| - 1]];
    }
  }

  lemma {:induction false} CodesAre(cs: seq<Contribution>)
    ensures forall c :: c in CodesOf(cs) <==> exists x :: x in cs && x.code == c
  {
    if cs != [] {
      CodesAre(cs[..|cs| - 1]);
      assert cs == cs[..|cs| - 1] + [cs[|cs| - 1]];
    }
  }

  lemma {:induction false} SocketsContribute(sockets: seq<Socket>)
    ensures forall x :: x in SocketContributions(sockets) <==> exists s :: s in sockets && SocketContribution(s) == Some(x)
  {
    hide SocketContribution;
    if sockets != [] {
      SocketsContribute(sockets[1..]);
      assert sockets == [sockets[0]] + sockets[1..];
    }
  }

  function ConflictContribution(conflicts: seq<Conflict>, id: Id): Option<Contribution> {
    var c := FindConflict(conflicts, id);
    if c.Some? && c.value.open then Some(Contribution(c.value.severity, OpenContradiction(c.value.id))) else None
  }

  lemma {:induction false} ConflictsContribute(ids: seq<Id>, conflicts: seq<Conflict>)
    ensures forall x :: x in CoherenceContributions(ids, conflicts) <==>
              exists id :: id in ids && ConflictContribution(conflicts, id) == Some(x)
  {
    hide ConflictContribution;
    if ids != [] {
      ConflictsContribute(ids[1..], conflicts);
      FirstConflict(ids, conflicts);
      hide CoherenceContributions;
      assert ids == [ids[0]] + ids[1..];
    }
  }

  lemma FirstConflict(ids: seq<Id>, conflicts: seq<Conflict>)
    requires ids != []
    ensures var first := ConflictContribution(conflicts, ids[0]);
            CoherenceContributions(ids, conflicts) ==
            (if first.Some? then [first.value] else []) + CoherenceContributions(ids[1..], conflicts)
  {
  }

  // ---- Folded codes ----

  lemma CodeMeans(evidence: seq<Evidence>, active: Snapshot, floor: Proof)
    ensures CodeFromEvidence(evidence, active, floor) == Green <==> Proven(All(evidence), active, floor)
    ensures CodeFromEvidence(evidence, active, floor) == Red <==> Failing(All(evidence), active)
  {
  }

  lemma FoldMeans(base: Code, codes: seq<Code>)
    ensures Weakest(base, WeakestOf(codes)) == Green <==> base == Green && forall c :: c in codes ==> c == Green
    ensures Weakest(base, WeakestOf(codes)) == Red <==> base == Red || Red in codes
  {
    WeakestOfIsLeast(codes);
  }

  lemma SixMean(c: Code, s: Code, i: Code, v: Code, f: Code, h: Code)
    ensures WeakestOf([c, s, i, v, f, h]) == Green <==> c == s == i == v == f == h == Green
    ensures WeakestOf([c, s, i, v, f, h]) == Red <==> c == Red || s == Red || i == Red || v == Red || f == Red || h == Red
  {
    hide WeakestOf;
    UnfoldSix(c, s, i, v, f, h);
  }

  // ---- One axis at a time ----

  lemma BaseMeans(ctx: Context, e: Entity, axis: Axis)
    requires axis != Freshness
    ensures BaseCode(ctx, e, axis) == Green <==> Proven(OnAxis(e.evidence, axis), ctx.active, Floor(ctx, e.scale, axis))
    ensures BaseCode(ctx, e, axis) == Red <==> Failing(OnAxis(e.evidence, axis), ctx.active)
  {
    EvidenceOnAxis(e.evidence, axis);
    CodeMeans(EvidenceOn(e.evidence, axis), ctx.active, Floor(ctx, e.scale, axis));
  }

  lemma EdgesMean(ctx: Context, e: Entity)
    ensures var codes, floor := EdgeCodes(RequiredFrom(ctx.edges, e.id), ctx.active, Floor(ctx, e.scale, Integration)), Floor(ctx, e.scale, Integration);
            && ((forall c :: c in codes ==> c == Green) <==>
                forall edge :: RequiredEdge(ctx, e, edge) ==> Proven(All(edge.evidence), ctx.active, floor))
            && (Red in codes <==> exists edge :: RequiredEdge(ctx, e, edge) && Failing(All(edge.evidence), ctx.active))
  {
    var floor := Floor(ctx, e.scale, Integration);
    var required := RequiredFrom(ctx.edges, e.id);
    var codes := EdgeCodes(required, ctx.active, floor);
    RequiredAre(ctx.edges, e.id);
    EdgeCodesAre(required, ctx.active, floor);
    hide CodeFromEvidence, RequiredFrom, EdgeCodes, Proven, Failing, Floor, All;
    forall edge | RequiredEdge(ctx, e, edge)
      ensures CodeFromEvidence(edge.evidence, ctx.active, floor) in codes
      ensures CodeFromEvidence(edge.evidence, ctx.active, floor) == Green <==> Proven(All(edge.evidence), ctx.active, floor)
      ensures CodeFromEvidence(edge.evidence, ctx.active, floor) == Red <==> Failing(All(edge.evidence), ctx.active)
    {
      CodeMeans(edge.evidence, ctx.active, floor);
    }
    forall c | c in codes
      ensures exists edge :: RequiredEdge(ctx, e, edge) && CodeFromEvidence(edge.evidence, ctx.active, floor) == c
    {
      var x :| x in required && CodeFromEvidence(x.evidence, ctx.active, floor) == c;
      assert RequiredEdge(ctx, e, x);
    }
  }

  lemma SocketsMean(sockets: seq<Socket>)
    ensures var codes := CodesOf(SocketContributions(sockets));
            && ((forall c :: c in codes ==> c == Green) <==>
                (forall s :: s in sockets && Demands(s) ==> s.resolution.Fit? && s.resolution.status == Confirmed))
            && (Red in codes <==>
                exists s :: s in sockets && Demands(s)
                  && ((s.resolution.Hole? && s.resolution.reason == NoMatch) || (s.resolution.Fit? && s.resolution.status == Rejected)))
  {
    var cs := SocketContributions(sockets);
    SocketsContribute(sockets);
    CodesAre(cs);
    hide SocketContributions, CodesOf;
    forall s | s in sockets && SocketContribution(s).Some? ensures SocketContribution(s).value.code in CodesOf(cs) {
      assert SocketContribution(s).value in cs;
    }
  }

  lemma IntegrationMeans(ctx: Context, e: Entity, kids: seq<Code>)
    ensures AssessAxis(ctx, e, kids, Integration).code == Green <==>
            Proven(OnAxis(e.evidence, Integration), ctx.active, Floor(ctx, e.scale, Integration)) && WiredGreen(ctx, e)
    ensures AssessAxis(ctx, e, kids, Integration).code == Red <==>
            Failing(OnAxis(e.evidence, Integration), ctx.active) || WiredRed(ctx, e)
  {
    var edges := EdgeCodes(RequiredFrom(ctx.edges, e.id), ctx.active, Floor(ctx, e.scale, Integration));
    var sockets := CodesOf(SocketContributions(e.sockets));
    BaseMeans(ctx, e, Integration);
    EdgesMean(ctx, e);
    SocketsMean(e.sockets);
    hide EdgeCodes, RequiredFrom, SocketContributions, BaseCode, Proven, Failing, Floor, OnAxis, All, Demands,
      WeakestOf;
    assert forall c :: c in edges + sockets <==> c in edges || c in sockets;
    FoldMeans(BaseCode(ctx, e, Integration), edges + sockets);
  }

  lemma OpenCodes(ctx: Context, ids: seq<Id>, code: Code)
    ensures code in CodesOf(CoherenceContributions(ids, ctx.conflicts)) <==> exists id :: id in ids && OpenAt(ctx, id, code)
  {
    var open := CoherenceContributions(ids, ctx.conflicts);
    CodesAre(open);
    ConflictsContribute(ids, ctx.conflicts);
    hide CoherenceContributions, CodesOf, FindConflict;
    if id :| id in ids && OpenAt(ctx, id, code) {
      assert ConflictContribution(ctx.conflicts, id).value in open;
    }
  }

  lemma CoherenceMeans(ctx: Context, e: Entity, kids: seq<Code>)
    ensures AssessAxis(ctx, e, kids, Coherence).code == Green <==>
            Proven(OnAxis(e.evidence, Coherence), ctx.active, Floor(ctx, e.scale, Coherence))
            && forall id, severity :: id in e.conflicts && severity != Green ==> !OpenAt(ctx, id, severity)
    ensures AssessAxis(ctx, e, kids, Coherence).code == Red <==>
            Failing(OnAxis(e.evidence, Coherence), ctx.active) || exists id :: id in e.conflicts && OpenAt(ctx, id, Red)
  {
    var codes := CodesOf(CoherenceContributions(e.conflicts, ctx.conflicts));
    BaseMeans(ctx, e, Coherence);
    hide BaseCode, Proven, Failing, Floor, OnAxis, CoherenceContributions, CodesOf, OpenAt, WeakestOf;
    FoldMeans(BaseCode(ctx, e, Coherence), codes);
    OpenCodes(ctx, e.conflicts, Red);
    if forall c :: c in codes ==> c == Green {
      forall id, severity | id in e.conflicts && severity != Green ensures !OpenAt(ctx, id, severity) {
        OpenCodes(ctx, e.conflicts, severity);
      }
    }
    if forall id, severity :: id in e.conflicts && severity != Green ==> !OpenAt(ctx, id, severity) {
      forall c | c in codes ensures c == Green {
        OpenCodes(ctx, e.conflicts, c);
      }
    }
  }

  lemma PlainAxisMeans(ctx: Context, e: Entity, kids: seq<Code>, axis: Axis)
    requires axis == Content || axis == Verification
    ensures AssessAxis(ctx, e, kids, axis).code == Green <==> Proven(OnAxis(e.evidence, axis), ctx.active, Floor(ctx, e.scale, axis))
    ensures AssessAxis(ctx, e, kids, axis).code == Red <==> Failing(OnAxis(e.evidence, axis), ctx.active)
  {
    BaseMeans(ctx, e, axis);
    hide BaseCode, Proven, Failing, Floor, OnAxis;
  }

  lemma StructureMeans(ctx: Context, e: Entity, kids: seq<Code>)
    ensures AssessAxis(ctx, e, kids, Structure).code == Green <==>
            Proven(OnAxis(e.evidence, Structure), ctx.active, Floor(ctx, e.scale, Structure)) && forall k :: k in kids ==> k == Green
    ensures AssessAxis(ctx, e, kids, Structure).code == Red <==> Failing(OnAxis(e.evidence, Structure), ctx.active) || Red in kids
  {
    BaseMeans(ctx, e, Structure);
    hide BaseCode, Proven, Failing, Floor, OnAxis, WeakestOf;
    FoldMeans(BaseCode(ctx, e, Structure), kids);
  }

  lemma FreshnessMeans(ctx: Context, e: Entity, kids: seq<Code>)
    ensures AssessAxis(ctx, e, kids, Freshness).code == Green <==> e.snapshot == ctx.active
    ensures AssessAxis(ctx, e, kids, Freshness).code != Red
  {
  }

  lemma AxesMean(ctx: Context, e: Entity, kids: seq<Code>)
    ensures Assess(ctx, e, kids).overall == Green <==>
            AssessAxis(ctx, e, kids, Content).code == Green && AssessAxis(ctx, e, kids, Structure).code == Green
            && AssessAxis(ctx, e, kids, Integration).code == Green && AssessAxis(ctx, e, kids, Verification).code == Green
            && AssessAxis(ctx, e, kids, Freshness).code == Green && AssessAxis(ctx, e, kids, Coherence).code == Green
    ensures Assess(ctx, e, kids).overall == Red <==>
            AssessAxis(ctx, e, kids, Content).code == Red || AssessAxis(ctx, e, kids, Structure).code == Red
            || AssessAxis(ctx, e, kids, Integration).code == Red || AssessAxis(ctx, e, kids, Verification).code == Red
            || AssessAxis(ctx, e, kids, Freshness).code == Red || AssessAxis(ctx, e, kids, Coherence).code == Red
  {
    hide AssessAxis;
    SixMean(AssessAxis(ctx, e, kids, Content).code, AssessAxis(ctx, e, kids, Structure).code,
            AssessAxis(ctx, e, kids, Integration).code, AssessAxis(ctx, e, kids, Verification).code,
            AssessAxis(ctx, e, kids, Freshness).code, AssessAxis(ctx, e, kids, Coherence).code);
  }

  /** An entity is Green exactly when it has earned it. */
  lemma GreenIff(ctx: Context, e: Entity, kids: seq<Code>)
    ensures Assess(ctx, e, kids).overall == Green <==> EarnsGreen(ctx, e, kids)
  {
    hide Assess, AssessAxis, Proven, Floor, OnAxis, OpenAt, WiredGreen, WiredRed, Failing;
    AxesMean(ctx, e, kids);
    PlainAxisMeans(ctx, e, kids, Content);
    PlainAxisMeans(ctx, e, kids, Verification);
    StructureMeans(ctx, e, kids);
    IntegrationMeans(ctx, e, kids);
    CoherenceMeans(ctx, e, kids);
    FreshnessMeans(ctx, e, kids);
    assert (forall axis :: axis != Freshness ==> Proven(OnAxis(e.evidence, axis), ctx.active, Floor(ctx, e.scale, axis))) <==>
           Proven(OnAxis(e.evidence, Content), ctx.active, Floor(ctx, e.scale, Content))
           && Proven(OnAxis(e.evidence, Structure), ctx.active, Floor(ctx, e.scale, Structure))
           && Proven(OnAxis(e.evidence, Integration), ctx.active, Floor(ctx, e.scale, Integration))
           && Proven(OnAxis(e.evidence, Verification), ctx.active, Floor(ctx, e.scale, Verification))
           && Proven(OnAxis(e.evidence, Coherence), ctx.active, Floor(ctx, e.scale, Coherence));
  }

  /** An entity is Red exactly when something is broken: missing or stale proof never reddens. */
  lemma RedIff(ctx: Context, e: Entity, kids: seq<Code>)
    ensures Assess(ctx, e, kids).overall == Red <==> IsBroken(ctx, e, kids)
  {
    hide Assess, AssessAxis, Proven, Floor, OnAxis, OpenAt, WiredGreen, WiredRed, Failing;
    AxesMean(ctx, e, kids);
    PlainAxisMeans(ctx, e, kids, Content);
    PlainAxisMeans(ctx, e, kids, Verification);
    StructureMeans(ctx, e, kids);
    IntegrationMeans(ctx, e, kids);
    CoherenceMeans(ctx, e, kids);
    FreshnessMeans(ctx, e, kids);
    assert (exists axis :: axis != Freshness && Failing(OnAxis(e.evidence, axis), ctx.active)) <==>
           Failing(OnAxis(e.evidence, Content), ctx.active) || Failing(OnAxis(e.evidence, Structure), ctx.active)
           || Failing(OnAxis(e.evidence, Integration), ctx.active) || Failing(OnAxis(e.evidence, Verification), ctx.active)
           || Failing(OnAxis(e.evidence, Coherence), ctx.active);
  }
}
