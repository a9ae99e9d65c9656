/** Folder Green in the layered scan: Systems are folded from their Planets' codes, and the
    roots assessed without edges, where the whole-snapshot scan assesses everything. */
module LayeredGreen {
  import opened Atlas
  import opened Hierarchy
  import opened Evaluator
  import opened RollUp
  import Slices

  /** The fold is the assessed code exactly when the System's own axes are no darker than its
      darkest Planet. */
  lemma FoldIsAssessedIff(ctx: Context, system: Entity, planets: seq<Code>)
    ensures WeakestOf(planets) == Assess(ctx, system, planets).overall
            <==> WeakestOf(planets).Rank() <= LocalCode(ctx, system).Rank()
  {
    hide Assess, LocalCode;
    OverallIsLocalAndChildren(ctx, system, planets);
  }

  // ---- The records the scanner itself writes ----

  /** An entity as the scanner builds it, before any recorded evidence is merged. */
  predicate ScannedFolder(ctx: Context, e: Entity) {
    e.evidence == Slices.ScannerEvidence(ctx.active) && e.sockets == [] && e.conflicts == [] && e.snapshot == ctx.active
  }

  ghost predicate DefaultPolicy(ctx: Context) {
    forall scale, axis :: Floor(ctx, scale, axis) == Metadata
  }

  /** The required edges are the scanner's containment edges, with their passing evidence. */
  ghost predicate ContainmentEdges(ctx: Context) {
    forall edge :: edge in ctx.edges && edge.required ==>
      edge.evidence == [Scanned(Integration, Metadata, ctx.active, "creature-context-scanner", "1")]
  }

  lemma {:induction false} ContainmentIsGreen(ctx: Context, edges: seq<Edge>)
    requires forall edge :: edge in edges ==> edge.evidence == [Scanned(Integration, Metadata, ctx.active, "creature-context-scanner", "1")]
    ensures WeakestOf(EdgeCodes(edges, ctx.active, Metadata)) == Green
    ensures !AnyNotGreen(EdgeCodes(edges, ctx.active, Metadata))
  {
    if edges != [] {
      var n := |edges| - 1;
      ContainmentIsGreen(ctx, edges[..n]);
      assert edges[n] in edges;
      PassIsGreen(ctx.active, Integration);
      hide CodeFromEvidence;
      WeakestOfIsLeast(EdgeCodes(edges, ctx.active, Metadata));
    }
  }

  lemma {:induction false} RequiredAreEdges(edges: seq<Edge>, id: Id)
    ensures forall edge :: edge in RequiredFrom(edges, id) ==> edge in edges && edge.required
  {
    if edges != [] {
      RequiredAreEdges(edges[..|edges| - 1], id);
    }
  }

  /** Containment edges change nothing: neither a code nor a reason, so the roots may be
      assessed without them. */
  lemma ContainmentAddsNothing(ctx: Context, e: Entity, kids: seq<Code>)
    requires DefaultPolicy(ctx) && ContainmentEdges(ctx)
    ensures Assess(ctx.(edges := []), e, kids) == Assess(ctx, e, kids)
  {
    var bare := ctx.(edges := []);
    RequiredAreEdges(ctx.edges, e.id);
    ContainmentIsGreen(ctx, RequiredFrom(ctx.edges, e.id));
    forall axis ensures AssessAxis(bare, e, kids, axis) == AssessAxis(ctx, e, kids, axis) {
      SameFloor(ctx, e, axis);
      if axis == Integration {
        var codes := EdgeCodes(RequiredFrom(ctx.edges, e.id), ctx.active, Metadata);
        var sockets := CodesOf(SocketContributions(e.sockets));
        assert Floor(ctx, e.scale, axis) == Metadata;
        WeakestOfAppend(codes, sockets);
        WeakestOfAppend([], sockets);
        assert RequiredFrom(bare.edges, e.id) == [];
        hide WeakestOf, EdgeCodes, RequiredFrom;
        assert EdgeCodes([], ctx.active, Metadata) == [] by { NoEdges(ctx.active); }
      }
    }
    hide AssessAxis;
  }

  lemma NoEdges(active: Snapshot)
    ensures EdgeCodes([], active, Metadata) == []
  {
  }

  lemma SameFloor(ctx: Context, e: Entity, axis: Axis)
    ensures Floor(ctx.(edges := []), e.scale, axis) == Floor(ctx, e.scale, axis)
    ensures BaseCode(ctx.(edges := []), e, axis) == BaseCode(ctx, e, axis)
  {
  }

  /** A folder the scanner built knows nothing of its own verification, so by itself it is
      Unknown: no better, no worse. */
  lemma ScannedFolderIsUnknown(ctx: Context, e: Entity)
    requires DefaultPolicy(ctx) && ContainmentEdges(ctx) && ScannedFolder(ctx, e)
    ensures LocalCode(ctx, e) == Unknown
  {
    var bare := ctx.(edges := []);
    ContainmentAddsNothing(ctx, e, []);
    ScannedAxes(bare, e);
    hide AssessAxis;
    UnfoldSix(Green, Green, Unknown, Unknown, Green, Unknown);
  }

  lemma ScannedAxes(ctx: Context, e: Entity)
    requires ctx.edges == [] && ScannedFolder(ctx, e)
    requires Floor(ctx, e.scale, Content) == Metadata && Floor(ctx, e.scale, Structure) == Metadata
    ensures AssessAxis(ctx, e, [], Content).code == Green && AssessAxis(ctx, e, [], Structure).code == Green
    ensures AssessAxis(ctx, e, [], Integration).code == Unknown && AssessAxis(ctx, e, [], Verification).code == Unknown
    ensures AssessAxis(ctx, e, [], Freshness).code == Green && AssessAxis(ctx, e, [], Coherence).code == Unknown
  {
    forall axis { ScannerEvidenceOn(ctx.active, axis); }
    hide EvidenceOn;
    PassIsGreen(ctx.active, Content);
    PassIsGreen(ctx.active, Structure);
    NothingIsUnknown(ctx.active, Floor(ctx, e.scale, Integration));
    NothingIsUnknown(ctx.active, Floor(ctx, e.scale, Verification));
    NothingIsUnknown(ctx.active, Floor(ctx, e.scale, Coherence));
    hide CodeFromEvidence, Floor;
    assert RequiredFrom([], e.id) == [] && EdgeCodes([], ctx.active, Floor(ctx, e.scale, Integration)) == [];
  }

  lemma ScannerEvidenceOn(active: Snapshot, axis: Axis)
    ensures EvidenceOn(Slices.ScannerEvidence(active), axis) ==
            if axis == Content || axis == Structure then [Scanned(axis, Metadata, active, "creature-context-scanner", "1")] else []
  {
    var s := Slices.ScannerEvidence(active);
    assert s[1..][1..] == [];
    assert EvidenceOn(s[1..], axis) == if axis == Structure then [s[1]] else [];
  }

  lemma PassIsGreen(active: Snapshot, axis: Axis)
    ensures CodeFromEvidence([Scanned(axis, Metadata, active, "creature-context-scanner", "1")], active, Metadata) == Green
  {
    var e := Scanned(axis, Metadata, active, "creature-context-scanner", "1");
    assert e in [e];
  }

  lemma NothingIsUnknown(active: Snapshot, floor: Proof)
    ensures CodeFromEvidence([], active, floor) == Unknown
  {
  }
}
