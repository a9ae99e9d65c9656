/** The records every part of the index shares: entities, edges, evidence, sockets and
    the assessments derived from them (`context-types`). */
module Atlas {

  datatype Option<+T> = None | Some(value: T)

  datatype Result<+T, +E> = Ok(value: T) | Err(error: E)
  {
    predicate IsFailure() {
      Err?
    }

    function PropagateFailure<U>(): Result<U, E>
      requires Err?
    {
      Err(error)
    }

    function Extract(): T
      requires Ok?
    {
      value
    }
  }

  /** A 128-bit identifier. */
  newtype Id = x: int | 0 <= x < 0x1_0000_0000_0000_0000_0000_0000_0000_0000

  type Snapshot = string

  /** A single-precision number, carried as its shortest decimal spelling. */
  type Confidence = string

  datatype Scale = Universe | Galaxy | System | Planet | Moon
  {
    function Rank(): nat {
      match this
      case Universe => 0
      case Galaxy => 1
      case System => 2
      case Planet => 3
      case Moon => 4
    }
  }

  datatype Kind =
    | Registry | Product | Repository | Program | Subsystem | Module | Package
    | Service | Component | File | Type | Function | Test | Resource

  /** The Green lattice, weakest first. */
  datatype Code = Red | Unknown | Yellow | Green
  {
    function Rank(): nat {
      match this
      case Red => 0
      case Unknown => 1
      case Yellow => 2
      case Green => 3
    }
  }

  datatype Axis = Content | Structure | Integration | Verification | Freshness | Coherence

  const ALL_AXES := [Content, Structure, Integration, Verification, Freshness, Coherence]

  datatype FactSource = Declared | Parsed | Observed | Inferred | HumanFact

  datatype Proof = NoProof | Metadata | Syntax | Lint | Typecheck | Build | TestRun | HumanProof
  {
    function Rank(): nat {
      match this
      case NoProof => 0
      case Metadata => 1
      case Syntax => 2
      case Lint => 3
      case Typecheck => 4
      case Build => 5
      case TestRun => 6
      case HumanProof => 7
    }
  }

  datatype Outcome = NoOutcome | Pass | Warning | Fail

  /** Who saw it, on what content, when, and how surely. */
  datatype Origin = Origin(producer: string, fingerprint: string, observed: string, confidence: Confidence)

  datatype Evidence = Evidence(
    axis: Axis, source: FactSource, proof: Proof, outcome: Outcome, snapshot: Snapshot, origin: Origin)

  /** A scanner's own passing evidence; the moment is left out. */
  function Scanned(axis: Axis, proof: Proof, active: Snapshot, producer: string, confidence: Confidence): Evidence {
    Evidence(axis, Parsed, proof, Pass, active, Origin(producer, active, "", confidence))
  }

  datatype Direction = Requires | Provides
  datatype Basis = Unique | Ranked
  datatype FitStatus = Unconfirmed | Confirmed | Rejected
  datatype FitProof = ByTypecheck | ByBuild | ByTest | ByHuman
  datatype FitPlane = InferredFit | ObservedFit
  datatype ProofPath = Unchecked | Available | Unavailable
  datatype HoleReason = NoMatch | Ambiguous

  datatype Resolution =
    | Unresolved
    | Fit(provider: Id, basis: Basis, status: FitStatus, checkedBy: Option<FitProof>,
          proofPath: ProofPath, plane: FitPlane, confidence: Confidence)
    | Hole(reason: HoleReason, candidates: seq<Id>, adapterTarget: bool)

  datatype Shape = Shape(name: string, signature: string, version: string, hash: string)

  datatype Socket = Socket(
    id: Id, owner: Id, direction: Direction, shape: Shape, optional: bool,
    resolution: Resolution, sourceId: string, confidence: Confidence)

  /** Why an axis fell short, in place of the source's formatted sentence. */
  datatype Reason =
    | ChildNotGreen
    | RelationshipLacksEvidence
    | SocketReason(name: string, resolution: Resolution)
    | OpenContradiction(conflict: Id)

  datatype AxisAssessment = AxisAssessment(code: Code, floor: Proof, evidence: seq<Evidence>, reasons: seq<Reason>)

  datatype Assessment = Assessment(overall: Code, axes: map<Axis, AxisAssessment>, snapshot: Snapshot)

  datatype Entity = Entity(
    id: Id, scale: Scale, kind: Kind, name: string, path: Option<string>, parent: Option<Id>,
    sockets: seq<Socket>, fingerprint: string, evidence: seq<Evidence>,
    green: Option<Assessment>, conflicts: seq<Id>, snapshot: Snapshot)

  datatype RelationshipKind =
    | Contains | Imports | Calls | References | Implements | Conforms | Tests | Configures
    | Deploys | Produces | Consumes | Shares | Supersedes | Conflicts | Duplicates | Resembles

  datatype Plane = DeclaredPlane | ObservedPlane | InferredPlane

  datatype Edge = Edge(
    id: Id, source: Id, target: Id, kind: RelationshipKind, plane: Plane, required: bool,
    proof: seq<Id>, evidence: seq<Evidence>, sourceId: string, confidence: Confidence)

  datatype Conflict = Conflict(id: Id, open: bool, severity: Code)

  /** No two entities share an id. */
  ghost predicate DistinctIds(entities: seq<Entity>) {
    forall i, j :: 0 <= i < j < |entities| ==> entities[i].id != entities[j].id
  }
}
