/** The record kinds of the IDX format: what each writes, how each is read, and that reading gives
    back what was written. */
module IdxEntries {
  import opened Atlas
  import opened IdxText
  import opened IdxLines
  import opened IdxAtoms
  import opened IdxRecords

  datatype FieldError = Missing(key: string) | Invalid(value: string)

  // ---- Reading one field ----

  function Need(fields: seq<Pair>, key: string): Result<string, FieldError> {
    match Get(fields, key)
    case None => Err(Missing(key))
    case Some(v) => Ok(v)
  }

  function Checked<T>(value: string, parsed: Option<T>): Result<T, FieldError> {
    match parsed
    case None => Err(Invalid(value))
    case Some(x) => Ok(x)
  }

  function NeedUuid(fields: seq<Pair>, key: string): Result<Id, FieldError> {
    var v :- Need(fields, key);
    Checked(v, ParseUuid(v))
  }

  function OptUuid(fields: seq<Pair>, key: string): Result<Option<Id>, FieldError> {
    match Get(fields, key)
    case None => Ok(None)
    case Some(v) => match ParseUuid(v) case None => Err(Invalid(v)) case Some(id) => Ok(Some(id))
  }

  function OptIds(fields: seq<Pair>, key: string): Result<seq<Id>, FieldError> {
    match Get(fields, key)
    case None => Ok([])
    case Some(v) => Checked(v, ParseIdArray(v))
  }

  function Or(value: Option<string>, otherwise: string): string {
    if value.Some? then value.value else otherwise
  }

  function Present(item: Item): Slot {
    Slot(item, true)
  }

  // ---- Entities ----

  function EntitySlots(e: Entity): seq<Slot> {
    [Present(AtomItem("id", UuidText(e.id))),
     Present(AtomItem("scale", ScaleAtom(e.scale))),
     Present(AtomItem("kind", KindAtom(e.kind))),
     Slot(AtomItem("parent", UuidText(if e.parent.Some? then e.parent.value else e.id)), e.parent.Some?),
     Slot(TextItem("path", Or(e.path, "")), e.path.Some?),
     Present(TextItem("name", e.name)),
     Slot(TextItem("fingerprint", e.fingerprint), e.fingerprint != "")]
  }

  function EntityLine(e: Entity): string {
    Line("@entity", Items(EntitySlots(e)))
  }

  /** The entity alone: sockets and Green arrive from other records, the snapshot id from the
      header. */
  function ParseEntity(fields: seq<Pair>): Result<Entity, FieldError> {
    var id :- NeedUuid(fields, "id");
    var s :- Need(fields, "scale");
    var scale :- Checked(s, ParseScale(s));
    var k :- Need(fields, "kind");
    var kind :- Checked(k, ParseKind(k));
    var parent :- OptUuid(fields, "parent");
    var name :- Need(fields, "name");
    Ok(Entity(id, scale, kind, name, Get(fields, "path"), parent, [], Or(Get(fields, "fingerprint"), ""), [], None, [], ""))
  }

  /** An entity without what its own record does not carry. */
  function Stripped(e: Entity): Entity {
    e.(sockets := [], evidence := [], green := None, conflicts := [], snapshot := "")
  }

  lemma EntityKeys(e: Entity)
    ensures GoodKeys(EntitySlots(e))
  {
    hide UuidText, ScaleAtom, KindAtom, Field, Or;
  }

  lemma EntitySlotsMade(e: Entity)
    ensures WellMade(EntitySlots(e))
  {
    hide Bare, Good, UuidText, ScaleAtom, KindAtom, ParseScale, ParseKind, GoodKeys, Field, Or;
    EntityKeys(e);
    UuidTextIsBare(e.id);
    ScaleRoundTrip(e.scale);
    KindRoundTrip(e.kind);
    if e.parent.Some? {
      UuidTextIsBare(e.parent.value);
    }
    var s := EntitySlots(e);
    AtomGood(s[0].item);
    AtomGood(s[1].item);
    AtomGood(s[2].item);
    AtomGood(s[3].item);
    TextGood(s[4].item);
    TextGood(s[5].item);
    TextGood(s[6].item);
  }

  lemma EntityFields(e: Entity)
    ensures var f := PairsOf(Items(EntitySlots(e)));
            && Get(f, "id") == Some(UuidText(e.id)) && Get(f, "scale") == Some(ScaleAtom(e.scale))
            && Get(f, "kind") == Some(KindAtom(e.kind))
            && Get(f, "parent") == (if e.parent.Some? then Some(UuidText(e.parent.value)) else None)
            && Get(f, "path") == e.path && Get(f, "name") == Some(e.name)
            && Get(f, "fingerprint") == (if e.fingerprint != "" then Some(e.fingerprint) else None)
  {
    hide Items, Get, UuidText, ScaleAtom, KindAtom, Field, DistinctSlots, Bare;
    var s := EntitySlots(e);
    EntityKeys(e);
    GetSlot(s, 0);
    GetSlot(s, 1);
    GetSlot(s, 2);
    GetSlot(s, 3);
    GetSlot(s, 4);
    GetSlot(s, 5);
    GetSlot(s, 6);
  }

  lemma EntityRoundTrip(e: Entity)
    ensures ParseEntity(PairsOf(Items(EntitySlots(e)))) == Ok(Stripped(e))
  {
    hide Items, Get, UuidText, ScaleAtom, KindAtom, ParseUuid, ParseScale, ParseKind, EntitySlots;
    EntityFields(e);
    UuidRoundTrip(e.id);
    ScaleRoundTrip(e.scale);
    KindRoundTrip(e.kind);
    if e.parent.Some? {
      UuidRoundTrip(e.parent.value);
    }
  }

  /** A confidence is opaque: any bare word is taken as its spelling. */
  function Confident(v: string): Result<Confidence, FieldError> {
    if Bare(v) then Ok(v) else Err(Invalid(v))
  }

  // ---- Edges ----

  function EdgeSlots(e: Edge): seq<Slot> {
    [Present(AtomItem("id", UuidText(e.id))),
     Present(AtomItem("from", UuidText(e.source))),
     Present(AtomItem("to", UuidText(e.target))),
     Present(AtomItem("kind", RelationshipAtom(e.kind))),
     Present(AtomItem("plane", PlaneAtom(e.plane))),
     Present(AtomItem("required", FlagAtom(e.required))),
     Present(TextItem("source", e.sourceId)),
     Present(AtomItem("confidence", e.confidence)),
     Slot(AtomItem("proof", IdArray(e.proof)), e.proof != [])]
  }

  function EdgeLine(e: Edge): string {
    Line("@edge", Items(EdgeSlots(e)))
  }

  function ParseEdge(fields: seq<Pair>): Result<Edge, FieldError> {
    var id :- NeedUuid(fields, "id");
    var source :- NeedUuid(fields, "from");
    var target :- NeedUuid(fields, "to");
    var k :- Need(fields, "kind");
    var kind :- Checked(k, ParseRelationship(k));
    var p :- Need(fields, "plane");
    var plane :- Checked(p, ParsePlane(p));
    var r :- Need(fields, "required");
    var required :- Checked(r, ParseFlag(r));
    var sourceId :- Need(fields, "source");
    var c :- Need(fields, "confidence");
    var confidence :- Confident(c);
    var proof :- OptIds(fields, "proof");
    Ok(Edge(id, source, target, kind, plane, required, proof, [], sourceId, confidence))
  }

  function StrippedEdge(e: Edge): Edge {
    e.(evidence := [])
  }

  lemma EdgeKeys(e: Edge)
    ensures GoodKeys(EdgeSlots(e))
  {
    hide UuidText, RelationshipAtom, PlaneAtom, FlagAtom, Field, IdArray;
  }

  lemma EdgeSlotsMade(e: Edge)
    requires Bare(e.confidence)
    ensures WellMade(EdgeSlots(e))
  {
    hide Bare, Good, UuidText, RelationshipAtom, PlaneAtom, FlagAtom, ParseRelationship, ParsePlane, ParseFlag,
      GoodKeys, Field, IdArray;
    var s := EdgeSlots(e);
    EdgeKeys(e);
    UuidTextIsBare(e.id);
    UuidTextIsBare(e.source);
    UuidTextIsBare(e.target);
    RelationshipRoundTrip(e.kind);
    PlaneRoundTrip(e.plane);
    FlagRoundTrip(e.required);
    AtomGood(s[0].item);
    AtomGood(s[1].item);
    AtomGood(s[2].item);
    AtomGood(s[3].item);
    AtomGood(s[4].item);
    AtomGood(s[5].item);
    TextGood(s[6].item);
    AtomGood(s[7].item);
    ArrayGood(s[8].item, e.proof);
  }

  lemma EdgeFields(e: Edge)
    ensures var f := PairsOf(Items(EdgeSlots(e)));
            && Get(f, "id") == Some(UuidText(e.id)) && Get(f, "from") == Some(UuidText(e.source))
            && Get(f, "to") == Some(UuidText(e.target)) && Get(f, "kind") == Some(RelationshipAtom(e.kind))
            && Get(f, "plane") == Some(PlaneAtom(e.plane)) && Get(f, "required") == Some(FlagAtom(e.required))
            && Get(f, "source") == Some(e.sourceId) && Get(f, "confidence") == Some(e.confidence)
            && Get(f, "proof") == (if e.proof != [] then Some(IdArray(e.proof)) else None)
  {
    hide Items, Get, UuidText, RelationshipAtom, PlaneAtom, FlagAtom, Field, IdArray, DistinctSlots, Bare;
    var s := EdgeSlots(e);
    EdgeKeys(e);
    GetSlot(s, 0);
    GetSlot(s, 1);
    GetSlot(s, 2);
    GetSlot(s, 3);
    GetSlot(s, 4);
    GetSlot(s, 5);
    GetSlot(s, 6);
    GetSlot(s, 7);
    GetSlot(s, 8);
  }

  lemma EdgeRoundTrip(e: Edge)
    requires Bare(e.confidence)
    ensures ParseEdge(PairsOf(Items(EdgeSlots(e)))) == Ok(StrippedEdge(e))
  {
    hide Items, Get, UuidText, RelationshipAtom, PlaneAtom, FlagAtom, ParseRelationship, ParsePlane, ParseFlag, ParseUuid,
         ParseIdArray, IdArray, EdgeSlots, Bare;
    EdgeFields(e);
    UuidRoundTrip(e.id);
    UuidRoundTrip(e.source);
    UuidRoundTrip(e.target);
    RelationshipRoundTrip(e.kind);
    PlaneRoundTrip(e.plane);
    FlagRoundTrip(e.required);
    IdArrayRoundTrip(e.proof);
  }

  // ---- Green ----

  function AxisLetter(axis: Axis): string {
    match axis
    case Content => "C"
    case Structure => "S"
    case Integration => "I"
    case Verification => "V"
    case Freshness => "F"
    case Coherence => "H"
  }

  function CodeOn(g: Assessment, axis: Axis): Code {
    if axis in g.axes then g.axes[axis].code else Unknown
  }

  function AxisSlot(g: Assessment, axis: Axis): Slot {
    Present(AtomItem(AxisLetter(axis), CodeAtom(CodeOn(g, axis))))
  }

  function GreenSlots(target: Id, g: Assessment): seq<Slot> {
    [Present(AtomItem("target", UuidText(target))),
     AxisSlot(g, Content), AxisSlot(g, Structure), AxisSlot(g, Integration),
     AxisSlot(g, Verification), AxisSlot(g, Freshness), AxisSlot(g, Coherence),
     Present(AtomItem("overall", CodeAtom(g.overall)))]
  }

  function GreenLine(target: Id, g: Assessment): string {
    Line("@green", Items(GreenSlots(target, g)))
  }

  function OptCode(fields: seq<Pair>, key: string): Result<Code, FieldError> {
    match Get(fields, key)
    case None => Ok(Unknown)
    case Some(v) => Checked(v, ParseCode(v))
  }

  function CodeOnly(code: Code): AxisAssessment {
    AxisAssessment(code, NoProof, [], [])
  }

  function SixCodes(c: Code, s: Code, i: Code, v: Code, f: Code, h: Code): map<Axis, AxisAssessment> {
    map[Content := CodeOnly(c), Structure := CodeOnly(s), Integration := CodeOnly(i),
        Verification := CodeOnly(v), Freshness := CodeOnly(f), Coherence := CodeOnly(h)]
  }

  function ParseGreen(fields: seq<Pair>): Result<(Id, Assessment), FieldError> {
    var target :- NeedUuid(fields, "target");
    var c :- OptCode(fields, AxisLetter(Content));
    var s :- OptCode(fields, AxisLetter(Structure));
    var i :- OptCode(fields, AxisLetter(Integration));
    var v :- OptCode(fields, AxisLetter(Verification));
    var f :- OptCode(fields, AxisLetter(Freshness));
    var h :- OptCode(fields, AxisLetter(Coherence));
    var overall :- OptCode(fields, "overall");
    Ok((target, Assessment(overall, SixCodes(c, s, i, v, f, h), "")))
  }

  /** An assessment's overall code and its six axis codes. */
  function CodesOf(g: Assessment): Assessment {
    Assessment(g.overall,
               SixCodes(CodeOn(g, Content), CodeOn(g, Structure), CodeOn(g, Integration),
                        CodeOn(g, Verification), CodeOn(g, Freshness), CodeOn(g, Coherence)), "")
  }

  lemma GreenKeys(target: Id, g: Assessment)
    ensures GoodKeys(GreenSlots(target, g))
  {
    hide UuidText, CodeAtom, CodeOn;
  }

  lemma GreenSlotsMade(target: Id, g: Assessment)
    ensures WellMade(GreenSlots(target, g))
  {
    hide Bare, Good, UuidText, CodeAtom, GoodKeys, AxisLetter, ParseCode, CodeOn;
    var s := GreenSlots(target, g);
    GreenKeys(target, g);
    UuidTextIsBare(target);
    AtomGood(s[0].item);
    AxisGood(g, Content);
    AxisGood(g, Structure);
    AxisGood(g, Integration);
    AxisGood(g, Verification);
    AxisGood(g, Freshness);
    AxisGood(g, Coherence);
    CodeRoundTrip(g.overall);
    AtomGood(s[7].item);
  }

  lemma AxisGood(g: Assessment, axis: Axis)
    ensures Good(AxisSlot(g, axis).item)
  {
    hide Bare, Good, CodeAtom, AxisLetter, ParseCode, CodeOn;
    CodeRoundTrip(CodeOn(g, axis));
    AtomGood(AxisSlot(g, axis).item);
  }

  lemma GreenFields(target: Id, g: Assessment)
    ensures var f := PairsOf(Items(GreenSlots(target, g)));
            && Get(f, "target") == Some(UuidText(target)) && Get(f, "overall") == Some(CodeAtom(g.overall))
            && Get(f, AxisLetter(Content)) == Some(CodeAtom(CodeOn(g, Content)))
            && Get(f, AxisLetter(Structure)) == Some(CodeAtom(CodeOn(g, Structure)))
            && Get(f, AxisLetter(Integration)) == Some(CodeAtom(CodeOn(g, Integration)))
            && Get(f, AxisLetter(Verification)) == Some(CodeAtom(CodeOn(g, Verification)))
            && Get(f, AxisLetter(Freshness)) == Some(CodeAtom(CodeOn(g, Freshness)))
            && Get(f, AxisLetter(Coherence)) == Some(CodeAtom(CodeOn(g, Coherence)))
  {
    hide Items, Get, UuidText, CodeAtom, AxisLetter, CodeOn, DistinctSlots, Bare;
    var s := GreenSlots(target, g);
    GreenKeys(target, g);
    GetSlot(s, 0);
    GetSlot(s, 1);
    GetSlot(s, 2);
    GetSlot(s, 3);
    GetSlot(s, 4);
    GetSlot(s, 5);
    GetSlot(s, 6);
    GetSlot(s, 7);
  }

  lemma GreenRoundTrip(target: Id, g: Assessment)
    ensures ParseGreen(PairsOf(Items(GreenSlots(target, g)))) == Ok((target, CodesOf(g)))
  {
    hide Items, Get, UuidText, CodeAtom, AxisLetter, CodeOn, ParseUuid, ParseCode, GreenSlots, SixCodes, Bare;
    GreenFields(target, g);
    UuidRoundTrip(target);
    CodeRoundTrip(g.overall);
    CodeRoundTrip(CodeOn(g, Content));
    CodeRoundTrip(CodeOn(g, Structure));
    CodeRoundTrip(CodeOn(g, Integration));
    CodeRoundTrip(CodeOn(g, Verification));
    CodeRoundTrip(CodeOn(g, Freshness));
    CodeRoundTrip(CodeOn(g, Coherence));
  }

  // ---- Sockets ----

  function SocketSlots(s: Socket): seq<Slot> {
    [Present(AtomItem("id", UuidText(s.id))),
     Present(AtomItem("entity", UuidText(s.owner))),
     Present(AtomItem("dir", DirectionAtom(s.direction))),
     Present(TextItem("shape", s.shape.hash)),
     Present(TextItem("name", s.shape.name)),
     Present(TextItem("signature", s.shape.signature)),
     Present(TextItem("version", s.shape.version)),
     Present(AtomItem("optional", FlagAtom(s.optional))),
     Present(TextItem("source", s.sourceId)),
     Present(AtomItem("confidence", s.confidence))]
  }

  function SocketLine(s: Socket): string {
    Line("@socket", Items(SocketSlots(s)))
  }

  function ParseSocket(fields: seq<Pair>): Result<Socket, FieldError> {
    var id :- NeedUuid(fields, "id");
    var owner :- NeedUuid(fields, "entity");
    var d :- Need(fields, "dir");
    var direction :- Checked(d, ParseDirection(d));
    var hash :- Need(fields, "shape");
    var name :- Need(fields, "name");
    var signature :- Need(fields, "signature");
    var version :- Need(fields, "version");
    var o :- Need(fields, "optional");
    var optional :- Checked(o, ParseFlag(o));
    var sourceId :- Need(fields, "source");
    var c :- Need(fields, "confidence");
    var confidence :- Confident(c);
    Ok(Socket(id, owner, direction, Shape(name, signature, version, hash), optional, Unresolved, sourceId, confidence))
  }

  lemma SocketKeys(s: Socket)
    ensures GoodKeys(SocketSlots(s))
  {
    hide UuidText, DirectionAtom, FlagAtom, Field;
  }

  lemma SocketSlotsMade(s: Socket)
    requires Bare(s.confidence)
    ensures WellMade(SocketSlots(s))
  {
    hide Bare, Good, UuidText, DirectionAtom, FlagAtom, ParseDirection, ParseFlag, GoodKeys, Field;
    var slots := SocketSlots(s);
    SocketKeys(s);
    UuidTextIsBare(s.id);
    UuidTextIsBare(s.owner);
    DirectionRoundTrip(s.direction);
    FlagRoundTrip(s.optional);
    AtomGood(slots[0].item);
    AtomGood(slots[1].item);
    AtomGood(slots[2].item);
    TextGood(slots[3].item);
    TextGood(slots[4].item);
    TextGood(slots[5].item);
    TextGood(slots[6].item);
    AtomGood(slots[7].item);
    TextGood(slots[8].item);
    AtomGood(slots[9].item);
  }

  lemma SocketFields(s: Socket)
    ensures var f := PairsOf(Items(SocketSlots(s)));
            && Get(f, "id") == Some(UuidText(s.id)) && Get(f, "entity") == Some(UuidText(s.owner))
            && Get(f, "dir") == Some(DirectionAtom(s.direction)) && Get(f, "shape") == Some(s.shape.hash)
            && Get(f, "name") == Some(s.shape.name) && Get(f, "signature") == Some(s.shape.signature)
            && Get(f, "version") == Some(s.shape.version) && Get(f, "optional") == Some(FlagAtom(s.optional))
            && Get(f, "source") == Some(s.sourceId) && Get(f, "confidence") == Some(s.confidence)
  {
    hide Items, Get, UuidText, DirectionAtom, FlagAtom, Field, DistinctSlots, Bare;
    var slots := SocketSlots(s);
    SocketKeys(s);
    GetSlot(slots, 0);
    GetSlot(slots, 1);
    GetSlot(slots, 2);
    GetSlot(slots, 3);
    GetSlot(slots, 4);
    GetSlot(slots, 5);
    GetSlot(slots, 6);
    GetSlot(slots, 7);
    GetSlot(slots, 8);
    GetSlot(slots, 9);
  }

  lemma SocketRoundTrip(s: Socket)
    requires Bare(s.confidence)
    ensures ParseSocket(PairsOf(Items(SocketSlots(s)))) == Ok(s.(resolution := Unresolved))
  {
    hide Items, Get, UuidText, DirectionAtom, FlagAtom, ParseDirection, ParseFlag, ParseUuid, SocketSlots, Bare;
    SocketFields(s);
    UuidRoundTrip(s.id);
    UuidRoundTrip(s.owner);
    DirectionRoundTrip(s.direction);
    FlagRoundTrip(s.optional);
  }

  // ---- Resolutions ----

  function FitSlots(socket: Id, fit: Resolution): seq<Slot>
    requires fit.Fit?
  {
    [Present(AtomItem("require", UuidText(socket))),
     Present(AtomItem("provide", UuidText(fit.provider))),
     Present(AtomItem("basis", BasisAtom(fit.basis))),
     Present(AtomItem("status", StatusAtom(fit.status))),
     Present(AtomItem("checked_by", CheckedByAtom(fit.checkedBy))),
     Present(AtomItem("proof_path", ProofPathAtom(fit.proofPath))),
     Present(AtomItem("plane", FitPlaneAtom(fit.plane))),
     Present(AtomItem("confidence", fit.confidence))]
  }

  function FitLine(socket: Id, fit: Resolution): string
    requires fit.Fit?
  {
    Line("@fit", Items(FitSlots(socket, fit)))
  }

  function ParseFit(fields: seq<Pair>): Result<(Id, Resolution), FieldError> {
    var socket :- NeedUuid(fields, "require");
    var checker := Or(Get(fields, "checked_by"), "none");
    var checkedBy :- Checked(checker, ParseCheckedBy(checker));
    var provider :- NeedUuid(fields, "provide");
    var b :- Need(fields, "basis");
    var basis :- Checked(b, ParseBasis(b));
    var s :- Need(fields, "status");
    var status :- Checked(s, ParseStatus(s));
    var p :- Need(fields, "proof_path");
    var proofPath :- Checked(p, ParseProofPath(p));
    var l :- Need(fields, "plane");
    var plane :- Checked(l, ParseFitPlane(l));
    var c :- Need(fields, "confidence");
    var confidence :- Confident(c);
    Ok((socket, Fit(provider, basis, status, checkedBy, proofPath, plane, confidence)))
  }

  lemma FitKeys(socket: Id, fit: Resolution)
    requires fit.Fit?
    ensures GoodKeys(FitSlots(socket, fit))
  {
    hide UuidText, BasisAtom, StatusAtom, CheckedByAtom, ProofPathAtom, FitPlaneAtom;
  }

  lemma FitSlotsMade(socket: Id, fit: Resolution)
    requires fit.Fit? && Bare(fit.confidence)
    ensures WellMade(FitSlots(socket, fit))
  {
    hide Bare, Good, UuidText, BasisAtom, StatusAtom, CheckedByAtom, ProofPathAtom, FitPlaneAtom, ParseBasis, ParseStatus,
         ParseCheckedBy, ParseProofPath, ParseFitPlane, GoodKeys;
    var s := FitSlots(socket, fit);
    FitKeys(socket, fit);
    UuidTextIsBare(socket);
    UuidTextIsBare(fit.provider);
    BasisRoundTrip(fit.basis);
    StatusRoundTrip(fit.status);
    CheckedByRoundTrip(fit.checkedBy);
    ProofPathRoundTrip(fit.proofPath);
    FitPlaneRoundTrip(fit.plane);
    AtomGood(s[0].item);
    AtomGood(s[1].item);
    AtomGood(s[2].item);
    AtomGood(s[3].item);
    AtomGood(s[4].item);
    AtomGood(s[5].item);
    AtomGood(s[6].item);
    AtomGood(s[7].item);
  }

  lemma FitFields(socket: Id, fit: Resolution)
    requires fit.Fit?
    ensures var f := PairsOf(Items(FitSlots(socket, fit)));
            && Get(f, "require") == Some(UuidText(socket)) && Get(f, "provide") == Some(UuidText(fit.provider))
            && Get(f, "basis") == Some(BasisAtom(fit.basis)) && Get(f, "status") == Some(StatusAtom(fit.status))
            && Get(f, "checked_by") == Some(CheckedByAtom(fit.checkedBy))
            && Get(f, "proof_path") == Some(ProofPathAtom(fit.proofPath))
            && Get(f, "plane") == Some(FitPlaneAtom(fit.plane)) && Get(f, "confidence") == Some(fit.confidence)
  {
    hide Items, Get, UuidText, BasisAtom, StatusAtom, CheckedByAtom, ProofPathAtom, FitPlaneAtom, DistinctSlots, Bare;
    var s := FitSlots(socket, fit);
    FitKeys(socket, fit);
    GetSlot(s, 0);
    GetSlot(s, 1);
    GetSlot(s, 2);
    GetSlot(s, 3);
    GetSlot(s, 4);
    GetSlot(s, 5);
    GetSlot(s, 6);
    GetSlot(s, 7);
  }

  lemma FitRoundTrip(socket: Id, fit: Resolution)
    requires fit.Fit? && Bare(fit.confidence)
    ensures ParseFit(PairsOf(Items(FitSlots(socket, fit)))) == Ok((socket, fit))
  {
    hide Items, Get, UuidText, BasisAtom, StatusAtom, CheckedByAtom, ProofPathAtom, FitPlaneAtom, ParseBasis, ParseStatus,
         ParseCheckedBy, ParseProofPath, ParseFitPlane, ParseUuid, FitSlots, Bare;
    FitFields(socket, fit);
    UuidRoundTrip(socket);
    UuidRoundTrip(fit.provider);
    BasisRoundTrip(fit.basis);
    StatusRoundTrip(fit.status);
    CheckedByRoundTrip(fit.checkedBy);
    ProofPathRoundTrip(fit.proofPath);
    FitPlaneRoundTrip(fit.plane);
  }

  function HoleSlots(s: Socket): seq<Slot>
    requires s.resolution.Hole?
  {
    [Present(AtomItem("socket", UuidText(s.id))),
     Present(TextItem("want", s.shape.hash)),
     Present(AtomItem("reason", ReasonAtom(s.resolution.reason))),
     Present(AtomItem("candidates", IdArray(s.resolution.candidates))),
     Present(AtomItem("adapter_target", FlagAtom(s.resolution.adapterTarget)))]
  }

  function HoleLine(s: Socket): string
    requires s.resolution.Hole?
  {
    Line("@hole", Items(HoleSlots(s)))
  }

  function ParseHole(fields: seq<Pair>): Result<(Id, Resolution), FieldError> {
    var socket :- NeedUuid(fields, "socket");
    var candidates :- OptIds(fields, "candidates");
    var r :- Need(fields, "reason");
    var reason :- Checked(r, ParseReason(r));
    var a :- Need(fields, "adapter_target");
    var adapterTarget :- Checked(a, ParseFlag(a));
    Ok((socket, Hole(reason, candidates, adapterTarget)))
  }

  lemma HoleKeys(s: Socket)
    requires s.resolution.Hole?
    ensures GoodKeys(HoleSlots(s))
  {
    hide UuidText, ReasonAtom, IdArray, FlagAtom, Field;
  }

  lemma HoleSlotsMade(s: Socket)
    requires s.resolution.Hole?
    ensures WellMade(HoleSlots(s))
  {
    hide Bare, Good, UuidText, ReasonAtom, IdArray, FlagAtom, Field, ParseReason, ParseFlag, GoodKeys;
    var slots := HoleSlots(s);
    HoleKeys(s);
    UuidTextIsBare(s.id);
    ReasonRoundTrip(s.resolution.reason);
    FlagRoundTrip(s.resolution.adapterTarget);
    AtomGood(slots[0].item);
    TextGood(slots[1].item);
    AtomGood(slots[2].item);
    ArrayGood(slots[3].item, s.resolution.candidates);
    AtomGood(slots[4].item);
  }

  lemma HoleFields(s: Socket)
    requires s.resolution.Hole?
    ensures var f := PairsOf(Items(HoleSlots(s)));
            && Get(f, "socket") == Some(UuidText(s.id)) && Get(f, "reason") == Some(ReasonAtom(s.resolution.reason))
            && Get(f, "candidates") == Some(IdArray(s.resolution.candidates))
            && Get(f, "adapter_target") == Some(FlagAtom(s.resolution.adapterTarget))
  {
    hide Items, Get, UuidText, ReasonAtom, IdArray, FlagAtom, Field, DistinctSlots, Bare;
    var slots := HoleSlots(s);
    HoleKeys(s);
    GetSlot(slots, 0);
    GetSlot(slots, 2);
    GetSlot(slots, 3);
    GetSlot(slots, 4);
  }

  lemma HoleRoundTrip(s: Socket)
    requires s.resolution.Hole?
    ensures ParseHole(PairsOf(Items(HoleSlots(s)))) == Ok((s.id, s.resolution))
  {
    hide Items, Get, UuidText, ReasonAtom, IdArray, FlagAtom, ParseReason, ParseFlag, ParseUuid, ParseIdArray,
      HoleSlots, Bare;
    HoleFields(s);
    UuidRoundTrip(s.id);
    IdArrayRoundTrip(s.resolution.candidates);
    ReasonRoundTrip(s.resolution.reason);
    FlagRoundTrip(s.resolution.adapterTarget);
  }
}
