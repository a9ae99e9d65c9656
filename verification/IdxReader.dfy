/** `decode_atlas_idx`: the record loop, then the passes that attach Green, evidence, resolutions
    and sockets to their owners. */
module IdxReader {
  import opened Atlas
  import opened IdxText
  import opened IdxAtoms
  import opened IdxRecords
  import opened IdxFile
  import opened IdxEntries
  import opened IdxEvidence
  import opened IdxOthers
  import opened IdxWriter

  datatype DecodeError = BadText(text: TextError) | BadField(field: FieldError) | BadTimestamp(token: string)

  /** What the record loop has collected. */
  datatype Draft = Draft(
    id: Option<string>, timestamp: string, entities: seq<Entity>, entityAt: map<Id, int>, edges: seq<Edge>,
    evidence: map<Id, seq<Evidence>>, greens: map<Id, Assessment>, sockets: seq<Socket>, socketAt: map<Id, int>,
    fits: map<Id, Resolution>, holes: map<Id, Resolution>, unread: seq<string>)

  const BLANK := Draft(None, "", [], map[], [], map[], map[], [], map[], map[], map[], [])

  // ---- One line ----

  predicate Starts(line: string, prefix: string) {
    |prefix| <= |line| && line[..|prefix|] == prefix
  }

  function Lifted<T>(r: Result<T, FieldError>): Result<T, DecodeError> {
    match r
    case Err(e) => Err(BadField(e))
    case Ok(x) => Ok(x)
  }

  function AddEntity(d: Draft, e: Entity): Draft {
    d.(entityAt := d.entityAt[e.id := |d.entities|], entities := d.entities + [e])
  }

  function AddSocket(d: Draft, s: Socket): Draft {
    d.(socketAt := d.socketAt[s.id := |d.sockets|], sockets := d.sockets + [s])
  }

  function HeldFor(evidence: map<Id, seq<Evidence>>, id: Id): seq<Evidence> {
    if id in evidence then evidence[id] else []
  }

  /** Any target that is an id is taken for an entity's, whatever it is. */
  function AddEvidence(d: Draft, target: string, e: Evidence): Draft {
    match ParseUuid(target)
    case None => d
    case Some(id) => d.(evidence := d.evidence[id := HeldFor(d.evidence, id) + [e]])
  }

  datatype Tag = EntityTag | EdgeTag | GreenTag | SocketTag | FitTag | HoleTag | EvidenceTag | OtherTag

  function TagOf(tag: string): Tag {
    if tag == "@entity" then EntityTag
    else if tag == "@edge" then EdgeTag
    else if tag == "@green" then GreenTag
    else if tag == "@socket" then SocketTag
    else if tag == "@fit" then FitTag
    else if tag == "@hole" then HoleTag
    else if tag == "@evidence" then EvidenceTag
    else OtherTag
  }

  /** Records that leave entities, edges and sockets alone are only checked. */
  function AbsorbRecord(d: Draft, line: string, r: Record): Result<Draft, DecodeError> {
    match TagOf(r.tag)
    case EntityTag =>
      var e :- Lifted(ParseEntity(r.fields));
      Ok(AddEntity(d, e))
    case EdgeTag =>
      var e :- Lifted(ParseEdge(r.fields));
      Ok(d.(edges := d.edges + [e]))
    case GreenTag =>
      var g :- Lifted(ParseGreen(r.fields));
      Ok(d.(greens := d.greens[g.0 := g.1]))
    case SocketTag =>
      var s :- Lifted(ParseSocket(r.fields));
      Ok(AddSocket(d, s))
    case FitTag =>
      var f :- Lifted(ParseFit(r.fields));
      Ok(d.(fits := d.fits[f.0 := f.1]))
    case HoleTag =>
      var h :- Lifted(ParseHole(r.fields));
      Ok(d.(holes := d.holes[h.0 := h.1]))
    case EvidenceTag =>
      var v :- Lifted(ParseEvidence(r.fields));
      Ok(AddEvidence(d, v.0, v.1))
    case OtherTag =>
      var _ :- Lifted(CheckOther(r.tag, r.fields));
      Ok(d.(unread := d.unread + [line]))
  }

  function Parsed(line: string): Result<Record, DecodeError> {
    match ParseLine(line)
    case Err(e) => Err(BadText(e))
    case Ok(r) => Ok(r)
  }

  /** The positional timestamp after `@generated`. */
  function TimestampOf(line: string): Result<string, DecodeError>
    requires |line| >= 10
  {
    match SplitFirst(TrimStart(line[10..]))
    case Err(e) => Err(BadText(e))
    case Ok((token, rest)) =>
      match ValueOf(token)
      case None => Err(BadTimestamp(token))
      case Some(v) => Ok(v)
  }

  function Absorb(d: Draft, line: string): Result<Draft, DecodeError> {
    if Starts(line, "@creature-context") then
      var r :- Parsed(line);
      Ok(if Get(r.fields, "snapshot").Some? then d.(id := Get(r.fields, "snapshot")) else d)
    else if Starts(line, "@generated") then
      var t :- TimestampOf(line);
      Ok(d.(timestamp := t))
    else if Starts(line, "@legend") then Ok(d)
    else
      var r :- Parsed(line);
      AbsorbRecord(d, line, r)
  }

  function AbsorbAll(d: Draft, lines: seq<string>): Result<Draft, DecodeError> {
    if lines == [] then Ok(d)
    else
      var before :- AbsorbAll(d, lines[..|lines| - 1]);
      Absorb(before, lines[|lines| - 1])
  }

  // ---- Attaching ----

  /** Every listed position holds an entity of that id. */
  ghost predicate EntityIndex(at: map<Id, int>, entities: seq<Entity>) {
    forall id :: id in at ==> 0 <= at[id] < |entities| && entities[at[id]].id == id
  }

  ghost predicate SocketIndex(at: map<Id, int>, sockets: seq<Socket>) {
    forall id :: id in at ==> 0 <= at[id] < |sockets| && sockets[at[id]].id == id
  }

  predicate Listed(at: map<Id, int>, id: Id, i: int) {
    id in at && at[id] == i
  }

  function WithGreen(entities: seq<Entity>, greens: map<Id, Assessment>, at: map<Id, int>): (r: seq<Entity>)
    ensures |r| == |entities|
  {
    seq(|entities|, i requires 0 <= i < |entities| =>
      if entities[i].id in greens && Listed(at, entities[i].id, i) then entities[i].(green := Some(greens[entities[i].id]))
      else entities[i])
  }

  function WithEvidence(entities: seq<Entity>, evidence: map<Id, seq<Evidence>>, at: map<Id, int>): (r: seq<Entity>)
    ensures |r| == |entities|
  {
    seq(|entities|, i requires 0 <= i < |entities| =>
      if entities[i].id in evidence && Listed(at, entities[i].id, i) then entities[i].(evidence := evidence[entities[i].id])
      else entities[i])
  }

  function WithResolutions(sockets: seq<Socket>, resolutions: map<Id, Resolution>, at: map<Id, int>): (r: seq<Socket>)
    ensures |r| == |sockets|
  {
    seq(|sockets|, i requires 0 <= i < |sockets| =>
      if sockets[i].id in resolutions && Listed(at, sockets[i].id, i)
      then sockets[i].(resolution := resolutions[sockets[i].id]) else sockets[i])
  }

  /** The sockets whose owner is listed at `i`, in order. */
  function Owned(sockets: seq<Socket>, at: map<Id, int>, i: int): seq<Socket> {
    if sockets == [] then []
    else
      var last := sockets[|sockets| - 1];
      Owned(sockets[..|sockets| - 1], at, i) + (if Listed(at, last.owner, i) then [last] else [])
  }

  function WithSockets(entities: seq<Entity>, sockets: seq<Socket>, at: map<Id, int>): (r: seq<Entity>)
    ensures |r| == |entities|
  {
    seq(|entities|, i requires 0 <= i < |entities| => entities[i].(sockets := entities[i].sockets + Owned(sockets, at, i)))
  }

  function Stamped(entities: seq<Entity>, id: string): (r: seq<Entity>)
    ensures |r| == |entities|
  {
    seq(|entities|, i requires 0 <= i < |entities| => entities[i].(snapshot := id))
  }

  /** What a finished record loop means. */
  function Finished(d: Draft): Snap {
    var id := Or(d.id, "");
    var sockets := WithResolutions(WithResolutions(d.sockets, d.fits, d.socketAt), d.holes, d.socketAt);
    var assessed := WithEvidence(WithGreen(d.entities, d.greens, d.entityAt), d.evidence, d.entityAt);
    var entities := WithSockets(assessed, sockets, d.entityAt);
    Snap(id, d.timestamp, Stamped(entities, id), d.edges)
  }

  function Decoded(text: string): Result<Snap, DecodeError> {
    var d :- AbsorbAll(BLANK, RecordLines(text));
    Ok(Finished(d))
  }

  // ---- The decoder ----

  /** Green assessments go to their entities in whatever order the map yields them. */
  method AttachGreen(entities: seq<Entity>, greens: map<Id, Assessment>, at: map<Id, int>) returns (r: seq<Entity>)
    requires EntityIndex(at, entities)
    ensures r == WithGreen(entities, greens, at)
  {
    r := entities;
    var left := greens.Keys;
    while left != {}
      invariant left <= greens.Keys && |r| == |entities|
      invariant forall i :: 0 <= i < |entities| ==>
                  r[i] == if entities[i].id in greens && entities[i].id !in left && Listed(at, entities[i].id, i)
                          then entities[i].(green := Some(greens[entities[i].id])) else entities[i]
    {
      var id :| id in left;
      left := left - {id};
      if id in at {
        r := r[at[id] := r[at[id]].(green := Some(greens[id]))];
      }
    }
  }

  method AttachEvidence(entities: seq<Entity>, evidence: map<Id, seq<Evidence>>, at: map<Id, int>) returns (r: seq<Entity>)
    requires EntityIndex(at, entities)
    ensures r == WithEvidence(entities, evidence, at)
  {
    r := entities;
    var left := evidence.Keys;
    while left != {}
      invariant left <= evidence.Keys && |r| == |entities|
      invariant forall i :: 0 <= i < |entities| ==>
                  r[i] == if entities[i].id in evidence && entities[i].id !in left && Listed(at, entities[i].id, i)
                          then entities[i].(evidence := evidence[entities[i].id]) else entities[i]
    {
      var id :| id in left;
      left := left - {id};
      if id in at {
        r := r[at[id] := r[at[id]].(evidence := evidence[id])];
      }
    }
  }

  method AttachResolutions(sockets: seq<Socket>, resolutions: map<Id, Resolution>, at: map<Id, int>) returns (r: seq<Socket>)
    requires SocketIndex(at, sockets)
    ensures r == WithResolutions(sockets, resolutions, at)
  {
    r := sockets;
    var left := resolutions.Keys;
    while left != {}
      invariant left <= resolutions.Keys && |r| == |sockets|
      invariant forall i :: 0 <= i < |sockets| ==>
                  r[i] == if sockets[i].id in resolutions && sockets[i].id !in left && Listed(at, sockets[i].id, i)
                          then sockets[i].(resolution := resolutions[sockets[i].id]) else sockets[i]
    {
      var id :| id in left;
      left := left - {id};
      if id in at {
        r := r[at[id] := r[at[id]].(resolution := resolutions[id])];
      }
    }
  }

  lemma OwnedStep(sockets: seq<Socket>, at: map<Id, int>, i: int, k: nat)
    requires k < |sockets|
    ensures Owned(sockets[..k + 1], at, i) ==
            Owned(sockets[..k], at, i) + (if Listed(at, sockets[k].owner, i) then [sockets[k]] else [])
  {
    assert sockets[..k + 1][..k] == sockets[..k];
  }

  method AttachSockets(entities: seq<Entity>, sockets: seq<Socket>, at: map<Id, int>) returns (r: seq<Entity>)
    requires EntityIndex(at, entities)
    ensures r == WithSockets(entities, sockets, at)
  {
    r := entities;
    assert sockets[..|sockets|] == sockets;
    hide Owned;
    NoneOwned(entities, sockets, at);
    for k := 0 to |sockets|
      invariant r == WithSockets(entities, sockets[..k], at)
    {
      AttachOne(entities, sockets, at, k);
      var socket := sockets[k];
      if socket.owner in at {
        var i := at[socket.owner];
        r := r[i := r[i].(sockets := r[i].sockets + [socket])];
      }
    }
  }

  lemma NoneOwned(entities: seq<Entity>, sockets: seq<Socket>, at: map<Id, int>)
    ensures WithSockets(entities, sockets[..0], at) == entities
  {
    forall i | 0 <= i < |entities| ensures entities[i].(sockets := entities[i].sockets + Owned([], at, i)) == entities[i] {
      assert entities[i].sockets + [] == entities[i].sockets;
    }
    assert sockets[..0] == [];
  }

  lemma AttachOne(entities: seq<Entity>, sockets: seq<Socket>, at: map<Id, int>, k: nat)
    requires EntityIndex(at, entities) && k < |sockets|
    ensures var r, s := WithSockets(entities, sockets[..k], at), sockets[k];
            WithSockets(entities, sockets[..k + 1], at) ==
            if s.owner in at then r[at[s.owner] := r[at[s.owner]].(sockets := r[at[s.owner]].sockets + [s])] else r
  {
    hide Owned;
    var s := sockets[k];
    var before, after := WithSockets(entities, sockets[..k], at), WithSockets(entities, sockets[..k + 1], at);
    forall i | 0 <= i < |entities|
      ensures after[i] == if Listed(at, s.owner, i) then before[i].(sockets := before[i].sockets + [s]) else before[i]
    {
      OwnedStep(sockets, at, i, k);
      var own := Owned(sockets[..k], at, i);
      assert own + [] == own;
      AppendSocket(entities[i].sockets, own, s);
    }
  }

  lemma AppendSocket(a: seq<Socket>, b: seq<Socket>, s: Socket)
    ensures a + (b + [s]) == a + b + [s]
  {
  }

  // ---- The whole decoder ----

  ghost predicate Indexed(d: Draft) {
    EntityIndex(d.entityAt, d.entities) && SocketIndex(d.socketAt, d.sockets)
  }

  lemma AddEntityKeepsIndex(d: Draft, e: Entity)
    requires Indexed(d)
    ensures Indexed(AddEntity(d, e))
  {
  }

  lemma AddSocketKeepsIndex(d: Draft, s: Socket)
    requires Indexed(d)
    ensures Indexed(AddSocket(d, s))
  {
  }

  lemma EvidenceKeepsTables(d: Draft, target: string, e: Evidence)
    ensures var t := AddEvidence(d, target, e);
            t.entities == d.entities && t.entityAt == d.entityAt && t.sockets == d.sockets && t.socketAt == d.socketAt
  {
    hide ParseUuid, HeldFor;
  }

  lemma SameTables(d: Draft, t: Draft)
    requires Indexed(d) && t.entities == d.entities && t.entityAt == d.entityAt && t.sockets == d.sockets
    requires t.socketAt == d.socketAt
    ensures Indexed(t)
  {
  }

  lemma RecordKeepsIndex(d: Draft, line: string, r: Record)
    requires Indexed(d) && AbsorbRecord(d, line, r).Ok?
    ensures Indexed(AbsorbRecord(d, line, r).value)
  {
    hide TagOf, ParseEntity, ParseEdge, ParseGreen, ParseSocket, ParseFit, ParseHole, ParseEvidence, CheckOther, Indexed, AddEntity,
      AddSocket, AddEvidence;
    match TagOf(r.tag)
    case EntityTag => AddEntityKeepsIndex(d, ParseEntity(r.fields).value);
    case SocketTag => AddSocketKeepsIndex(d, ParseSocket(r.fields).value);
    case EvidenceTag =>
      var v := ParseEvidence(r.fields).value;
      EvidenceKeepsTables(d, v.0, v.1);
      SameTables(d, AddEvidence(d, v.0, v.1));
    case _ => SameTables(d, AbsorbRecord(d, line, r).value);
  }

  lemma AbsorbKeepsIndex(d: Draft, line: string)
    requires Indexed(d) && Absorb(d, line).Ok?
    ensures Indexed(Absorb(d, line).value)
  {
    hide Parsed, AbsorbRecord, TimestampOf, Get;
    if !Starts(line, "@creature-context") && !Starts(line, "@generated") && !Starts(line, "@legend") {
      RecordKeepsIndex(d, line, Parsed(line).value);
    }
  }

  lemma AbsorbStep(d: Draft, lines: seq<string>, k: nat)
    requires k < |lines| && AbsorbAll(d, Kept(lines[..k])).Ok?
    ensures var line := Trimmed(lines[k]);
            && (line == "" ==> AbsorbAll(d, Kept(lines[..k + 1])) == AbsorbAll(d, Kept(lines[..k])))
            && (line != "" ==> AbsorbAll(d, Kept(lines[..k + 1])) == Absorb(AbsorbAll(d, Kept(lines[..k])).value, line))
  {
    hide Absorb, Trimmed;
    var line, kept := Trimmed(lines[k]), Kept(lines[..k]);
    assert lines[..k + 1][..k] == lines[..k];
    assert kept + [] == kept && (kept + [line])[..|kept|] == kept;
  }

  lemma {:induction false} FailureStays(d: Draft, lines: seq<string>, k: nat)
    requires k <= |lines| && AbsorbAll(d, Kept(lines[..k])).Err?
    ensures AbsorbAll(d, Kept(lines)) == Err(AbsorbAll(d, Kept(lines[..k])).error)
    decreases |lines|
  {
    hide Absorb, Trimmed, AbsorbAll, Kept;
    if k == |lines| {
      assert lines[..k] == lines;
    } else {
      var n := |lines| - 1;
      assert lines[..n][..k] == lines[..k];
      FailureStays(d, lines[..n], k);
      FailsOn(d, lines);
    }
  }

  lemma FailsOn(d: Draft, lines: seq<string>)
    requires lines != [] && AbsorbAll(d, Kept(lines[..|lines| - 1])).Err?
    ensures AbsorbAll(d, Kept(lines)) == AbsorbAll(d, Kept(lines[..|lines| - 1]))
  {
    hide Absorb, Trimmed;
    var n := |lines| - 1;
    var line, kept := Trimmed(lines[n]), Kept(lines[..n]);
    assert kept + [] == kept && (kept + [line])[..|kept|] == kept;
  }

  lemma NothingAbsorbed(d: Draft, lines: seq<string>)
    ensures AbsorbAll(d, Kept(lines[..0])) == Ok(d)
  {
  }

  lemma DecodedIs(input: string, lines: seq<string>)
    requires lines == LinesOf(Normalised(input))
    ensures AbsorbAll(BLANK, Kept(lines)).Err? ==> Decoded(input) == Err(AbsorbAll(BLANK, Kept(lines)).error)
    ensures AbsorbAll(BLANK, Kept(lines)).Ok? ==> Decoded(input) == Ok(Finished(AbsorbAll(BLANK, Kept(lines)).value))
  {
    hide AbsorbAll, Kept, LinesOf, Normalised, Finished, BLANK;
  }

  lemma BlankIsIndexed()
    ensures Indexed(BLANK)
  {
  }

  method DecodeAtlasIdx(input: string) returns (r: Result<Snap, DecodeError>)
    ensures r == Decoded(input)
  {
    hide Absorb, AbsorbAll, Kept, Trimmed, LinesOf, Normalised, Decoded, Finished, Indexed, BLANK;
    var lines := LinesOf(Normalised(input));
    DecodedIs(input, lines);
    BlankIsIndexed();
    var d := BLANK;
    assert lines[..|lines|] == lines;
    NothingAbsorbed(BLANK, lines);
    for k := 0 to |lines|
      invariant AbsorbAll(BLANK, Kept(lines[..k])) == Ok(d) && Indexed(d)
    {
      AbsorbStep(BLANK, lines, k);
      var line := Trimmed(lines[k]);
      if line == "" {
        continue;
      }
      var next := Absorb(d, line);
      if next.Err? {
        FailureStays(BLANK, lines, k + 1);
        return Err(next.error);
      }
      AbsorbKeepsIndex(d, line);
      d := next.value;
    }
    r := Attach(d);
  }

  method Attach(d: Draft) returns (r: Result<Snap, DecodeError>)
    requires Indexed(d)
    ensures r == Ok(Finished(d))
  {
    hide WithGreen, WithEvidence, WithResolutions, WithSockets, Stamped;
    var entities := AttachGreen(d.entities, d.greens, d.entityAt);
    SameEntityIds(d.entities, d.greens, d.entityAt);
    SameIdsWithEvidence(entities, d.evidence, d.entityAt);
    entities := AttachEvidence(entities, d.evidence, d.entityAt);
    var sockets := AttachResolutions(d.sockets, d.fits, d.socketAt);
    SameSocketIds(d.sockets, d.fits, d.socketAt);
    sockets := AttachResolutions(sockets, d.holes, d.socketAt);
    entities := AttachSockets(entities, sockets, d.entityAt);
    var id := Or(d.id, "");
    r := Ok(Snap(id, d.timestamp, Stamped(entities, id), d.edges));
  }

  lemma SameEntityIds(entities: seq<Entity>, greens: map<Id, Assessment>, at: map<Id, int>)
    requires EntityIndex(at, entities)
    ensures EntityIndex(at, WithGreen(entities, greens, at))
  {
  }

  lemma SameIdsWithEvidence(entities: seq<Entity>, evidence: map<Id, seq<Evidence>>, at: map<Id, int>)
    requires EntityIndex(at, entities)
    ensures EntityIndex(at, WithEvidence(entities, evidence, at))
  {
  }

  lemma SameSocketIds(sockets: seq<Socket>, resolutions: map<Id, Resolution>, at: map<Id, int>)
    requires SocketIndex(at, sockets)
    ensures SocketIndex(at, WithResolutions(sockets, resolutions, at))
  {
  }
}
