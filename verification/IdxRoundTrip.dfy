/** Decoding what was encoded: the canonically ordered snapshot, on the fields the format keeps. */
module IdxRoundTrip {
  import opened Atlas
  import opened Sorting
  import opened IdxText
  import opened IdxLines
  import opened IdxAtoms
  import opened IdxRecords
  import opened IdxFile
  import opened IdxEntries
  import opened IdxEvidence
  import opened IdxOthers
  import opened IdxWriter
  import opened IdxReader

  // ---- What the record loop collects from each block of lines ----

  function StrippedAll(entities: seq<Entity>): seq<Entity> {
    if entities == [] then [] else StrippedAll(entities[..|entities| - 1]) + [Stripped(entities[|entities| - 1])]
  }

  /** The last position of each id. */
  function IndexBy<T>(s: seq<T>, key: T -> Id): map<Id, int> {
    if s == [] then map[] else IndexBy(s[..|s| - 1], key)[key(s[|s| - 1]) := |s| - 1]
  }

  function EntityId(e: Entity): Id {
    e.id
  }

  function SocketId(s: Socket): Id {
    s.id
  }

  function StrippedEdges(edges: seq<Edge>): seq<Edge> {
    if edges == [] then [] else StrippedEdges(edges[..|edges| - 1]) + [StrippedEdge(edges[|edges| - 1])]
  }

  function GreensOf(entities: seq<Entity>): map<Id, Assessment> {
    if entities == [] then map[]
    else
      var last := entities[|entities| - 1];
      var before := GreensOf(entities[..|entities| - 1]);
      if last.green.Some? then before[last.id := CodesOf(last.green.value)] else before
  }

  function Bared(s: Socket): Socket {
    s.(resolution := Unresolved)
  }

  function BaredAll(sockets: seq<Socket>): seq<Socket> {
    if sockets == [] then [] else BaredAll(sockets[..|sockets| - 1]) + [Bared(sockets[|sockets| - 1])]
  }

  function FitsOf(sockets: seq<Socket>): map<Id, Resolution> {
    if sockets == [] then map[]
    else
      var last := sockets[|sockets| - 1];
      var before := FitsOf(sockets[..|sockets| - 1]);
      if last.resolution.Fit? then before[last.id := last.resolution] else before
  }

  function HolesOf(sockets: seq<Socket>): map<Id, Resolution> {
    if sockets == [] then map[]
    else
      var last := sockets[|sockets| - 1];
      var before := HolesOf(sockets[..|sockets| - 1]);
      if last.resolution.Hole? then before[last.id := last.resolution] else before
  }

  /** The evidence read for each target, in file order. */
  function EvidenceOf(xs: seq<Exhibit>): map<Id, seq<Evidence>> {
    if xs == [] then map[]
    else
      var last := xs[|xs| - 1];
      var before := EvidenceOf(xs[..|xs| - 1]);
      before[last.target := HeldFor(before, last.target) + [Reread(last.evidence)]]
  }

  /** The confidences are spelled as single words. */
  predicate Spelled(s: Socket) {
    Bare(s.confidence) && (s.resolution.Fit? ==> Bare(s.resolution.confidence))
  }

  // ---- One line of each kind ----

  lemma NotSpecial(tag: string, items: seq<Item>)
    requires |tag| >= 3 && (tag[1] == 'c' ==> tag[2] != 'r') && tag[1] != 'l' && (tag[1] == 'g' ==> tag[2] != 'e')
    ensures var line := Line(tag, items);
            !Starts(line, "@creature-context") && !Starts(line, "@generated") && !Starts(line, "@legend")
  {
    var line := Line(tag, items);
    hide Shown;
    assert line[1] == tag[1] && line[2] == tag[2];
    assert "@creature-context"[1] == 'c' && "@creature-context"[2] == 'r' && "@legend"[1] == 'l';
    assert "@generated"[1] == 'g' && "@generated"[2] == 'e';
  }

  /** A written record line is split and handed to its record reader. */
  lemma AbsorbWritten(d: Draft, tag: string, slots: seq<Slot>)
    requires WellMade(slots) && |tag| >= 3 && tag[0] == '@' && Bare(tag[1..])
    requires (tag[1] == 'c' ==> tag[2] != 'r') && tag[1] != 'l' && (tag[1] == 'g' ==> tag[2] != 'e')
    ensures Absorb(d, Line(tag, Items(slots))) == AbsorbRecord(d, Line(tag, Items(slots)), Record(tag, PairsOf(Items(slots))))
    ensures OneLine(Line(tag, Items(slots)))
  {
    hide WellMade, Items, Starts, AbsorbRecord, ParseLine, Line, OneLine, Bare;
    WrittenLine(tag, slots);
    NotSpecial(tag, Items(slots));
  }

  lemma TagsAreBare()
    ensures Bare("@entity"[1..]) && Bare("@edge"[1..]) && Bare("@green"[1..])
    ensures Bare("@socket"[1..]) && Bare("@fit"[1..]) && Bare("@hole"[1..]) && Bare("@creature-context"[1..])
    ensures Bare("@evidence"[1..])
  {
  }

  lemma AbsorbEntity(d: Draft, e: Entity)
    ensures Absorb(d, EntityLine(e)) == Ok(AddEntity(d, Stripped(e)))
    ensures OneLine(EntityLine(e))
  {
    hide WellMade, Items, Absorb, Line, EntitySlots, ParseEntity, AddEntity, Bare, OneLine;
    TagsAreBare();
    EntitySlotsMade(e);
    EntityRoundTrip(e);
    AbsorbWritten(d, "@entity", EntitySlots(e));
  }

  lemma AbsorbEdge(d: Draft, e: Edge)
    requires Bare(e.confidence)
    ensures Absorb(d, EdgeLine(e)) == Ok(d.(edges := d.edges + [StrippedEdge(e)]))
    ensures OneLine(EdgeLine(e))
  {
    hide WellMade, Items, Absorb, Line, EdgeSlots, ParseEdge, Bare, OneLine;
    TagsAreBare();
    EdgeSlotsMade(e);
    EdgeRoundTrip(e);
    AbsorbWritten(d, "@edge", EdgeSlots(e));
  }

  lemma AbsorbGreen(d: Draft, id: Id, g: Assessment)
    ensures Absorb(d, GreenLine(id, g)) == Ok(d.(greens := d.greens[id := CodesOf(g)]))
    ensures OneLine(GreenLine(id, g))
  {
    hide WellMade, Items, Absorb, Line, GreenSlots, ParseGreen, Bare, CodesOf, OneLine;
    TagsAreBare();
    GreenSlotsMade(id, g);
    GreenRoundTrip(id, g);
    AbsorbWritten(d, "@green", GreenSlots(id, g));
  }

  lemma AbsorbSocket(d: Draft, s: Socket)
    requires Bare(s.confidence)
    ensures Absorb(d, SocketLine(s)) == Ok(AddSocket(d, Bared(s)))
    ensures OneLine(SocketLine(s))
  {
    hide WellMade, Items, Absorb, Line, SocketSlots, ParseSocket, Bare, AddSocket, OneLine;
    TagsAreBare();
    SocketSlotsMade(s);
    SocketRoundTrip(s);
    AbsorbWritten(d, "@socket", SocketSlots(s));
  }

  lemma AbsorbFit(d: Draft, id: Id, fit: Resolution)
    requires fit.Fit? && Bare(fit.confidence)
    ensures Absorb(d, FitLine(id, fit)) == Ok(d.(fits := d.fits[id := fit]))
    ensures OneLine(FitLine(id, fit))
  {
    hide WellMade, Items, Absorb, Line, FitSlots, ParseFit, Bare, OneLine;
    TagsAreBare();
    FitSlotsMade(id, fit);
    FitRoundTrip(id, fit);
    AbsorbWritten(d, "@fit", FitSlots(id, fit));
  }

  lemma AbsorbHole(d: Draft, s: Socket)
    requires s.resolution.Hole?
    ensures Absorb(d, HoleLine(s)) == Ok(d.(holes := d.holes[s.id := s.resolution]))
    ensures OneLine(HoleLine(s))
  {
    hide WellMade, Items, Absorb, Line, HoleSlots, ParseHole, Bare, OneLine;
    TagsAreBare();
    HoleSlotsMade(s);
    HoleRoundTrip(s);
    AbsorbWritten(d, "@hole", HoleSlots(s));
  }

  lemma AbsorbEvidence(d: Draft, x: Exhibit)
    requires Bare(x.evidence.origin.confidence)
    ensures Absorb(d, EvidenceLine(x)) ==
            Ok(d.(evidence := d.evidence[x.target := HeldFor(d.evidence, x.target) + [Reread(x.evidence)]]))
    ensures OneLine(EvidenceLine(x))
  {
    hide WellMade, Items, Absorb, Line, EvidenceSlots, ParseEvidence, Bare, OneLine, ParseUuid, UuidText, HeldFor;
    TagsAreBare();
    EvidenceSlotsMade(x);
    EvidenceRoundTrip(x);
    UuidRoundTrip(x.target);
    AbsorbWritten(d, "@evidence", EvidenceSlots(x));
  }

  // ---- Records that are only checked ----

  /** A line the reader checks and passes over. */
  ghost predicate Accepted(line: string) {
    && OneLine(line)
    && !Starts(line, "@creature-context") && !Starts(line, "@generated") && !Starts(line, "@legend")
    && ParseLine(line).Ok? && TagOf(ParseLine(line).value.tag) == OtherTag
    && CheckOther(ParseLine(line).value.tag, ParseLine(line).value.fields).Ok?
  }

  lemma AbsorbAccepted(d: Draft, line: string)
    requires Accepted(line)
    ensures Absorb(d, line) == Ok(d.(unread := d.unread + [line]))
  {
    hide Starts, ParseLine, TagOf, CheckOther, OneLine;
  }

  lemma {:induction false} AcceptedBlock(d: Draft, lines: seq<string>)
    requires forall l :: l in lines ==> Accepted(l)
    ensures AbsorbAll(d, lines) == Ok(d.(unread := d.unread + lines))
    ensures AllOneLine(lines)
  {
    hide Absorb, Accepted;
    if lines == [] {
      assert d.unread + [] == d.unread;
    } else {
      var n := |lines| - 1;
      AcceptedBlock(d, lines[..n]);
      AbsorbAccepted(d.(unread := d.unread + lines[..n]), lines[n]);
      AcceptedIsOneLine(lines[n]);
      assert d.unread + lines[..n] + [lines[n]] == d.unread + lines;
    }
  }

  lemma AcceptedIsOneLine(line: string)
    requires Accepted(line)
    ensures OneLine(line)
  {
    hide OneLine, Starts, ParseLine, TagOf, CheckOther;
  }

  ghost predicate AllAccepted(lines: seq<string>) {
    forall l :: l in lines ==> Accepted(l)
  }

  ghost predicate OthersAccepted(o: Others) {
    && AllAccepted(o.purposes) && AllAccepted(o.summaries) && AllAccepted(o.records)
    && AllAccepted(o.conflicts) && AllAccepted(o.sources) && AllAccepted(o.uncertainties)
  }

  // ---- The preamble ----

  lemma HeaderKeys(project: string, id: string)
    ensures GoodKeys(HeaderSlots(project, id))
  {
    hide Field;
  }

  lemma HeaderSlotsMade(project: string, id: string)
    ensures WellMade(HeaderSlots(project, id))
    ensures Get(PairsOf(Items(HeaderSlots(project, id))), "snapshot") == Some(id)
  {
    FixedAtoms();
    hide Good, GoodKeys, Field, Items, Get, Bare;
    var s := HeaderSlots(project, id);
    HeaderKeys(project, id);
    AtomGood(s[0].item);
    AtomGood(s[1].item);
    AtomGood(s[2].item);
    TextGood(s[3].item);
    TextGood(s[4].item);
    DistinctOf(s);
    GetSlot(s, 4);
  }

  lemma FixedAtoms()
    ensures Bare("1") && Bare("atlas") && Bare("galaxy")
  {
  }

  lemma DistinctOf(s: seq<Slot>)
    requires GoodKeys(s)
    ensures DistinctSlots(s)
  {
    hide Bare;
  }

  lemma HeaderStarts(tag: string, items: seq<Item>)
    ensures Starts(Line(tag, items), tag)
  {
    hide Shown;
  }

  lemma AbsorbHeader(d: Draft, project: string, id: string)
    ensures Absorb(d, HeaderLine(project, id)) == Ok(d.(id := Some(id)))
    ensures OneLine(HeaderLine(project, id))
  {
    hide WellMade, Items, Starts, ParseLine, Line, OneLine, Bare, Get, HeaderSlots;
    TagsAreBare();
    HeaderSlotsMade(project, id);
    WrittenLine("@creature-context", HeaderSlots(project, id));
    HeaderStarts("@creature-context", Items(HeaderSlots(project, id)));
  }

  lemma GeneratedLayout(t: string)
    ensures var line := GeneratedLine(t);
            && |line| >= 10 && Starts(line, "@generated") && !Starts(line, "@creature-context")
            && TrimStart(line[10..]) == Field(t) + " " + AFTER_TIMESTAMP
  {
    FieldIsSolid(t);
    hide Field, AFTER_TIMESTAMP;
    var line, rest := GeneratedLine(t), Field(t) + " " + AFTER_TIMESTAMP;
    FieldStartsInk(t);
    assert line[1] == 'g' && "@creature-context"[1] == 'c';
    assert line[10..] == " " + rest && (" " + rest)[1..] == rest;
    assert rest[0] == Field(t)[0];
  }

  lemma FieldStartsInk(t: string)
    ensures Field(t) != "" && !White(Field(t)[0])
  {
    if Bare(t) {
      assert BareChar(t[0]);
    }
  }

  lemma AbsorbGenerated(d: Draft, t: string)
    ensures Absorb(d, GeneratedLine(t)) == Ok(d.(timestamp := t))
  {
    hide Field, AFTER_TIMESTAMP, Starts, GeneratedLine, SplitFirst, TrimStart;
    GeneratedLayout(t);
    FirstTokenIsField(t, AFTER_TIMESTAMP);
    FieldIsLegible("", t);
  }

  lemma SolidAfter(a: string, b: string)
    requires Visible(a) && a != "" && Solid(b)
    ensures Solid(a + b) && Visible(a + b) && (a + b)[0] == a[0]
  {
    assert (a + b)[|a + b| - 1] == b[|b| - 1];
  }

  lemma FixedTextIsSolid()
    ensures Visible("@generated ") && Solid(AFTER_TIMESTAMP)
  {
  }

  lemma GeneratedIsOneLine(t: string)
    ensures OneLine(GeneratedLine(t))
  {
    FieldIsSolid(t);
    FixedTextIsSolid();
    hide Field, AFTER_TIMESTAMP;
    SolidAfter(" ", AFTER_TIMESTAMP);
    SolidAfter(Field(t), " " + AFTER_TIMESTAMP);
    assert Field(t) + " " + AFTER_TIMESTAMP == Field(t) + (" " + AFTER_TIMESTAMP);
    SolidAfter("@generated ", Field(t) + " " + AFTER_TIMESTAMP);
  }

  lemma AbsorbLegend(d: Draft, legend: string)
    requires Starts(legend, "@legend")
    ensures Absorb(d, legend) == Ok(d)
  {
    assert legend[..7] == "@legend" && legend[1] == 'l';
    assert "@creature-context"[1] == 'c' && "@generated"[1] == 'g';
  }

  // ---- Blocks of lines ----

  lemma AbsorbMore(d: Draft, lines: seq<string>, line: string)
    requires AbsorbAll(d, lines).Ok?
    ensures AbsorbAll(d, lines + [line]) == Absorb(AbsorbAll(d, lines).value, line)
  {
    hide Absorb;
    assert (lines + [line])[..|lines|] == lines;
  }

  lemma {:induction false} AbsorbTogether(d: Draft, a: seq<string>, b: seq<string>)
    requires AbsorbAll(d, a).Ok?
    ensures AbsorbAll(d, a + b) == AbsorbAll(AbsorbAll(d, a).value, b)
    decreases |b|
  {
    hide Absorb;
    if b == [] {
      assert a + b == a;
    } else {
      var n := |b| - 1;
      AbsorbTogether(d, a, b[..n]);
      assert (a + b)[..|a + b| - 1] == a + b[..n];
    }
  }

  lemma {:induction false} EntityBlock(d: Draft, entities: seq<Entity>)
    requires d.entities == [] && d.entityAt == map[]
    ensures AbsorbAll(d, EntityLines(entities)) == Ok(d.(entities := StrippedAll(entities), entityAt := IndexBy(entities, EntityId)))
    ensures |StrippedAll(entities)| == |entities|
    decreases |entities|
  {
    hide Absorb, EntityLine;
    if entities != [] {
      var n := |entities| - 1;
      EntityBlock(d, entities[..n]);
      AbsorbEntity(AbsorbAll(d, EntityLines(entities[..n])).value, entities[n]);
      AbsorbMore(d, EntityLines(entities[..n]), EntityLine(entities[n]));
    }
  }

  lemma {:induction false} EdgeBlock(d: Draft, edges: seq<Edge>)
    requires d.edges == [] && forall e :: e in edges ==> Bare(e.confidence)
    ensures AbsorbAll(d, EdgeLines(edges)) == Ok(d.(edges := StrippedEdges(edges)))
    decreases |edges|
  {
    hide Absorb, EdgeLine, StrippedEdge, Bare;
    if edges != [] {
      var n := |edges| - 1;
      EdgeBlock(d, edges[..n]);
      AbsorbEdge(AbsorbAll(d, EdgeLines(edges[..n])).value, edges[n]);
      AbsorbMore(d, EdgeLines(edges[..n]), EdgeLine(edges[n]));
    }
  }

  lemma {:induction false} GreenBlock(d: Draft, entities: seq<Entity>)
    requires d.greens == map[]
    ensures AbsorbAll(d, GreenLines(entities)) == Ok(d.(greens := GreensOf(entities)))
    decreases |entities|
  {
    hide Absorb, GreenLine, CodesOf;
    if entities != [] {
      var n := |entities| - 1;
      var e := entities[n];
      GreenBlock(d, entities[..n]);
      var before := GreenLines(entities[..n]);
      assert before + [] == before;
      if e.green.Some? {
        AbsorbGreen(AbsorbAll(d, before).value, e.id, e.green.value);
        AbsorbMore(d, before, GreenLine(e.id, e.green.value));
      }
    }
  }

  lemma {:induction false} SocketBlock(d: Draft, sockets: seq<Socket>)
    requires d.sockets == [] && d.socketAt == map[] && forall s :: s in sockets ==> Spelled(s)
    ensures AbsorbAll(d, SocketLines(sockets)) == Ok(d.(sockets := BaredAll(sockets), socketAt := IndexBy(sockets, SocketId)))
    ensures |BaredAll(sockets)| == |sockets|
    decreases |sockets|
  {
    hide Absorb, SocketLine, Bare;
    if sockets != [] {
      var n := |sockets| - 1;
      assert Spelled(sockets[n]);
      SocketBlock(d, sockets[..n]);
      AbsorbSocket(AbsorbAll(d, SocketLines(sockets[..n])).value, sockets[n]);
      AbsorbMore(d, SocketLines(sockets[..n]), SocketLine(sockets[n]));
    }
  }

  lemma {:induction false} FitBlock(d: Draft, sockets: seq<Socket>)
    requires d.fits == map[] && forall s :: s in sockets ==> Spelled(s)
    ensures AbsorbAll(d, FitLines(sockets)) == Ok(d.(fits := FitsOf(sockets)))
    decreases |sockets|
  {
    hide Absorb, FitLine, Bare;
    if sockets != [] {
      var n := |sockets| - 1;
      var s := sockets[n];
      assert Spelled(sockets[n]);
      FitBlock(d, sockets[..n]);
      var before := FitLines(sockets[..n]);
      assert before + [] == before;
      if s.resolution.Fit? {
        AbsorbFit(AbsorbAll(d, before).value, s.id, s.resolution);
        AbsorbMore(d, before, FitLine(s.id, s.resolution));
      }
    }
  }

  lemma {:induction false} HoleBlock(d: Draft, sockets: seq<Socket>)
    requires d.holes == map[]
    ensures AbsorbAll(d, HoleLines(sockets)) == Ok(d.(holes := HolesOf(sockets)))
    decreases |sockets|
  {
    hide Absorb, HoleLine;
    if sockets != [] {
      var n := |sockets| - 1;
      var s := sockets[n];
      HoleBlock(d, sockets[..n]);
      var before := HoleLines(sockets[..n]);
      assert before + [] == before;
      if s.resolution.Hole? {
        AbsorbHole(AbsorbAll(d, before).value, s);
        AbsorbMore(d, before, HoleLine(s));
      }
    }
  }

  lemma {:induction false} EvidenceBlock(d: Draft, xs: seq<Exhibit>)
    requires d.evidence == map[] && forall x :: x in xs ==> Bare(x.evidence.origin.confidence)
    ensures AbsorbAll(d, EvidenceLines(xs)) == Ok(d.(evidence := EvidenceOf(xs)))
    ensures AllOneLine(EvidenceLines(xs))
    decreases |xs|
  {
    hide Absorb, EvidenceLine, Bare, HeldFor, Reread, OneLine;
    if xs != [] {
      var n := |xs| - 1;
      assert xs[n] in xs;
      EvidenceBlock(d, xs[..n]);
      AbsorbEvidence(AbsorbAll(d, EvidenceLines(xs[..n])).value, xs[n]);
      AbsorbMore(d, EvidenceLines(xs[..n]), EvidenceLine(xs[n]));
    }
  }

  // ---- Every line is one line ----

  ghost predicate SpelledAll(s: Snap) {
    && (forall e :: e in Edges(s) ==> Bare(e.confidence))
    && (forall x :: x in Sockets(s) ==> Spelled(x))
    && (forall x :: x in Listing(Exhibits(s)) ==> Bare(x.evidence.origin.confidence))
  }

  ghost predicate AllOneLine(lines: seq<string>) {
    forall i :: 0 <= i < |lines| ==> OneLine(lines[i])
  }

  lemma {:induction false} EntityLinesAreOne(entities: seq<Entity>)
    ensures AllOneLine(EntityLines(entities)) && AllOneLine(GreenLines(entities))
    decreases |entities|
  {
    hide OneLine, EntityLine, GreenLine, Absorb;
    if entities != [] {
      var n := |entities| - 1;
      EntityLinesAreOne(entities[..n]);
      AbsorbEntity(BLANK, entities[n]);
      if entities[n].green.Some? {
        AbsorbGreen(BLANK, entities[n].id, entities[n].green.value);
      }
    }
  }

  lemma {:induction false} EdgeLinesAreOne(edges: seq<Edge>)
    requires forall e :: e in edges ==> Bare(e.confidence)
    ensures AllOneLine(EdgeLines(edges))
    decreases |edges|
  {
    hide OneLine, EdgeLine, Absorb, Bare;
    if edges != [] {
      var n := |edges| - 1;
      EdgeLinesAreOne(edges[..n]);
      AbsorbEdge(BLANK, edges[n]);
    }
  }

  lemma {:induction false} SocketLinesAreOne(sockets: seq<Socket>)
    requires forall s :: s in sockets ==> Spelled(s)
    ensures AllOneLine(SocketLines(sockets)) && AllOneLine(FitLines(sockets)) && AllOneLine(HoleLines(sockets))
    decreases |sockets|
  {
    hide OneLine, SocketLine, FitLine, HoleLine, Absorb, Bare;
    if sockets != [] {
      var n := |sockets| - 1;
      var s := sockets[n];
      SocketLinesAreOne(sockets[..n]);
      assert Spelled(s);
      AbsorbSocket(BLANK, s);
      if s.resolution.Fit? {
        AbsorbFit(BLANK, s.id, s.resolution);
      } else if s.resolution.Hole? {
        AbsorbHole(BLANK, s);
      }
    }
  }

  // ---- The whole record loop ----

  /** The lines only checked, in file order. */
  function OtherLines(o: Others): seq<string> {
    o.purposes + o.summaries + o.records + o.conflicts + o.sources + o.uncertainties
  }

  /** What the loop has collected at the end of the file. */
  function Collected(s: Snap, o: Others): Draft {
    Draft(Some(s.id), s.timestamp, StrippedAll(Entities(s)), IndexBy(Entities(s), EntityId), StrippedEdges(Edges(s)),
          EvidenceOf(Listing(Exhibits(s))), GreensOf(Entities(s)), BaredAll(Sockets(s)), IndexBy(Sockets(s), SocketId),
          FitsOf(Sockets(s)), HolesOf(Sockets(s)), OtherLines(o))
  }

  lemma AbsorbPreamble(s: Snap, project: string, legend: string)
    requires Starts(legend, "@legend")
    ensures AbsorbAll(BLANK, Preamble(s, project, legend)) == Ok(BLANK.(id := Some(s.id), timestamp := s.timestamp))
  {
    hide Absorb, HeaderLine, GeneratedLine, Starts;
    var d := BLANK.(id := Some(s.id));
    AbsorbHeader(BLANK, project, s.id);
    AbsorbGenerated(d, s.timestamp);
    AbsorbLegend(d.(timestamp := s.timestamp), legend);
    var h, g := HeaderLine(project, s.id), GeneratedLine(s.timestamp);
    AbsorbMore(BLANK, [], h);
    assert [] + [h] == [h] && [h] + [g] == [h, g] && [h, g] + [legend] == [h, g, legend];
    AbsorbMore(BLANK, [h], g);
    AbsorbMore(BLANK, [h, g], legend);
  }

  /** One more block: from the lines before it to the lines with it. */
  ghost predicate Read(lines: seq<string>, d: Draft) {
    AbsorbAll(BLANK, lines) == Ok(d) && AllOneLine(lines)
  }

  lemma ReadMore(lines: seq<string>, d: Draft, block: seq<string>, next: Draft)
    requires Read(lines, d) && AbsorbAll(d, block) == Ok(next) && AllOneLine(block)
    ensures Read(lines + block, next)
  {
    hide AbsorbAll, OneLine;
    AbsorbTogether(BLANK, lines, block);
  }

  lemma ReadAccepted(lines: seq<string>, d: Draft, block: seq<string>)
    requires Read(lines, d) && AllAccepted(block)
    ensures Read(lines + block, d.(unread := d.unread + block))
  {
    hide AbsorbAll, OneLine, Accepted;
    AcceptedBlock(d, block);
    ReadMore(lines, d, block, d.(unread := d.unread + block));
  }

  /** The first half of the file: up to the edges. */
  lemma ReadStructure(s: Snap, o: Others, project: string, legend: string)
    requires Starts(legend, "@legend") && OneLine(legend) && SpelledAll(s) && OthersAccepted(o)
    ensures Read(Preamble(s, project, legend) + o.purposes + EntityLines(Entities(s)) + o.summaries + EdgeLines(Edges(s)),
                 BLANK.(id := Some(s.id), timestamp := s.timestamp, unread := o.purposes + o.summaries,
                        entities := StrippedAll(Entities(s)), entityAt := IndexBy(Entities(s), EntityId),
                        edges := StrippedEdges(Edges(s))))
  {
    hide AbsorbAll, Read, Preamble, EntityLines, EdgeLines, Entities, Edges, StrippedAll, IndexBy, StrippedEdges, AllAccepted,
      AllOneLine, OneLine, Starts, Bare, Spelled, Listing, Sockets;
    ReadPreamble(s, project, legend);
    var d0 := BLANK.(id := Some(s.id), timestamp := s.timestamp);
    var l0 := Preamble(s, project, legend);
    ReadAccepted(l0, d0, o.purposes);
    assert [] + o.purposes == o.purposes;
    var d1 := d0.(unread := o.purposes);
    var l1 := l0 + o.purposes;
    EntityBlock(d1, Entities(s));
    EntityLinesAreOne(Entities(s));
    var d2 := d1.(entities := StrippedAll(Entities(s)), entityAt := IndexBy(Entities(s), EntityId));
    ReadMore(l1, d1, EntityLines(Entities(s)), d2);
    var l2 := l1 + EntityLines(Entities(s));
    ReadAccepted(l2, d2, o.summaries);
    var d3 := d2.(unread := o.purposes + o.summaries);
    EdgeBlock(d3, Edges(s));
    EdgeLinesAreOne(Edges(s));
    ReadMore(l2 + o.summaries, d3, EdgeLines(Edges(s)), d3.(edges := StrippedEdges(Edges(s))));
  }

  lemma ReadPreamble(s: Snap, project: string, legend: string)
    requires Starts(legend, "@legend") && OneLine(legend)
    ensures Read(Preamble(s, project, legend), BLANK.(id := Some(s.id), timestamp := s.timestamp))
  {
    hide OneLine, HeaderLine, GeneratedLine, AbsorbAll, Absorb, Starts;
    AbsorbPreamble(s, project, legend);
    AbsorbHeader(BLANK, project, s.id);
    GeneratedIsOneLine(s.timestamp);
  }

  /** The second half: assessments, notes and sockets. */
  lemma ReadNotes(s: Snap, o: Others, lines: seq<string>, d: Draft)
    requires SpelledAll(s) && OthersAccepted(o) && Read(lines, d)
    requires d.evidence == map[] && d.greens == map[]
    ensures Read(lines + o.records + EvidenceLines(Listing(Exhibits(s))) + GreenLines(Entities(s)) + o.conflicts + o.sources,
                 d.(unread := d.unread + o.records + o.conflicts + o.sources, evidence := EvidenceOf(Listing(Exhibits(s))),
                    greens := GreensOf(Entities(s))))
  {
    hide AbsorbAll, Read, EvidenceLines, GreenLines, Entities, Edges, AllAccepted, AllOneLine, Bare, Spelled, Listing, Exhibits,
      EvidenceOf, GreensOf, Sockets;
    ReadAccepted(lines, d, o.records);
    var d1 := d.(unread := d.unread + o.records);
    var l1 := lines + o.records;
    var xs := Listing(Exhibits(s));
    EvidenceBlock(d1, xs);
    var d2 := d1.(evidence := EvidenceOf(xs));
    ReadMore(l1, d1, EvidenceLines(xs), d2);
    var l2 := l1 + EvidenceLines(xs);
    GreenBlock(d2, Entities(s));
    EntityLinesAreOne(Entities(s));
    var d3 := d2.(greens := GreensOf(Entities(s)));
    ReadMore(l2, d2, GreenLines(Entities(s)), d3);
    var l3 := l2 + GreenLines(Entities(s));
    ReadAccepted(l3, d3, o.conflicts);
    var d4 := d3.(unread := d3.unread + o.conflicts);
    ReadAccepted(l3 + o.conflicts, d4, o.sources);
  }

  lemma ReadSockets(s: Snap, o: Others, lines: seq<string>, d: Draft)
    requires SpelledAll(s) && OthersAccepted(o) && Read(lines, d)
    requires d.sockets == [] && d.socketAt == map[] && d.fits == map[] && d.holes == map[]
    ensures Read(lines + SocketLines(Sockets(s)) + FitLines(Sockets(s)) + HoleLines(Sockets(s)) + o.uncertainties,
                 d.(unread := d.unread + o.uncertainties, sockets := BaredAll(Sockets(s)),
                    socketAt := IndexBy(Sockets(s), SocketId), fits := FitsOf(Sockets(s)), holes := HolesOf(Sockets(s))))
  {
    hide AbsorbAll, Read, SocketLines, FitLines, HoleLines, Sockets, AllAccepted, AllOneLine, Bare, Spelled, BaredAll, IndexBy,
      FitsOf, HolesOf, Edges, Listing;
    var xs := Sockets(s);
    SocketLinesAreOne(xs);
    SocketBlock(d, xs);
    var d1 := d.(sockets := BaredAll(xs), socketAt := IndexBy(xs, SocketId));
    ReadMore(lines, d, SocketLines(xs), d1);
    var l1 := lines + SocketLines(xs);
    FitBlock(d1, xs);
    var d2 := d1.(fits := FitsOf(xs));
    ReadMore(l1, d1, FitLines(xs), d2);
    var l2 := l1 + FitLines(xs);
    HoleBlock(d2, xs);
    var d3 := d2.(holes := HolesOf(xs));
    ReadMore(l2, d2, HoleLines(xs), d3);
    ReadAccepted(l2 + HoleLines(xs), d3, o.uncertainties);
  }

  lemma AbsorbEverything(s: Snap, o: Others, project: string, legend: string)
    requires Starts(legend, "@legend") && OneLine(legend) && SpelledAll(s) && OthersAccepted(o)
    ensures AbsorbAll(BLANK, AllLines(s, o, project, legend)) == Ok(Collected(s, o))
    ensures AllOneLine(AllLines(s, o, project, legend))
  {
    hide AbsorbAll, SpelledAll, OthersAccepted, Preamble, EntityLines, EdgeLines, EvidenceLines, GreenLines, SocketLines, FitLines,
      HoleLines, Entities, Edges, Sockets, Exhibits, Listing, StrippedAll, IndexBy, StrippedEdges, EvidenceOf, GreensOf, BaredAll,
      FitsOf, HolesOf, AllOneLine, OneLine, Starts;
    ReadStructure(s, o, project, legend);
    var l1 := Preamble(s, project, legend) + o.purposes + EntityLines(Entities(s)) + o.summaries + EdgeLines(Edges(s));
    var d1 := BLANK.(id := Some(s.id), timestamp := s.timestamp, unread := o.purposes + o.summaries,
                     entities := StrippedAll(Entities(s)), entityAt := IndexBy(Entities(s), EntityId),
                     edges := StrippedEdges(Edges(s)));
    ReadNotes(s, o, l1, d1);
    var l2 := l1 + o.records + EvidenceLines(Listing(Exhibits(s))) + GreenLines(Entities(s)) + o.conflicts + o.sources;
    var d2 := d1.(unread := d1.unread + o.records + o.conflicts + o.sources, evidence := EvidenceOf(Listing(Exhibits(s))),
                  greens := GreensOf(Entities(s)));
    ReadSockets(s, o, l2, d2);
  }

  // ---- What the tables say ----

  lemma {:induction false} IndexIsExact<T>(s: seq<T>, key: T -> Id)
    requires DistinctKeys(s, key)
    ensures forall i :: 0 <= i < |s| ==> Listed(IndexBy(s, key), key(s[i]), i)
    ensures forall id :: id in IndexBy(s, key) ==> 0 <= IndexBy(s, key)[id] < |s| && key(s[IndexBy(s, key)[id]]) == id
  {
    if s != [] {
      var n := |s| - 1;
      IndexIsExact(s[..n], key);
      assert forall i :: 0 <= i < n ==> s[..n][i] == s[i];
    }
  }

  lemma LastEntityIsNew(entities: seq<Entity>)
    requires DistinctKeys(entities, EntityId) && entities != []
    ensures var n := |entities| - 1;
            && (forall i :: 0 <= i < n ==> entities[..n][i] == entities[i] && entities[i].id != entities[n].id)
            && entities[n].id !in IdsOf(entities[..n])
            && IdsOf(entities) == IdsOf(entities[..n]) + {entities[n].id}
  {
    var n := |entities| - 1;
    assert entities == entities[..n] + [entities[n]];
    assert forall i :: 0 <= i < n ==> EntityId(entities[i]) != EntityId(entities[n]);
  }

  lemma {:induction false} GreensAreExact(entities: seq<Entity>)
    requires DistinctKeys(entities, EntityId)
    ensures GreensOf(entities).Keys <= IdsOf(entities)
    ensures forall i :: 0 <= i < |entities| ==> (entities[i].id in GreensOf(entities) <==> entities[i].green.Some?)
    ensures forall i :: 0 <= i < |entities| && entities[i].green.Some? ==>
              GreensOf(entities)[entities[i].id] == CodesOf(entities[i].green.value)
  {
    hide CodesOf, IdsOf;
    if entities != [] {
      var n := |entities| - 1;
      GreensAreExact(entities[..n]);
      LastEntityIsNew(entities);
    } else {
      assert GreensOf(entities).Keys == {};
    }
  }

  function SocketIds(sockets: seq<Socket>): set<Id> {
    set s | s in sockets :: s.id
  }

  lemma LastIsNew(sockets: seq<Socket>)
    requires DistinctKeys(sockets, SocketId) && sockets != []
    ensures var n := |sockets| - 1;
            && (forall i :: 0 <= i < n ==> sockets[..n][i] == sockets[i])
            && sockets[n].id !in SocketIds(sockets[..n])
            && SocketIds(sockets) == SocketIds(sockets[..n]) + {sockets[n].id}
  {
    var n := |sockets| - 1;
    assert sockets == sockets[..n] + [sockets[n]];
    forall x | x in sockets[..n] ensures x.id != sockets[n].id {
      var i :| 0 <= i < n && sockets[i] == x;
      assert SocketId(sockets[i]) != SocketId(sockets[n]);
    }
  }

  lemma {:induction false} FitsAreExact(sockets: seq<Socket>)
    requires DistinctKeys(sockets, SocketId)
    ensures FitsOf(sockets).Keys <= SocketIds(sockets)
    ensures forall i :: 0 <= i < |sockets| ==> (sockets[i].id in FitsOf(sockets) <==> sockets[i].resolution.Fit?)
    ensures forall i :: 0 <= i < |sockets| && sockets[i].resolution.Fit? ==> FitsOf(sockets)[sockets[i].id] == sockets[i].resolution
  {
    hide SocketIds;
    if sockets != [] {
      var n := |sockets| - 1;
      FitsAreExact(sockets[..n]);
      LastIsNew(sockets);
    } else {
      assert FitsOf(sockets).Keys == {};
    }
  }

  lemma {:induction false} HolesAreExact(sockets: seq<Socket>)
    requires DistinctKeys(sockets, SocketId)
    ensures HolesOf(sockets).Keys <= SocketIds(sockets)
    ensures forall i :: 0 <= i < |sockets| ==> (sockets[i].id in HolesOf(sockets) <==> sockets[i].resolution.Hole?)
    ensures forall i :: 0 <= i < |sockets| && sockets[i].resolution.Hole? ==> HolesOf(sockets)[sockets[i].id] == sockets[i].resolution
  {
    hide SocketIds;
    if sockets != [] {
      var n := |sockets| - 1;
      HolesAreExact(sockets[..n]);
      LastIsNew(sockets);
    } else {
      assert HolesOf(sockets).Keys == {};
    }
  }

  lemma {:induction false} BaredEach(sockets: seq<Socket>)
    ensures |BaredAll(sockets)| == |sockets| && forall i :: 0 <= i < |sockets| ==> BaredAll(sockets)[i] == Bared(sockets[i])
  {
    if sockets != [] {
      BaredEach(sockets[..|sockets| - 1]);
    }
  }

  lemma {:induction false} StrippedEach(entities: seq<Entity>)
    ensures |StrippedAll(entities)| == |entities|
    ensures forall i :: 0 <= i < |entities| ==> StrippedAll(entities)[i] == Stripped(entities[i])
  {
    if entities != [] {
      StrippedEach(entities[..|entities| - 1]);
    }
  }

  /** Fits and holes go back to the sockets they were written for; the rest stay unresolved. */
  lemma ResolutionsRestored(sockets: seq<Socket>)
    requires DistinctKeys(sockets, SocketId)
    ensures var at := IndexBy(sockets, SocketId);
            WithResolutions(WithResolutions(BaredAll(sockets), FitsOf(sockets), at), HolesOf(sockets), at) == sockets
  {
    hide IndexBy, FitsOf, HolesOf, BaredAll, Listed, SocketIds, DistinctKeys;
    IndexIsExact(sockets, SocketId);
    FitsAreExact(sockets);
    HolesAreExact(sockets);
    BaredEach(sockets);
    var at := IndexBy(sockets, SocketId);
    var r := WithResolutions(WithResolutions(BaredAll(sockets), FitsOf(sockets), at), HolesOf(sockets), at);
    forall i | 0 <= i < |sockets| ensures r[i] == sockets[i] {
      assert Listed(at, SocketId(sockets[i]), i);
      assert sockets[i].resolution.Unresolved? || sockets[i].resolution.Fit? || sockets[i].resolution.Hole?;
    }
  }

  // ---- Sockets return to their owners, in order ----

  function OwnedBy(sockets: seq<Socket>, owner: Id): seq<Socket> {
    if sockets == [] then []
    else OwnedBy(sockets[..|sockets| - 1], owner) + (if sockets[|sockets| - 1].owner == owner then [sockets[|sockets| - 1]] else [])
  }

  lemma {:induction false} OwnedByListed(sockets: seq<Socket>, entities: seq<Entity>, i: nat)
    requires DistinctKeys(entities, EntityId) && i < |entities|
    ensures Owned(sockets, IndexBy(entities, EntityId), i) == OwnedBy(sockets, entities[i].id)
    decreases |sockets|
  {
    if sockets != [] {
      OwnedByListed(sockets[..|sockets| - 1], entities, i);
      IndexIsExact(entities, EntityId);
      hide IndexBy;
    }
  }

  lemma {:induction false} OwnedTogether(a: seq<Socket>, b: seq<Socket>, owner: Id)
    ensures OwnedBy(a + b, owner) == OwnedBy(a, owner) + OwnedBy(b, owner)
    decreases |b|
  {
    if b == [] {
      assert a + b == a;
      assert OwnedBy(a, owner) + [] == OwnedBy(a, owner);
    } else {
      var n := |b| - 1;
      OwnedTogether(a, b[..n], owner);
      assert (a + b)[..|a + b| - 1] == a + b[..n];
      GroupSockets(OwnedBy(a, owner), OwnedBy(b[..n], owner), if b[n].owner == owner then [b[n]] else []);
    }
  }

  lemma GroupSockets(a: seq<Socket>, b: seq<Socket>, c: seq<Socket>)
    ensures a + b + c == a + (b + c)
  {
  }

  lemma {:induction false} AllOwned(sockets: seq<Socket>, owner: Id)
    requires forall i :: 0 <= i < |sockets| ==> sockets[i].owner == owner
    ensures OwnedBy(sockets, owner) == sockets
  {
    if sockets != [] {
      var n := |sockets| - 1;
      AllOwned(sockets[..n], owner);
      assert sockets == sockets[..n] + [sockets[n]];
    }
  }

  lemma {:induction false} NoneAreOwned(sockets: seq<Socket>, owner: Id)
    requires forall i :: 0 <= i < |sockets| ==> sockets[i].owner != owner
    ensures OwnedBy(sockets, owner) == []
  {
    if sockets != [] {
      NoneAreOwned(sockets[..|sockets| - 1], owner);
    }
  }

  ghost predicate OwnersRight(entities: seq<Entity>) {
    forall e :: e in entities ==> forall x :: x in e.sockets ==> x.owner == e.id
  }

  lemma {:induction false} NoOwnerAmong(entities: seq<Entity>, owner: Id)
    requires OwnersRight(entities) && forall i :: 0 <= i < |entities| ==> entities[i].id != owner
    ensures OwnedBy(SocketsOf(entities), owner) == []
    decreases |entities|
  {
    hide OwnedBy;
    if entities == [] {
      NoneAreOwned([], owner);
    } else {
      var n := |entities| - 1;
      NoOwnerAmong(entities[..n], owner);
      assert entities[n] in entities;
      NoneAreOwned(entities[n].sockets, owner);
      OwnedTogether(SocketsOf(entities[..n]), entities[n].sockets, owner);
    }
  }

  lemma {:induction false} OwnedByEach(entities: seq<Entity>, i: nat)
    requires OwnersRight(entities) && DistinctKeys(entities, EntityId) && i < |entities|
    ensures OwnedBy(SocketsOf(entities), entities[i].id) == entities[i].sockets
    decreases |entities|
  {
    hide OwnedBy;
    var n := |entities| - 1;
    var owner := entities[i].id;
    LastEntityIsNew(entities);
    assert entities[n] in entities;
    OwnedTogether(SocketsOf(entities[..n]), entities[n].sockets, owner);
    if i < n {
      OwnedByEach(entities[..n], i);
      NoneAreOwned(entities[n].sockets, owner);
      assert entities[i].sockets + [] == entities[i].sockets;
    } else {
      NoOwnerAmong(entities[..n], owner);
      AllOwned(entities[n].sockets, owner);
      assert [] + entities[n].sockets == entities[n].sockets;
    }
  }

  lemma {:induction false} OwnedInsert(x: Socket, s: seq<Socket>, owner: Id)
    requires TotalPreorder(SocketOrder) && Sorted(s, SocketOrder)
    ensures OwnedBy(Insert(x, s, SocketOrder), owner) ==
            if x.owner == owner then Insert(x, OwnedBy(s, owner), SocketOrder) else OwnedBy(s, owner)
    decreases |s|
  {
    hide SocketOrder, TotalPreorder, OwnedBy;
    if s == [] || SocketOrder(x, s[0]) {
      OwnedTogether([x], s, owner);
      InsertFirst(x, s, owner);
      assert [] + OwnedBy(s, owner) == OwnedBy(s, owner);
    } else {
      OwnedInsert(x, s[1..], owner);
      hide Sorted;
      OwnedTogether([s[0]], Insert(x, s[1..], SocketOrder), owner);
      OwnedTogether([s[0]], s[1..], owner);
      OwnedOne(s[0], owner);
      assert s == [s[0]] + s[1..];
      var rest := OwnedBy(s[1..], owner);
      assert ([s[0]] + rest)[1..] == rest && [] + rest == rest;
      assert [] + Insert(x, rest, SocketOrder) == Insert(x, rest, SocketOrder);
    }
  }

  lemma OwnedOne(x: Socket, owner: Id)
    ensures OwnedBy([x], owner) == if x.owner == owner then [x] else []
  {
  }

  lemma InsertFirst(x: Socket, s: seq<Socket>, owner: Id)
    requires TotalPreorder(SocketOrder) && Sorted(s, SocketOrder) && (s == [] || SocketOrder(x, s[0]))
    ensures Insert(x, OwnedBy(s, owner), SocketOrder) == [x] + OwnedBy(s, owner)
    ensures OwnedBy([x], owner) == if x.owner == owner then [x] else []
  {
    hide SocketOrder;
    OwnedOne(x, owner);
    OwnedMembers(s, owner);
    var own := OwnedBy(s, owner);
    if own != [] {
      assert own[0] in own;
      var i :| 0 <= i < |s| && s[i] == own[0];
      assert SocketOrder(x, own[0]);
    }
  }

  lemma {:induction false} OwnedMembers(s: seq<Socket>, owner: Id)
    ensures forall x :: x in OwnedBy(s, owner) ==> x in s
  {
    if s != [] {
      OwnedMembers(s[..|s| - 1], owner);
    }
  }

  /** One entity's sockets, taken from the sorted list of all, are its own sockets sorted. */
  lemma {:induction false} OwnedSorted(s: seq<Socket>, owner: Id)
    requires TotalPreorder(SocketOrder)
    ensures OwnedBy(SortBy(s, SocketOrder), owner) == SortBy(OwnedBy(s, owner), SocketOrder)
    decreases |s|
  {
    hide SocketOrder, TotalPreorder, Sorted, Insert, OwnedBy, SortBy;
    if s == [] {
      SortNone(owner);
    } else {
      var rest := SortBy(s[1..], SocketOrder);
      OwnedSorted(s[1..], owner);
      SortBySorts(s[1..], SocketOrder);
      OwnedInsert(s[0], rest, owner);
      OwnedTogether([s[0]], s[1..], owner);
      OwnedOne(s[0], owner);
      assert s == [s[0]] + s[1..];
      SortCons(s[0], s[1..]);
      var own := OwnedBy(s[1..], owner);
      SortCons(s[0], own);
      assert [] + own == own;
    }
  }

  lemma SortNone(owner: Id)
    ensures OwnedBy(SortBy([], SocketOrder), owner) == SortBy(OwnedBy([], owner), SocketOrder)
  {
  }

  lemma SortCons(x: Socket, s: seq<Socket>)
    ensures SortBy([x] + s, SocketOrder) == Insert(x, SortBy(s, SocketOrder), SocketOrder)
  {
    assert ([x] + s)[1..] == s;
  }

  // ---- The round trip ----

  /** No entity among `entities` shares a socket id with another. */
  ghost predicate Apart(entities: seq<Entity>) {
    && (forall e :: e in entities ==> DistinctKeys(e.sockets, SocketId))
    && (forall e, f, x, y :: e in entities && f in entities && x in e.sockets && y in f.sockets && x.id == y.id ==> e.id == f.id)
  }

  /** No edge takes an entity's id, which would give the entity its evidence. */
  ghost predicate EdgesApart(s: Snap) {
    forall e, x :: e in s.edges && x in s.entities ==> e.id != x.id
  }

  ghost predicate WordedEvidence(evidence: seq<Evidence>) {
    forall v :: v in evidence ==> Bare(v.origin.confidence)
  }

  /** Ids are unique, sockets belong to the entity that lists them, and confidences are words. */
  ghost predicate Legal(s: Snap) {
    && DistinctKeys(s.entities, EntityId)
    && OwnersRight(s.entities)
    && Apart(s.entities)
    && SpelledIn(s.entities)
    && (forall e :: e in s.edges ==> Bare(e.confidence) && WordedEvidence(e.evidence))
    && (forall e :: e in s.entities ==> WordedEvidence(e.evidence))
    && EdgesApart(s)
  }

  /** An entity's evidence in the order of its stable ids, the last of each, fingerprints left out. */
  function KeptEvidence(e: Entity): seq<Evidence> {
    RereadAll(Listing(OfTarget(e.id, e.evidence)))
  }

  /** What the format keeps of an entity: its own fields, its sockets in id order with their exact
      resolutions, its evidence, the overall code and the six axis codes. */
  function Projected(e: Entity, snapshot: string): Entity {
    e.(sockets := SortBy(e.sockets, SocketOrder), evidence := KeptEvidence(e), conflicts := [], snapshot := snapshot,
       green := if e.green.Some? then Some(CodesOf(e.green.value)) else None)
  }

  function Canonical(s: Snap): Snap {
    var entities := Entities(s);
    Snap(s.id, s.timestamp, seq(|entities|, i requires 0 <= i < |entities| => Projected(entities[i], s.id)), StrippedEdges(Edges(s)))
  }

  lemma SortedEntities(s: Snap)
    ensures multiset(Entities(s)) == multiset(s.entities)
    ensures forall e :: e in Entities(s) <==> e in s.entities
  {
    OrdersAreTotal();
    SortBySorts(s.entities, EntityOrder);
    hide SortBy, EntityOrder, EdgeOrder, SocketOrder, TotalPreorder;
    forall e ensures e in Entities(s) <==> e in s.entities {
      assert e in multiset(Entities(s)) <==> e in multiset(s.entities);
    }
  }

  lemma {:induction false} SocketsOfMembers(entities: seq<Entity>)
    ensures forall x :: x in SocketsOf(entities) <==> exists e :: e in entities && x in e.sockets
  {
    if entities != [] {
      var n := |entities| - 1;
      SocketsOfMembers(entities[..n]);
      assert entities == entities[..n] + [entities[n]];
    }
  }

  lemma DistinctTogether(a: seq<Socket>, b: seq<Socket>)
    requires DistinctKeys(a, SocketId) && DistinctKeys(b, SocketId)
    requires forall x, y :: x in a && y in b ==> x.id != y.id
    ensures DistinctKeys(a + b, SocketId)
  {
    var c := a + b;
    forall i, j | 0 <= i < j < |c| ensures SocketId(c[i]) != SocketId(c[j]) {
      if i < |a| <= j {
        assert a[i] in a && b[j - |a|] in b;
      }
    }
  }

  lemma {:induction false} AllSocketsDistinct(entities: seq<Entity>)
    requires DistinctKeys(entities, EntityId) && Apart(entities)
    ensures DistinctKeys(SocketsOf(entities), SocketId)
    decreases |entities|
  {
    if entities != [] {
      var n := |entities| - 1;
      AllSocketsDistinct(entities[..n]);
      LastEntityIsNew(entities);
      SocketsOfMembers(entities[..n]);
      assert entities[n] in entities;
      forall x, y | x in SocketsOf(entities[..n]) && y in entities[n].sockets ensures x.id != y.id {
        var e :| e in entities[..n] && x in e.sockets;
        var i :| 0 <= i < n && entities[..n][i] == e;
        assert e in entities && e.id != entities[n].id;
      }
      DistinctTogether(SocketsOf(entities[..n]), entities[n].sockets);
    }
  }

  ghost predicate SpelledIn(entities: seq<Entity>) {
    forall e :: e in entities ==> forall x :: x in e.sockets ==> Spelled(x)
  }

  lemma SameMembers(a: seq<Entity>, b: seq<Entity>)
    requires forall e :: e in a <==> e in b
    requires OwnersRight(b) && Apart(b) && SpelledIn(b)
    ensures OwnersRight(a) && Apart(a) && SpelledIn(a)
  {
    hide DistinctKeys, Spelled;
  }

  lemma EntitiesLegal(s: Snap)
    requires Legal(s)
    ensures DistinctKeys(Entities(s), EntityId) && OwnersRight(Entities(s)) && Apart(Entities(s))
    ensures SpelledIn(Entities(s))
  {
    hide Entities, DistinctKeys, OwnersRight, Apart, SpelledIn, EntityId;
    SortedEntities(s);
    DistinctAnyOrder(s.entities, Entities(s), EntityId);
    SameMembers(Entities(s), s.entities);
  }

  lemma SpelledSockets(entities: seq<Entity>, sockets: seq<Socket>)
    requires SpelledIn(entities) && multiset(sockets) == multiset(SocketsOf(entities))
    ensures forall x :: x in sockets ==> Spelled(x)
  {
    SocketsOfMembers(entities);
    hide Spelled, SocketsOf;
    forall x | x in sockets ensures Spelled(x) {
      assert x in multiset(sockets);
      assert x in SocketsOf(entities);
    }
  }

  lemma SortedSockets(s: Snap)
    requires Legal(s)
    ensures DistinctKeys(Entities(s), EntityId) && OwnersRight(Entities(s)) && DistinctKeys(Sockets(s), SocketId)
    ensures forall x :: x in Sockets(s) ==> Spelled(x)
  {
    hide SortBy, EntityOrder, EdgeOrder, SocketOrder, TotalPreorder, Entities, Spelled, DistinctKeys, OwnersRight, Apart,
         SpelledIn, SocketsOf, Legal, Sorted;
    EntitiesLegal(s);
    AllSocketsDistinct(Entities(s));
    OrdersAreTotal();
    var all := SocketsOf(Entities(s));
    SortBySorts(all, SocketOrder);
    DistinctAnyOrder(all, Sockets(s), SocketId);
    SpelledSockets(Entities(s), Sockets(s));
  }

  lemma {:induction false} TouchingMembers(edges: seq<Edge>, ids: set<Id>)
    ensures forall e :: e in Touching(edges, ids) <==> e in edges && (e.source in ids || e.target in ids)
  {
    if edges != [] {
      var n := |edges| - 1;
      TouchingMembers(edges[..n], ids);
      assert edges == edges[..n] + [edges[n]];
    }
  }

  lemma EdgesSpelled(s: Snap)
    requires Legal(s)
    ensures forall e :: e in Edges(s) ==> Bare(e.confidence)
  {
    EdgesAreOld(s);
    hide Bare, Edges, DistinctKeys, OwnersRight, Apart, SpelledIn, WordedEvidence, EdgesApart;
  }

  lemma GreenRestored(entities: seq<Entity>, i: nat)
    requires DistinctKeys(entities, EntityId) && i < |entities|
    ensures |StrippedAll(entities)| == |entities|
    ensures WithGreen(StrippedAll(entities), GreensOf(entities), IndexBy(entities, EntityId))[i] ==
            Stripped(entities[i]).(green := if entities[i].green.Some? then Some(CodesOf(entities[i].green.value)) else None)
  {
    hide IndexBy, GreensOf, StrippedAll, CodesOf, Listed, DistinctKeys;
    StrippedEach(entities);
    GreensAreExact(entities);
    IndexIsExact(entities, EntityId);
    assert Listed(IndexBy(entities, EntityId), EntityId(entities[i]), i);
  }

  // ---- Evidence returns to its entity ----

  lemma {:induction false} HeldIs(xs: seq<Exhibit>, target: Id)
    ensures HeldFor(EvidenceOf(xs), target) == RereadAll(About(xs, target))
    ensures target in EvidenceOf(xs) <==> About(xs, target) != []
  {
    if xs != [] {
      hide Reread;
      var n := |xs| - 1;
      HeldIs(xs[..n], target);
      var about := About(xs[..n], target);
      assert about + [] == about;
      RereadNext(about, xs[n]);
    }
  }

  lemma RereadNext(xs: seq<Exhibit>, x: Exhibit)
    ensures RereadAll(xs + [x]) == RereadAll(xs) + [Reread(x.evidence)]
  {
    hide Reread;
  }

  lemma {:induction false} AllAbout(xs: seq<Exhibit>, target: Id)
    ensures (forall x :: x in xs ==> x.target == target) ==> About(xs, target) == xs
    ensures (forall x :: x in xs ==> x.target != target) ==> About(xs, target) == []
  {
    if xs != [] {
      var n := |xs| - 1;
      AllAbout(xs[..n], target);
      LastApart(xs);
      assert xs[n] in xs && forall x :: x in xs[..n] ==> x in xs;
    }
  }

  lemma OfTargetMembers(target: Id, evidence: seq<Evidence>)
    ensures forall x :: x in OfTarget(target, evidence) ==> x.target == target && x.evidence in evidence
  {
  }

  lemma {:induction false} EntityExhibitsMembers(entities: seq<Entity>)
    ensures forall x :: x in EntityExhibits(entities) ==> exists e :: e in entities && x.target == e.id && x.evidence in e.evidence
  {
    if entities != [] {
      var n := |entities| - 1;
      EntityExhibitsMembers(entities[..n]);
      OfTargetMembers(entities[n].id, entities[n].evidence);
      assert entities[n] in entities;
    }
  }

  lemma {:induction false} EdgeExhibitsMembers(edges: seq<Edge>)
    ensures forall x :: x in EdgeExhibits(edges) ==> exists e :: e in edges && x.target == e.id && x.evidence in e.evidence
  {
    if edges != [] {
      var n := |edges| - 1;
      EdgeExhibitsMembers(edges[..n]);
      OfTargetMembers(edges[n].id, edges[n].evidence);
      assert edges[n] in edges;
    }
  }

  lemma {:induction false} NoneAboutOthers(entities: seq<Entity>, target: Id)
    requires forall i :: 0 <= i < |entities| ==> entities[i].id != target
    ensures About(EntityExhibits(entities), target) == []
  {
    EntityExhibitsMembers(entities);
    hide EntityExhibits;
    AllAbout(EntityExhibits(entities), target);
  }

  /** An entity's exhibits are those of its own evidence. */
  lemma {:induction false} AboutEntity(entities: seq<Entity>, i: nat)
    requires DistinctKeys(entities, EntityId) && i < |entities|
    ensures About(EntityExhibits(entities), entities[i].id) == OfTarget(entities[i].id, entities[i].evidence)
    decreases |entities|
  {
    hide About;
    var n := |entities| - 1;
    var target := entities[i].id;
    var last := OfTarget(entities[n].id, entities[n].evidence);
    LastEntityIsNew(entities);
    AboutTogether(EntityExhibits(entities[..n]), last, target);
    OfTargetMembers(entities[n].id, entities[n].evidence);
    AllAbout(last, target);
    if i < n {
      AboutEntity(entities[..n], i);
      assert OfTarget(target, entities[i].evidence) + [] == OfTarget(target, entities[i].evidence);
    } else {
      NoneAboutOthers(entities[..n], target);
      assert [] + last == last;
    }
  }

  lemma AboutInSnap(s: Snap, i: nat)
    requires Legal(s) && i < |Entities(s)|
    ensures About(Exhibits(s), Entities(s)[i].id) == OfTarget(Entities(s)[i].id, Entities(s)[i].evidence)
  {
    var e := Entities(s)[i];
    EntitiesLegal(s);
    SortedEntities(s);
    EdgesAreOld(s);
    EdgeExhibitsMembers(Edges(s));
    NoEdgeIsEntity(s, e);
    hide Entities, Edges, Legal, EntityExhibits, EdgeExhibits, About, DistinctKeys, EdgesApart;
    AboutTogether(EntityExhibits(Entities(s)), EdgeExhibits(Edges(s)), e.id);
    AboutEntity(Entities(s), i);
    AllAbout(EdgeExhibits(Edges(s)), e.id);
    var own := OfTarget(e.id, e.evidence);
    assert own + [] == own;
  }

  lemma NoEdgeIsEntity(s: Snap, e: Entity)
    requires Legal(s) && e in s.entities
    ensures forall x :: x in s.edges ==> x.id != e.id
  {
    hide DistinctKeys, OwnersRight, Apart, SpelledIn, WordedEvidence, Bare;
  }

  lemma EdgesAreOld(s: Snap)
    ensures forall e :: e in Edges(s) ==> e in s.edges
  {
    OrdersAreTotal();
    var kept := Touching(s.edges, IdsOf(s.entities));
    TouchingMembers(s.edges, IdsOf(s.entities));
    SortBySorts(kept, EdgeOrder);
    hide SortBy, EntityOrder, EdgeOrder, SocketOrder, TotalPreorder, Touching;
    forall e | e in Edges(s) ensures e in s.edges {
      assert e in multiset(Edges(s)) && e in multiset(kept);
    }
  }

  /** The evidence read for an entity is what the format keeps of its own. */
  lemma EvidenceRestored(s: Snap, i: nat)
    requires Legal(s) && i < |Entities(s)|
    ensures var e, read := Entities(s)[i], EvidenceOf(Listing(Exhibits(s)));
            (if e.id in read then read[e.id] else []) == KeptEvidence(e)
  {
    var e := Entities(s)[i];
    AboutInSnap(s, i);
    hide Entities, Edges, Legal, Exhibits, Listing, About, EvidenceOf, OfTarget, RereadAll;
    HeldIs(Listing(Exhibits(s)), e.id);
    AboutListing(Exhibits(s), e.id);
  }

  lemma EvidenceSpelled(s: Snap)
    requires Legal(s)
    ensures forall x :: x in Listing(Exhibits(s)) ==> Bare(x.evidence.origin.confidence)
  {
    var xs := Exhibits(s);
    SortedEntities(s);
    EdgesAreOld(s);
    EntityExhibitsMembers(Entities(s));
    EdgeExhibitsMembers(Edges(s));
    LegalEvidence(s);
    ListingIs(xs);
    FinalMembers(xs);
    hide Bare, Entities, Edges, EntityExhibits, EdgeExhibits, Listing, Final, Ascending, Legal;
    forall x | x in Listing(xs) ensures Bare(x.evidence.origin.confidence) {
      assert x in Final(xs) && x in xs;
      assert x in EntityExhibits(Entities(s)) || x in EdgeExhibits(Edges(s));
    }
  }

  lemma LegalEvidence(s: Snap)
    requires Legal(s)
    ensures forall e, v :: e in s.entities && v in e.evidence ==> Bare(v.origin.confidence)
    ensures forall e, v :: e in s.edges && v in e.evidence ==> Bare(v.origin.confidence)
  {
    hide DistinctKeys, OwnersRight, Apart, SpelledIn, EdgesApart, Bare;
  }

  lemma SocketsRestored(s: Snap, i: nat)
    requires Legal(s) && i < |Entities(s)|
    ensures Owned(Sockets(s), IndexBy(Entities(s), EntityId), i) == SortBy(Entities(s)[i].sockets, SocketOrder)
  {
    hide Entities, SortBy, SocketOrder, EntityOrder, EdgeOrder, TotalPreorder, Owned, OwnedBy, SocketsOf, IndexBy, DistinctKeys,
         OwnersRight, Legal, Spelled;
    SortedSockets(s);
    OwnedByListed(Sockets(s), Entities(s), i);
    OwnedByEach(Entities(s), i);
    OrdersAreTotal();
    OwnedSorted(SocketsOf(Entities(s)), Entities(s)[i].id);
  }

  /** One entity after the attach passes. */
  lemma EntityRestored(s: Snap, o: Others, i: nat)
    requires Legal(s) && i < |Entities(s)|
    ensures |Finished(Collected(s, o)).entities| == |Entities(s)|
    ensures Finished(Collected(s, o)).entities[i] == Projected(Entities(s)[i], s.id)
  {
    hide IndexBy, GreensOf, EvidenceOf, Exhibits, Listing, KeptEvidence, StrippedAll, StrippedEdges, BaredAll, FitsOf, HolesOf,
         WithResolutions, WithGreen, Owned, Listed, Entities, Edges, Sockets, SortBy, CodesOf, Legal, OwnersRight, DistinctKeys,
         Spelled, OtherLines;
    SortedSockets(s);
    ResolutionsRestored(Sockets(s));
    GreenRestored(Entities(s), i);
    IndexIsExact(Entities(s), EntityId);
    assert Listed(IndexBy(Entities(s), EntityId), EntityId(Entities(s)[i]), i);
    EvidenceRestored(s, i);
    SocketsRestored(s, i);
    var own := SortBy(Entities(s)[i].sockets, SocketOrder);
    assert [] + own == own;
  }

  /** Decoding the encoded snapshot gives the snapshot in canonical order, exactly, on what the
      format keeps, whatever accepted records stand between its blocks; edges that touch no entity
      are not written. */
  lemma DecodeEncode(s: Snap, o: Others, project: string, legend: string)
    requires Legal(s) && OthersAccepted(o) && Starts(legend, "@legend") && OneLine(legend)
    ensures Decoded(Joined(AllLines(s, o, project, legend))) == Ok(Canonical(s))
  {
    hide AllLines, Joined, RecordLines, AbsorbAll, Entities, Edges, Sockets, Exhibits, Listing, Legal, Spelled, Bare, DistinctKeys,
         OwnersRight, Collected, Finished, Canonical, OneLine, Starts, OthersAccepted;
    SortedSockets(s);
    EdgesSpelled(s);
    EvidenceSpelled(s);
    AbsorbEverything(s, o, project, legend);
    FileRoundTrip(AllLines(s, o, project, legend));
    EntitiesRestored(s, o);
    FinishedIsCanonical(s, o);
  }

  lemma EntitiesRestored(s: Snap, o: Others)
    requires Legal(s)
    ensures |Finished(Collected(s, o)).entities| == |Entities(s)|
    ensures forall i :: 0 <= i < |Entities(s)| ==> Finished(Collected(s, o)).entities[i] == Projected(Entities(s)[i], s.id)
  {
    SameCount(s, o);
    hide Finished, Collected, Entities, Legal, Projected;
    forall i | 0 <= i < |Entities(s)| ensures Finished(Collected(s, o)).entities[i] == Projected(Entities(s)[i], s.id) {
      EntityRestored(s, o, i);
    }
  }

  lemma SameCount(s: Snap, o: Others)
    ensures |Finished(Collected(s, o)).entities| == |Entities(s)|
  {
    StrippedEach(Entities(s));
    hide Entities, Edges, Sockets, StrippedAll, WithResolutions, BaredAll, FitsOf, HolesOf, IndexBy, GreensOf, EvidenceOf, Listing,
      Exhibits, OtherLines;
  }

  lemma FinishedIsCanonical(s: Snap, o: Others)
    requires |Finished(Collected(s, o)).entities| == |Entities(s)|
    requires forall i :: 0 <= i < |Entities(s)| ==> Finished(Collected(s, o)).entities[i] == Projected(Entities(s)[i], s.id)
    ensures Finished(Collected(s, o)) == Canonical(s)
  {
    hide Entities, Edges, Sockets, Projected, StrippedAll, BaredAll, WithGreen, WithEvidence, WithSockets, WithResolutions, Stamped,
      EvidenceOf, Listing, Exhibits, OtherLines;
  }

  // ---- The file of a scanned snapshot ----

  /** The records a scan's own entities give rise to. */
  function ScannedOthers(s: Snap, notes: Id -> Notes): Others {
    Others([], SummaryLines(Entities(s), notes), InIdOrder(AllClauses(Entities(s), notes)), [], [],
           InIdOrder(AllUncertainties(Entities(s), notes)))
  }

  lemma WrittenIsAccepted(tag: string, slots: seq<Slot>)
    requires WellMade(slots) && |tag| >= 3 && tag[0] == '@' && Bare(tag[1..]) && TagOf(tag) == OtherTag
    requires (tag[1] == 'c' ==> tag[2] != 'r') && tag[1] != 'l' && (tag[1] == 'g' ==> tag[2] != 'e')
    requires CheckOther(tag, PairsOf(Items(slots))).Ok?
    ensures Accepted(Line(tag, Items(slots)))
  {
    hide WellMade, Items, Starts, ParseLine, Line, OneLine, Bare, TagOf, CheckOther;
    WrittenLine(tag, slots);
    NotSpecial(tag, Items(slots));
  }

  lemma NoteTags()
    ensures Bare("@summary"[1..]) && Bare("@constraint"[1..]) && Bare("@uncertainty"[1..])
    ensures TagOf("@summary") == OtherTag && TagOf("@constraint") == OtherTag && TagOf("@uncertainty") == OtherTag
  {
  }

  lemma SummaryIsAccepted(id: Id, text: string)
    ensures Accepted(SummaryLine(id, text))
  {
    NoteTags();
    SummarySlotsMade(id, text);
    hide Accepted, WellMade, Items, Line, Bare, TagOf, CheckOther, SummarySlots;
    WrittenIsAccepted("@summary", SummarySlots(id, text));
  }

  lemma ClauseIsAccepted(id: Id, index: nat, clause: string)
    ensures Accepted(ClauseLine(id, index, clause))
  {
    NoteTags();
    ClauseSlotsMade(id, index, clause);
    hide Accepted, WellMade, Items, Line, Bare, TagOf, CheckOther, ClauseSlots;
    WrittenIsAccepted("@constraint", ClauseSlots(id, index, clause));
  }

  lemma UncertaintyIsAccepted(id: Id, index: nat, text: string)
    ensures Accepted(UncertaintyLine(id, index, text))
  {
    NoteTags();
    UncertaintySlotsMade(id, index, text);
    hide Accepted, WellMade, Items, Line, Bare, TagOf, CheckOther, UncertaintySlots;
    WrittenIsAccepted("@uncertainty", UncertaintySlots(id, index, text));
  }

  lemma {:induction false} SummariesAccepted(entities: seq<Entity>, notes: Id -> Notes)
    ensures AllAccepted(SummaryLines(entities, notes))
  {
    hide Accepted, SummaryLine;
    if entities != [] {
      var n := |entities| - 1;
      SummariesAccepted(entities[..n], notes);
      SummaryIsAccepted(entities[n].id, notes(entities[n].id).summary);
    }
  }

  ghost predicate PairsAccepted(pairs: seq<(string, string)>) {
    forall p :: p in pairs ==> Accepted(p.1)
  }

  lemma {:induction false} ClausesAccepted(entities: seq<Entity>, notes: Id -> Notes)
    ensures PairsAccepted(AllClauses(entities, notes))
  {
    hide Accepted, ClauseLine, ClauseId;
    if entities != [] {
      var n := |entities| - 1;
      var id := entities[n].id;
      var clauses := notes(id).clauses;
      ClausesAccepted(entities[..n], notes);
      forall i | 0 <= i < |clauses| ensures Accepted(Clauses(id, clauses)[i].1) {
        ClauseIsAccepted(id, i, clauses[i]);
      }
    }
  }

  lemma {:induction false} UncertaintiesAccepted(entities: seq<Entity>, notes: Id -> Notes)
    ensures PairsAccepted(AllUncertainties(entities, notes))
  {
    hide Accepted, UncertaintyLine, UncertaintyId;
    if entities != [] {
      var n := |entities| - 1;
      var id := entities[n].id;
      var texts := notes(id).uncertainty;
      UncertaintiesAccepted(entities[..n], notes);
      forall i | 0 <= i < |texts| ensures Accepted(Uncertainties(id, texts)[i].1) {
        UncertaintyIsAccepted(id, i, texts[i]);
      }
    }
  }

  lemma InIdOrderAccepted(pairs: seq<(string, string)>)
    requires PairsAccepted(pairs)
    ensures AllAccepted(InIdOrder(pairs))
  {
    hide Accepted, InIdOrder;
    forall line | line in InIdOrder(pairs) ensures Accepted(line) {
      InIdOrderMembers(pairs, line);
    }
  }

  /** The whole file of a scanned snapshot reads back: structure, evidence, Green and sockets, with
      its summaries, goals and uncertainties between them. */
  lemma ScannedFileReadsBack(s: Snap, notes: Id -> Notes, project: string, legend: string)
    requires Legal(s) && Starts(legend, "@legend") && OneLine(legend)
    ensures Decoded(Joined(AllLines(s, ScannedOthers(s, notes), project, legend))) == Ok(Canonical(s))
  {
    hide AllLines, Joined, Legal, OneLine, Starts, Accepted, Canonical, Decoded, InIdOrder, SummaryLines, AllClauses, AllUncertainties,
      PairsAccepted, Entities;
    SummariesAccepted(Entities(s), notes);
    ClausesAccepted(Entities(s), notes);
    UncertaintiesAccepted(Entities(s), notes);
    InIdOrderAccepted(AllClauses(Entities(s), notes));
    InIdOrderAccepted(AllUncertainties(Entities(s), notes));
    DecodeEncode(s, ScannedOthers(s, notes), project, legend);
  }
}
