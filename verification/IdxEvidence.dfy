/** The `@evidence` records of the IDX format: how one is written and read, and the table that
    orders them all by their stable ids and keeps the last of each. */
module IdxEvidence {
  import opened Atlas
  import opened Sorting
  import opened IdxText
  import opened IdxLines
  import opened IdxAtoms
  import opened IdxRecords
  import opened IdxEntries

  // ---- Atoms ----

  function AxisAtom(x: Axis): string {
    match x
    case Content => "content"
    case Structure => "structure"
    case Integration => "integration"
    case Verification => "verification"
    case Freshness => "freshness"
    case Coherence => "coherence"
  }

  function ParseAxis(v: string): Option<Axis> {
    if v == "content" then Some(Content)
    else if v == "structure" then Some(Structure)
    else if v == "integration" then Some(Integration)
    else if v == "verification" then Some(Verification)
    else if v == "freshness" then Some(Freshness)
    else if v == "coherence" then Some(Coherence)
    else None
  }

  lemma AxisAtomRoundTrip(x: Axis)
    ensures ParseAxis(AxisAtom(x)) == Some(x) && Bare(AxisAtom(x))
  {
  }

  function FactAtom(x: FactSource): string {
    match x
    case Declared => "declared"
    case Parsed => "parsed"
    case Observed => "observed"
    case Inferred => "inferred"
    case HumanFact => "human"
  }

  function ParseFact(v: string): Option<FactSource> {
    if v == "declared" then Some(Declared)
    else if v == "parsed" then Some(Parsed)
    else if v == "observed" then Some(Observed)
    else if v == "inferred" then Some(Inferred)
    else if v == "human" then Some(HumanFact)
    else None
  }

  lemma FactRoundTrip(x: FactSource)
    ensures ParseFact(FactAtom(x)) == Some(x) && Bare(FactAtom(x))
  {
  }

  function ProofAtom(x: Proof): string {
    match x
    case NoProof => "unknown"
    case Metadata => "metadata"
    case Syntax => "syntax"
    case Lint => "lint"
    case Typecheck => "typecheck"
    case Build => "build"
    case TestRun => "test"
    case HumanProof => "human"
  }

  function ParseProof(v: string): Option<Proof> {
    if v == "unknown" then Some(NoProof)
    else if v == "metadata" then Some(Metadata)
    else if v == "syntax" then Some(Syntax)
    else if v == "lint" then Some(Lint)
    else if v == "typecheck" then Some(Typecheck)
    else if v == "build" then Some(Build)
    else if v == "test" then Some(TestRun)
    else if v == "human" then Some(HumanProof)
    else None
  }

  lemma ProofRoundTrip(x: Proof)
    ensures ParseProof(ProofAtom(x)) == Some(x) && Bare(ProofAtom(x))
  {
  }

  function OutcomeAtom(x: Outcome): string {
    match x
    case NoOutcome => "unknown"
    case Pass => "pass"
    case Warning => "warning"
    case Fail => "fail"
  }

  function ParseOutcome(v: string): Option<Outcome> {
    if v == "unknown" then Some(NoOutcome)
    else if v == "pass" then Some(Pass)
    else if v == "warning" then Some(Warning)
    else if v == "fail" then Some(Fail)
    else None
  }

  lemma OutcomeRoundTrip(x: Outcome)
    ensures ParseOutcome(OutcomeAtom(x)) == Some(x) && Bare(OutcomeAtom(x))
  {
  }

  // ---- One record ----

  /** Evidence and what it is about: an entity, or an edge. */
  datatype Exhibit = Exhibit(target: Id, evidence: Evidence)

  /** Everything an exhibit's line says but its confidence, and the fingerprint, which it does not. */
  function StableId(x: Exhibit): string {
    UuidText(x.target) + ("/" + AxisAtom(x.evidence.axis) + "/" + OutcomeAtom(x.evidence.outcome) + "/"
      + ProofAtom(x.evidence.proof) + "/" + FactAtom(x.evidence.source) + "/" + x.evidence.origin.producer + "/"
      + x.evidence.origin.fingerprint + "/" + x.evidence.snapshot + "/" + x.evidence.origin.observed)
  }

  function EvidenceSlots(x: Exhibit): seq<Slot> {
    [Present(TextItem("id", StableId(x))),
     Present(AtomItem("target", UuidText(x.target))),
     Present(AtomItem("axis", AxisAtom(x.evidence.axis))),
     Present(AtomItem("outcome", OutcomeAtom(x.evidence.outcome))),
     Present(AtomItem("proof", ProofAtom(x.evidence.proof))),
     Present(AtomItem("source", FactAtom(x.evidence.source))),
     Present(AtomItem("confidence", x.evidence.origin.confidence)),
     Present(TextItem("producer", x.evidence.origin.producer)),
     Present(TextItem("snapshot", x.evidence.snapshot)),
     Present(TextItem("observed", x.evidence.origin.observed))]
  }

  function EvidenceLine(x: Exhibit): string {
    Line("@evidence", Items(EvidenceSlots(x)))
  }

  function ParseEvidence(fields: seq<Pair>): Result<(string, Evidence), FieldError> {
    var target :- Need(fields, "target");
    var a :- Need(fields, "axis");
    var axis :- Checked(a, ParseAxis(a));
    var f :- Need(fields, "source");
    var source :- Checked(f, ParseFact(f));
    var p :- Need(fields, "proof");
    var proof :- Checked(p, ParseProof(p));
    var o :- Need(fields, "outcome");
    var outcome :- Checked(o, ParseOutcome(o));
    var c :- Need(fields, "confidence");
    var confidence :- Confident(c);
    Ok((target, Evidence(axis, source, proof, outcome, Or(Get(fields, "snapshot"), ""),
                         Origin(Or(Get(fields, "producer"), ""), "", Or(Get(fields, "observed"), ""), confidence))))
  }

  /** Evidence as it is read back: its line does not carry the fingerprint by itself. */
  function Reread(e: Evidence): Evidence {
    e.(origin := e.origin.(fingerprint := ""))
  }

  lemma EvidenceKeys(x: Exhibit)
    ensures GoodKeys(EvidenceSlots(x))
  {
    hide UuidText, StableId, AxisAtom, OutcomeAtom, ProofAtom, FactAtom, Field;
  }

  lemma EvidenceSlotsMade(x: Exhibit)
    requires Bare(x.evidence.origin.confidence)
    ensures WellMade(EvidenceSlots(x))
  {
    hide Bare, Good, UuidText, StableId, AxisAtom, OutcomeAtom, ProofAtom, FactAtom, ParseAxis, ParseOutcome, ParseProof,
      ParseFact, GoodKeys, Field;
    var s := EvidenceSlots(x);
    EvidenceKeys(x);
    UuidTextIsBare(x.target);
    AxisAtomRoundTrip(x.evidence.axis);
    OutcomeRoundTrip(x.evidence.outcome);
    ProofRoundTrip(x.evidence.proof);
    FactRoundTrip(x.evidence.source);
    TextGood(s[0].item);
    AtomGood(s[1].item);
    AtomGood(s[2].item);
    AtomGood(s[3].item);
    AtomGood(s[4].item);
    AtomGood(s[5].item);
    AtomGood(s[6].item);
    TextGood(s[7].item);
    TextGood(s[8].item);
    TextGood(s[9].item);
  }

  lemma EvidenceFields(x: Exhibit)
    ensures var f, e := PairsOf(Items(EvidenceSlots(x))), x.evidence;
            && Get(f, "target") == Some(UuidText(x.target)) && Get(f, "axis") == Some(AxisAtom(e.axis))
            && Get(f, "outcome") == Some(OutcomeAtom(e.outcome)) && Get(f, "proof") == Some(ProofAtom(e.proof))
            && Get(f, "source") == Some(FactAtom(e.source)) && Get(f, "confidence") == Some(e.origin.confidence)
            && Get(f, "producer") == Some(e.origin.producer) && Get(f, "snapshot") == Some(e.snapshot)
            && Get(f, "observed") == Some(e.origin.observed)
  {
    hide Items, Get, UuidText, StableId, AxisAtom, OutcomeAtom, ProofAtom, FactAtom, Field, DistinctSlots, Bare;
    var s := EvidenceSlots(x);
    EvidenceKeys(x);
    GetSlot(s, 1);
    GetSlot(s, 2);
    GetSlot(s, 3);
    GetSlot(s, 4);
    GetSlot(s, 5);
    GetSlot(s, 6);
    GetSlot(s, 7);
    GetSlot(s, 8);
    GetSlot(s, 9);
  }

  /** Everything but the fingerprint comes back from an evidence line. */
  lemma EvidenceRoundTrip(x: Exhibit)
    requires Bare(x.evidence.origin.confidence)
    ensures ParseEvidence(PairsOf(Items(EvidenceSlots(x)))) == Ok((UuidText(x.target), Reread(x.evidence)))
  {
    hide Items, Get, UuidText, AxisAtom, OutcomeAtom, ProofAtom, FactAtom, ParseAxis, ParseOutcome, ParseProof, ParseFact,
         EvidenceSlots, Bare;
    EvidenceFields(x);
    AxisAtomRoundTrip(x.evidence.axis);
    OutcomeRoundTrip(x.evidence.outcome);
    ProofRoundTrip(x.evidence.proof);
    FactRoundTrip(x.evidence.source);
  }

  // ---- The last of each stable id ----

  function Without(xs: seq<Exhibit>, key: string): seq<Exhibit> {
    if xs == [] then []
    else
      var last := xs[|xs| - 1];
      Without(xs[..|xs| - 1], key) + (if StableId(last) == key then [] else [last])
  }

  /** The exhibits left when each one replaces any earlier one of its stable id. */
  function Final(xs: seq<Exhibit>): seq<Exhibit> {
    if xs == [] then []
    else
      var last := xs[|xs| - 1];
      Without(Final(xs[..|xs| - 1]), StableId(last)) + [last]
  }

  predicate ExhibitOrder(a: Exhibit, b: Exhibit) {
    TextLeq(StableId(a), StableId(b))
  }

  /** The exhibits a file lists, in the order of their stable ids. */
  function Listing(xs: seq<Exhibit>): seq<Exhibit> {
    SortBy(Final(xs), ExhibitOrder)
  }

  function About(xs: seq<Exhibit>, target: Id): seq<Exhibit> {
    if xs == [] then []
    else
      var last := xs[|xs| - 1];
      About(xs[..|xs| - 1], target) + (if last.target == target then [last] else [])
  }

  lemma ExhibitsAreOrdered()
    ensures TotalPreorder(ExhibitOrder)
  {
    forall a: Exhibit, b: Exhibit ensures ExhibitOrder(a, b) || ExhibitOrder(b, a) {
      TextLeqTotal(StableId(a), StableId(b));
    }
    forall a: Exhibit, b: Exhibit, c: Exhibit | ExhibitOrder(a, b) && ExhibitOrder(b, c) ensures ExhibitOrder(a, c) {
      TextLeqTransitive(StableId(a), StableId(b), StableId(c));
    }
  }

  ghost predicate Ascending(xs: seq<Exhibit>) {
    forall i, j :: 0 <= i < j < |xs| ==> ExhibitOrder(xs[i], xs[j]) && StableId(xs[i]) != StableId(xs[j])
  }

  /** Exhibits in ascending order are determined by which they are. */
  lemma {:induction false} AscendingIsUnique(a: seq<Exhibit>, b: seq<Exhibit>)
    requires Ascending(a) && Ascending(b) && forall x :: x in a <==> x in b
    ensures a == b
  {
    hide Ascending;
    if a == [] || b == [] {
      FirstIsMember(a);
      FirstIsMember(b);
    } else {
      SameLast(a, b);
      PrefixAscends(a);
      PrefixAscends(b);
      SameBelow(a, b);
      AscendingIsUnique(a[..|a| - 1], b[..|b| - 1]);
      SameParts(a, b);
    }
  }

  lemma LastApart<T>(xs: seq<T>)
    requires xs != []
    ensures xs[..|xs| - 1] + [xs[|xs| - 1]] == xs
  {
  }

  lemma SameParts<T>(a: seq<T>, b: seq<T>)
    requires a != [] && b != [] && a[..|a| - 1] == b[..|b| - 1] && a[|a| - 1] == b[|b| - 1]
    ensures a == b
  {
    assert a == a[..|a| - 1] + [a[|a| - 1]] && b == b[..|b| - 1] + [b[|b| - 1]];
  }

  lemma SameBelow(a: seq<Exhibit>, b: seq<Exhibit>)
    requires Ascending(a) && Ascending(b) && a != [] && b != [] && a[|a| - 1] == b[|b| - 1]
    requires forall x :: x in a <==> x in b
    ensures var p, q := a[..|a| - 1], b[..|b| - 1];
            forall x :: x in p <==> x in q
  {
    hide Ascending;
    var p, q := a[..|a| - 1], b[..|b| - 1];
    forall x ensures x in p <==> x in q {
      MembersBelow(a, x);
      MembersBelow(b, x);
    }
  }

  lemma PrefixAscends(a: seq<Exhibit>)
    requires Ascending(a) && a != []
    ensures Ascending(a[..|a| - 1])
  {
    hide ExhibitOrder, StableId;
  }

  lemma FirstIsMember(a: seq<Exhibit>)
    ensures a != [] ==> a[0] in a
  {
  }

  lemma MembersBelow(a: seq<Exhibit>, x: Exhibit)
    requires a != [] && Ascending(a)
    ensures x in a[..|a| - 1] <==> x in a && x != a[|a| - 1]
  {
    hide ExhibitOrder, StableId;
    var m := |a| - 1;
    assert a == a[..m] + [a[m]];
    if x in a[..m] {
      var i :| 0 <= i < m && a[i] == x;
    }
  }

  lemma SameLast(a: seq<Exhibit>, b: seq<Exhibit>)
    requires Ascending(a) && Ascending(b) && a != [] && b != [] && forall x :: x in a <==> x in b
    ensures a[|a| - 1] == b[|b| - 1]
  {
    hide ExhibitOrder, StableId;
    var x, y := a[|a| - 1], b[|b| - 1];
    assert x in b && y in a;
    var i :| 0 <= i < |b| && b[i] == x;
    var j :| 0 <= j < |a| && a[j] == y;
    if x != y {
      Antisymmetric(x, y);
    }
  }

  lemma Antisymmetric(x: Exhibit, y: Exhibit)
    ensures ExhibitOrder(x, y) && ExhibitOrder(y, x) ==> StableId(x) == StableId(y)
  {
    TextLeqTotal(StableId(x), StableId(y));
    hide StableId;
  }

  lemma {:induction false} WithoutMembers(xs: seq<Exhibit>, key: string)
    ensures forall x :: x in Without(xs, key) <==> x in xs && StableId(x) != key
  {
    hide StableId;
    if xs != [] {
      var n := |xs| - 1;
      WithoutMembers(xs[..n], key);
      assert xs == xs[..n] + [xs[n]];
    }
  }

  /** No stable id is left twice. */
  lemma {:induction false} WithoutKeepsDistinct(xs: seq<Exhibit>, key: string)
    requires DistinctKeys(xs, StableId)
    ensures DistinctKeys(Without(xs, key), StableId)
  {
    hide StableId;
    if xs != [] {
      var n := |xs| - 1;
      WithoutKeepsDistinct(xs[..n], key);
      WithoutMembers(xs[..n], key);
      if StableId(xs[n]) != key {
        AppendDistinct(Without(xs[..n], key), xs[n]);
      } else {
        assert Without(xs[..n], key) + [] == Without(xs[..n], key);
      }
    }
  }

  lemma AppendDistinct(xs: seq<Exhibit>, x: Exhibit)
    requires DistinctKeys(xs, StableId) && forall y :: y in xs ==> StableId(y) != StableId(x)
    ensures DistinctKeys(xs + [x], StableId)
  {
    hide StableId;
  }

  lemma {:induction false} FinalIsDistinct(xs: seq<Exhibit>)
    ensures DistinctKeys(Final(xs), StableId)
  {
    hide StableId, Without;
    if xs != [] {
      var n := |xs| - 1;
      FinalIsDistinct(xs[..n]);
      WithoutKeepsDistinct(Final(xs[..n]), StableId(xs[n]));
      WithoutMembers(Final(xs[..n]), StableId(xs[n]));
      AppendDistinct(Without(Final(xs[..n]), StableId(xs[n])), xs[n]);
    }
  }

  lemma SortedIsAscending(xs: seq<Exhibit>)
    requires DistinctKeys(xs, StableId)
    ensures Ascending(SortBy(xs, ExhibitOrder)) && forall x :: x in SortBy(xs, ExhibitOrder) <==> x in xs
  {
    ExhibitsAreOrdered();
    SortBySorts(xs, ExhibitOrder);
    var sorted := SortBy(xs, ExhibitOrder);
    hide TotalPreorder, ExhibitOrder, StableId, SortBy;
    DistinctAnyOrder(xs, sorted, StableId);
    forall x ensures x in sorted <==> x in xs {
      assert x in multiset(sorted) <==> x in multiset(xs);
    }
  }

  lemma ListingIs(xs: seq<Exhibit>)
    ensures Ascending(Listing(xs)) && forall x :: x in Listing(xs) <==> x in Final(xs)
  {
    FinalIsDistinct(xs);
    SortedIsAscending(Final(xs));
  }

  // ---- One target's part of the listing ----

  lemma {:induction false} AboutMembers(xs: seq<Exhibit>, target: Id)
    ensures forall x :: x in About(xs, target) <==> x in xs && x.target == target
  {
    if xs != [] {
      var n := |xs| - 1;
      AboutMembers(xs[..n], target);
      assert xs == xs[..n] + [xs[n]];
    }
  }

  lemma {:induction false} AboutTogether(a: seq<Exhibit>, b: seq<Exhibit>, target: Id)
    ensures About(a + b, target) == About(a, target) + About(b, target)
    decreases |b|
  {
    if b == [] {
      assert a + b == a && About(a, target) + [] == About(a, target);
    } else {
      var n := |b| - 1;
      AboutTogether(a, b[..n], target);
      assert (a + b)[..|a + b| - 1] == a + b[..n];
    }
  }

  lemma {:induction false} AboutIsAscending(xs: seq<Exhibit>, target: Id)
    requires Ascending(xs)
    ensures Ascending(About(xs, target))
  {
    hide ExhibitOrder, StableId;
    if xs != [] {
      var n := |xs| - 1;
      AboutIsAscending(xs[..n], target);
      AboutMembers(xs[..n], target);
      var before := About(xs[..n], target);
      forall x | x in before ensures ExhibitOrder(x, xs[n]) && StableId(x) != StableId(xs[n]) {
        var i :| 0 <= i < n && xs[i] == x;
      }
      assert before + [] == before;
    }
  }

  /** The spelling of the target opens the stable id. */
  lemma StableIdNamesTarget(x: Exhibit, y: Exhibit)
    requires StableId(x) == StableId(y)
    ensures x.target == y.target
  {
    var a, b := UuidText(x.target), UuidText(y.target);
    assert |a| == |b|;
    assert a == StableId(x)[..|a|] && b == StableId(y)[..|b|];
    hide StableId, UuidText;
    UuidTextIsUnique(x.target, y.target);
  }

  lemma WithoutNext(xs: seq<Exhibit>, x: Exhibit, key: string)
    ensures Without(xs + [x], key) == if StableId(x) == key then Without(xs, key) else Without(xs, key) + [x]
  {
    hide StableId;
    assert (xs + [x])[..|xs|] == xs;
  }

  lemma AboutNext(xs: seq<Exhibit>, x: Exhibit, target: Id)
    ensures About(xs + [x], target) == if x.target == target then About(xs, target) + [x] else About(xs, target)
  {
    assert (xs + [x])[..|xs|] == xs;
  }

  lemma {:induction false} AboutWithout(xs: seq<Exhibit>, last: Exhibit, target: Id)
    ensures About(Without(xs, StableId(last)), target) ==
            if last.target == target then Without(About(xs, target), StableId(last)) else About(xs, target)
    decreases |xs|
  {
    if xs == [] {
      NothingWithout(last, target);
    } else {
      hide Without, About, StableId;
      var n := |xs| - 1;
      AboutWithout(xs[..n], last, target);
      AboutWithoutStep(xs[..n], xs[n], last, target);
      LastApart(xs);
    }
  }

  lemma NothingWithout(last: Exhibit, target: Id)
    ensures About(Without([], StableId(last)), target) == [] && Without(About([], target), StableId(last)) == []
  {
    hide StableId;
  }

  lemma AboutWithoutStep(xs: seq<Exhibit>, x: Exhibit, last: Exhibit, target: Id)
    requires About(Without(xs, StableId(last)), target) ==
             if last.target == target then Without(About(xs, target), StableId(last)) else About(xs, target)
    ensures About(Without(xs + [x], StableId(last)), target) ==
            if last.target == target then Without(About(xs + [x], target), StableId(last)) else About(xs + [x], target)
  {
    hide StableId, About, Without;
    var key := StableId(last);
    WithoutNext(xs, x, key);
    AboutNext(Without(xs, key), x, target);
    AboutNext(xs, x, target);
    WithoutNext(About(xs, target), x, key);
    if StableId(x) == key {
      StableIdNamesTarget(x, last);
    }
  }

  lemma {:induction false} AboutFinal(xs: seq<Exhibit>, target: Id)
    ensures About(Final(xs), target) == Final(About(xs, target))
  {
    if xs == [] {
      NothingFinal(target);
    } else {
      hide Final, About;
      var n := |xs| - 1;
      AboutFinal(xs[..n], target);
      AboutFinalStep(xs[..n], xs[n], target);
      LastApart(xs);
    }
  }

  lemma NothingFinal(target: Id)
    ensures About(Final([]), target) == Final(About([], target))
  {
  }

  lemma FinalNext(xs: seq<Exhibit>, x: Exhibit)
    ensures Final(xs + [x]) == Without(Final(xs), StableId(x)) + [x]
  {
    hide StableId;
    assert (xs + [x])[..|xs|] == xs;
  }

  lemma AboutFinalStep(xs: seq<Exhibit>, x: Exhibit, target: Id)
    requires About(Final(xs), target) == Final(About(xs, target))
    ensures About(Final(xs + [x]), target) == Final(About(xs + [x], target))
  {
    hide StableId, About, Without, Final;
    FinalNext(xs, x);
    AboutNext(Without(Final(xs), StableId(x)), x, target);
    AboutWithout(Final(xs), x, target);
    AboutNext(xs, x, target);
    FinalNext(About(xs, target), x);
  }

  /** One target's part of the whole listing is the listing of its own exhibits. */
  lemma AboutListing(xs: seq<Exhibit>, target: Id)
    ensures About(Listing(xs), target) == Listing(About(xs, target))
  {
    hide Final, About, Listing, ExhibitOrder, StableId;
    ListingIs(xs);
    AboutIsAscending(Listing(xs), target);
    ListingIs(About(xs, target));
    AboutFinal(xs, target);
    AboutMembers(Listing(xs), target);
    AboutMembers(Final(xs), target);
    AscendingIsUnique(About(Listing(xs), target), Listing(About(xs, target)));
  }

  lemma {:induction false} FinalMembers(xs: seq<Exhibit>)
    ensures forall x :: x in Final(xs) ==> x in xs
  {
    hide StableId, Without;
    if xs != [] {
      var n := |xs| - 1;
      FinalMembers(xs[..n]);
      WithoutMembers(Final(xs[..n]), StableId(xs[n]));
    }
  }

  function RereadAll(xs: seq<Exhibit>): (r: seq<Evidence>)
    ensures |r| == |xs| && forall i :: 0 <= i < |xs| ==> r[i] == Reread(xs[i].evidence)
  {
    seq(|xs|, i requires 0 <= i < |xs| => Reread(xs[i].evidence))
  }
}
