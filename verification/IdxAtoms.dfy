/** The atoms of the IDX format: stable ids, enumeration names, flags and lists of ids, each with
    its reader. */
module IdxAtoms {
  import opened Atlas
  import opened IdxText

  // ---- Stable ids: 32 hexadecimal digits in five groups ----

  function HexText(n: nat, k: nat): (s: string)
    ensures |s| == k
  {
    if k == 0 then "" else HexText(n / 16, k - 1) + [Hex(n % 16)]
  }

  function HexNumber(s: string): (r: Option<int>)
    ensures r.Some? ==> 0 <= r.value < Sixteen(|s|)
  {
    if s == "" then Some(0)
    else
      var n := |s| - 1;
      match HexNumber(s[..n])
      case None => None
      case Some(high) =>
        match HexValue(s[n])
        case None => None
        case Some(low) => Some(high * 16 + low)
  }

  function Sixteen(k: nat): (r: nat)
    ensures r >= 1
  {
    if k == 0 then 1 else 16 * Sixteen(k - 1)
  }

  lemma SixteenTo32()
    ensures Sixteen(32) == 0x1_0000_0000_0000_0000_0000_0000_0000_0000
  {
    assert Sixteen(8) == 0x1_0000_0000;
    assert Sixteen(16) == 0x1_0000_0000_0000_0000;
    assert Sixteen(24) == 0x1_0000_0000_0000_0000_0000_0000;
  }

  lemma {:induction false} HexNumberRoundTrip(n: nat, k: nat)
    requires n < Sixteen(k)
    ensures HexNumber(HexText(n, k)) == Some(n as int)
  {
    if k > 0 {
      HexNumberRoundTrip(n / 16, k - 1);
      HexRoundTrip(n % 16);
      var s := HexText(n, k);
      assert s[..k - 1] == HexText(n / 16, k - 1);
    }
  }

  lemma {:induction false} HexTextIsBare(n: nat, k: nat)
    ensures forall i :: 0 <= i < k ==> BareChar(HexText(n, k)[i])
  {
    if k > 0 {
      HexTextIsBare(n / 16, k - 1);
      HexRoundTrip(n % 16);
    }
  }

  function Grouped(h: string): (s: string)
    requires |h| == 32
    ensures |s| == 36
  {
    h[..8] + "-" + h[8..12] + "-" + h[12..16] + "-" + h[16..20] + "-" + h[20..]
  }

  function Ungrouped(s: string): (h: string)
    requires |s| == 36
    ensures |h| == 32
  {
    s[..8] + s[9..13] + s[14..18] + s[19..23] + s[24..]
  }

  lemma UngroupGrouped(h: string)
    requires |h| == 32
    ensures Ungrouped(Grouped(h)) == h
    ensures Grouped(h)[8] == '-' && Grouped(h)[13] == '-' && Grouped(h)[18] == '-' && Grouped(h)[23] == '-'
  {
    var s := Grouped(h);
    assert s[..8] == h[..8] && s[9..13] == h[8..12] && s[14..18] == h[12..16];
    assert s[19..23] == h[16..20] && s[24..] == h[20..];
  }

  function UuidText(id: Id): (s: string)
    ensures |s| == 36
  {
    Grouped(HexText(id as nat, 32))
  }

  /** The hyphenated spelling. */
  function ParseUuid(s: string): Option<Id> {
    if |s| != 36 || s[8] != '-' || s[13] != '-' || s[18] != '-' || s[23] != '-' then None
    else
      match HexNumber(Ungrouped(s))
      case None => None
      case Some(n) => SixteenTo32(); Some(n as Id)
  }

  lemma UuidRoundTrip(id: Id)
    ensures ParseUuid(UuidText(id)) == Some(id)
  {
    SixteenTo32();
    HexNumberRoundTrip(id as nat, 32);
    UngroupGrouped(HexText(id as nat, 32));
    hide HexText, HexNumber, Grouped, Ungrouped, Sixteen;
  }

  lemma UuidTextIsUnique(a: Id, b: Id)
    requires UuidText(a) == UuidText(b)
    ensures a == b
  {
    UuidRoundTrip(a);
    UuidRoundTrip(b);
  }

  lemma GroupedBare(h: string)
    requires |h| == 32 && forall i :: 0 <= i < |h| ==> BareChar(h[i])
    ensures Bare(Grouped(h))
  {
    var s := Grouped(h);
    forall i | 0 <= i < |s| ensures BareChar(s[i]) {
      assert s[i] == if i < 8 then h[i] else if i == 8 then '-' else if i < 13 then h[i - 1] else if i == 13 then '-'
                     else if i < 18 then h[i - 2] else if i == 18 then '-' else if i < 23 then h[i - 3]
                     else if i == 23 then '-' else h[i - 4];
    }
  }

  lemma UuidTextIsBare(id: Id)
    ensures Bare(UuidText(id))
  {
    HexTextIsBare(id as nat, 32);
    hide HexText, Grouped, Bare;
    GroupedBare(HexText(id as nat, 32));
  }

  // ---- Enumerations ----

  function ScaleAtom(s: Scale): string {
    match s
    case Universe => "universe"
    case Galaxy => "galaxy"
    case System => "system"
    case Planet => "planet"
    case Moon => "moon"
  }

  function ParseScale(v: string): Option<Scale> {
    if v == "universe" then Some(Universe)
    else if v == "galaxy" then Some(Galaxy)
    else if v == "system" then Some(System)
    else if v == "planet" then Some(Planet)
    else if v == "moon" then Some(Moon)
    else None
  }

  lemma ScaleRoundTrip(s: Scale)
    ensures ParseScale(ScaleAtom(s)) == Some(s) && Bare(ScaleAtom(s))
  {
  }

  function KindAtom(k: Kind): string {
    match k
    case Registry => "registry"
    case Product => "product"
    case Repository => "repository"
    case Program => "program"
    case Subsystem => "subsystem"
    case Module => "module"
    case Package => "package"
    case Service => "service"
    case Component => "component"
    case File => "file"
    case Type => "type"
    case Function => "function"
    case Test => "test"
    case Resource => "resource"
  }

  function ParseKind(v: string): Option<Kind> {
    if v == "registry" then Some(Registry)
    else if v == "product" then Some(Product)
    else if v == "repository" then Some(Repository)
    else if v == "program" then Some(Program)
    else if v == "subsystem" then Some(Subsystem)
    else if v == "module" then Some(Module)
    else if v == "package" then Some(Package)
    else if v == "service" then Some(Service)
    else if v == "component" then Some(Component)
    else if v == "file" then Some(File)
    else if v == "type" then Some(Type)
    else if v == "function" then Some(Function)
    else if v == "test" then Some(Test)
    else if v == "resource" then Some(Resource)
    else None
  }

  lemma KindRoundTrip(k: Kind)
    ensures ParseKind(KindAtom(k)) == Some(k) && Bare(KindAtom(k))
  {
  }

  function RelationshipAtom(x: RelationshipKind): string {
    match x
    case Contains => "contains"
    case Imports => "imports"
    case Calls => "calls"
    case References => "references"
    case Implements => "implements"
    case Conforms => "conforms"
    case Tests => "tests"
    case Configures => "configures"
    case Deploys => "deploys"
    case Produces => "produces"
    case Consumes => "consumes"
    case Shares => "shares"
    case Supersedes => "supersedes"
    case Conflicts => "conflicts"
    case Duplicates => "duplicates"
    case Resembles => "resembles"
  }

  function ParseRelationship(v: string): Option<RelationshipKind> {
    if v == "contains" then Some(Contains)
    else if v == "imports" then Some(Imports)
    else if v == "calls" then Some(Calls)
    else if v == "references" then Some(References)
    else if v == "implements" then Some(Implements)
    else if v == "conforms" then Some(Conforms)
    else if v == "tests" then Some(Tests)
    else if v == "configures" then Some(Configures)
    else if v == "deploys" then Some(Deploys)
    else if v == "produces" then Some(Produces)
    else if v == "consumes" then Some(Consumes)
    else if v == "shares" then Some(Shares)
    else if v == "supersedes" then Some(Supersedes)
    else if v == "conflicts" then Some(Conflicts)
    else if v == "duplicates" then Some(Duplicates)
    else if v == "resembles" then Some(Resembles)
    else None
  }

  lemma RelationshipRoundTrip(x: RelationshipKind)
    ensures ParseRelationship(RelationshipAtom(x)) == Some(x) && Bare(RelationshipAtom(x))
  {
    RelationshipIsBare(x);
    hide Bare;
  }

  lemma RelationshipIsBare(x: RelationshipKind)
    ensures Bare(RelationshipAtom(x))
  {
  }

  function PlaneAtom(x: Plane): string {
    match x
    case DeclaredPlane => "declared"
    case ObservedPlane => "observed"
    case InferredPlane => "inferred"
  }

  function ParsePlane(v: string): Option<Plane> {
    if v == "declared" then Some(DeclaredPlane)
    else if v == "observed" then Some(ObservedPlane)
    else if v == "inferred" then Some(InferredPlane)
    else None
  }

  lemma PlaneRoundTrip(x: Plane)
    ensures ParsePlane(PlaneAtom(x)) == Some(x) && Bare(PlaneAtom(x))
  {
  }

  function DirectionAtom(x: Direction): string {
    match x
    case Requires => "requires"
    case Provides => "provides"
  }

  function ParseDirection(v: string): Option<Direction> {
    if v == "requires" then Some(Requires)
    else if v == "provides" then Some(Provides)
    else None
  }

  lemma DirectionRoundTrip(x: Direction)
    ensures ParseDirection(DirectionAtom(x)) == Some(x) && Bare(DirectionAtom(x))
  {
  }

  function BasisAtom(x: Basis): string {
    match x
    case Unique => "unique"
    case Ranked => "ranked"
  }

  function ParseBasis(v: string): Option<Basis> {
    if v == "unique" then Some(Unique)
    else if v == "ranked" then Some(Ranked)
    else None
  }

  lemma BasisRoundTrip(x: Basis)
    ensures ParseBasis(BasisAtom(x)) == Some(x) && Bare(BasisAtom(x))
  {
  }

  function StatusAtom(x: FitStatus): string {
    match x
    case Unconfirmed => "unconfirmed"
    case Confirmed => "confirmed"
    case Rejected => "rejected"
  }

  function ParseStatus(v: string): Option<FitStatus> {
    if v == "unconfirmed" then Some(Unconfirmed)
    else if v == "confirmed" then Some(Confirmed)
    else if v == "rejected" then Some(Rejected)
    else None
  }

  lemma StatusRoundTrip(x: FitStatus)
    ensures ParseStatus(StatusAtom(x)) == Some(x) && Bare(StatusAtom(x))
  {
  }

  function FitProofAtom(x: FitProof): string {
    match x
    case ByTypecheck => "typecheck"
    case ByBuild => "build"
    case ByTest => "test"
    case ByHuman => "human"
  }

  function ParseFitProof(v: string): Option<FitProof> {
    if v == "typecheck" then Some(ByTypecheck)
    else if v == "build" then Some(ByBuild)
    else if v == "test" then Some(ByTest)
    else if v == "human" then Some(ByHuman)
    else None
  }

  lemma FitProofRoundTrip(x: FitProof)
    ensures ParseFitProof(FitProofAtom(x)) == Some(x) && Bare(FitProofAtom(x))
  {
  }

  function FitPlaneAtom(x: FitPlane): string {
    match x
    case InferredFit => "inferred"
    case ObservedFit => "observed"
  }

  function ParseFitPlane(v: string): Option<FitPlane> {
    if v == "inferred" then Some(InferredFit)
    else if v == "observed" then Some(ObservedFit)
    else None
  }

  lemma FitPlaneRoundTrip(x: FitPlane)
    ensures ParseFitPlane(FitPlaneAtom(x)) == Some(x) && Bare(FitPlaneAtom(x))
  {
  }

  function ProofPathAtom(x: ProofPath): string {
    match x
    case Unchecked => "unchecked"
    case Available => "available"
    case Unavailable => "unavailable"
  }

  function ParseProofPath(v: string): Option<ProofPath> {
    if v == "unchecked" then Some(Unchecked)
    else if v == "available" then Some(Available)
    else if v == "unavailable" then Some(Unavailable)
    else None
  }

  lemma ProofPathRoundTrip(x: ProofPath)
    ensures ParseProofPath(ProofPathAtom(x)) == Some(x) && Bare(ProofPathAtom(x))
  {
  }

  function ReasonAtom(x: HoleReason): string {
    match x
    case NoMatch => "no_match"
    case Ambiguous => "ambiguous"
  }

  function ParseReason(v: string): Option<HoleReason> {
    if v == "no_match" then Some(NoMatch)
    else if v == "ambiguous" then Some(Ambiguous)
    else None
  }

  lemma ReasonRoundTrip(x: HoleReason)
    ensures ParseReason(ReasonAtom(x)) == Some(x) && Bare(ReasonAtom(x))
  {
  }

  function FlagAtom(x: bool): string {
    match x
    case true => "true"
    case false => "false"
  }

  function ParseFlag(v: string): Option<bool> {
    if v == "true" then Some(true)
    else if v == "false" then Some(false)
    else None
  }

  lemma FlagRoundTrip(x: bool)
    ensures ParseFlag(FlagAtom(x)) == Some(x) && Bare(FlagAtom(x))
  {
  }

  /** The short spelling of a code. */
  function CodeAtom(c: Code): string {
    match c
    case Unknown => "U"
    case Red => "R"
    case Yellow => "Y"
    case Green => "G"
  }

  /** Short and long spellings are both read. */
  function ParseCode(v: string): Option<Code> {
    if v == "G" || v == "green" then Some(Green)
    else if v == "Y" || v == "yellow" then Some(Yellow)
    else if v == "R" || v == "red" then Some(Red)
    else if v == "U" || v == "unknown" then Some(Unknown)
    else None
  }

  lemma CodeRoundTrip(c: Code)
    ensures ParseCode(CodeAtom(c)) == Some(c) && Bare(CodeAtom(c))
  {
  }

  /** No checker is written as `none`. */
  function CheckedByAtom(p: Option<FitProof>): string {
    if p.Some? then FitProofAtom(p.value) else "none"
  }

  function ParseCheckedBy(v: string): Option<Option<FitProof>> {
    if v == "none" then Some(None)
    else
      match ParseFitProof(v)
      case None => None
      case Some(p) => Some(Some(p))
  }

  lemma CheckedByRoundTrip(p: Option<FitProof>)
    ensures ParseCheckedBy(CheckedByAtom(p)) == Some(p) && Bare(CheckedByAtom(p))
  {
    if p.Some? {
      FitProofRoundTrip(p.value);
    }
  }

  // ---- Lists of ids: JSON arrays of strings ----

  function More(ids: seq<Id>): string {
    if ids == [] then "]" else "," + Quoted(UuidText(ids[0])) + More(ids[1..])
  }

  function IdArray(ids: seq<Id>): string {
    if ids == [] then "[]" else "[" + Quoted(UuidText(ids[0])) + More(ids[1..])
  }

  function SkipBlanks(s: string): (r: string)
    ensures |r| <= |s|
  {
    if s != "" && Blank(s[0]) then SkipBlanks(s[1..]) else s
  }

  lemma {:induction false} BodyShrinks(s: string)
    ensures Body(s).Some? ==> |Body(s).value.rest| < |s|
    decreases |s|
  {
    if s != "" && s[0] != '"' {
      if s[0] == '\\' {
        var u := Unescape(s[1..]);
        if u.Some? && |s| >= 1 + u.value.1 {
          BodyShrinks(s[1 + u.value.1..]);
        }
      } else {
        BodyShrinks(s[1..]);
      }
    }
  }

  /** The elements after the opening bracket or a comma. */
  function Elements(s: string): Option<seq<Id>>
    decreases |s|
  {
    var t := SkipBlanks(s);
    if t == "" || t[0] != '"' || Body(t[1..]).None? then None
    else
      BodyShrinks(t[1..]);
      var word := Body(t[1..]).value;
      var rest := SkipBlanks(word.rest);
      if ParseUuid(word.value).None? || rest == "" then None
      else if rest[0] == ']' then
        (if SkipBlanks(rest[1..]) == "" then Some([ParseUuid(word.value).value]) else None)
      else if rest[0] != ',' then None
      else
        match Elements(rest[1..])
        case None => None
        case Some(more) => Some([ParseUuid(word.value).value] + more)
  }

  function ParseIdArray(s: string): Option<seq<Id>> {
    var t := SkipBlanks(s);
    if t == "" || t[0] != '[' then None
    else
      var rest := SkipBlanks(t[1..]);
      if rest != "" && rest[0] == ']' then (if SkipBlanks(rest[1..]) == "" then Some([]) else None)
      else Elements(t[1..])
  }

  lemma ElementBody(id: Id, rest: string)
    ensures var s := Quoted(UuidText(id)) + rest;
            && s[0] == '"' && Body(s[1..]) == Some(Read(UuidText(id), rest))
  {
    BodyRoundTrip(UuidText(id), rest);
    hide Body, Escaped, UuidText;
    var s := Quoted(UuidText(id)) + rest;
    assert s[1..] == Escaped(UuidText(id)) + ("\"" + rest);
  }

  lemma {:induction false} ElementsRoundTrip(ids: seq<Id>)
    requires ids != []
    ensures Elements(Quoted(UuidText(ids[0])) + More(ids[1..])) == Some(ids)
    decreases |ids|
  {
    hide Body, Quoted, UuidText, ParseUuid;
    var s := Quoted(UuidText(ids[0])) + More(ids[1..]);
    ElementBody(ids[0], More(ids[1..]));
    UuidRoundTrip(ids[0]);
    assert SkipBlanks(s) == s;
    if |ids| == 1 {
      assert More(ids[1..]) == "]" && "]"[1..] == "";
      assert ids == [ids[0]];
    } else {
      ElementsRoundTrip(ids[1..]);
      var rest := More(ids[1..]);
      assert rest[1..] == Quoted(UuidText(ids[1..][0])) + More(ids[1..][1..]);
      assert ids == [ids[0]] + ids[1..];
    }
  }

  lemma EmptyArray()
    ensures ParseIdArray("[]") == Some([])
  {
    hide Elements;
    assert "[]"[1..] == "]" && "]"[1..] == "";
  }

  lemma OpenArray(s: string)
    requires s != "" && s[0] == '"'
    ensures ParseIdArray("[" + s) == Elements(s)
  {
    hide Elements;
    assert ("[" + s)[1..] == s;
  }

  lemma IdArrayRoundTrip(ids: seq<Id>)
    ensures ParseIdArray(IdArray(ids)) == Some(ids)
  {
    hide Elements, More, UuidText, ParseIdArray, Escaped;
    if ids == [] {
      EmptyArray();
    } else {
      ElementsRoundTrip(ids);
      var s := Quoted(UuidText(ids[0])) + More(ids[1..]);
      assert IdArray(ids) == "[" + s;
      OpenArray(s);
    }
  }
}
