/** What a scan keeps of a tree before it builds any entity (`ScanIndex` of `scan.rs`), and the
    two kinds of edge it asserts from it. */
module ScanIndex {
  import opened Atlas

  /** A scanned file: its path as components, the kind, language family and lower-cased stem its
      name suggests, and the tokens of its import lines. */
  datatype FileEntry = FileEntry(id: Id, path: seq<string>, kind: Kind, fingerprint: string,
                                 family: Option<string>, stem: string, tokens: seq<string>)

  /** The files, the ids the index assigns to groups, and the hash that names an edge. */
  datatype Index = Index(files: seq<FileEntry>, universe: Entity, galaxy: Entity, systemIds: map<string, Id>,
                         planetIds: map<string, Id>, edgeId: (Id, Id, RelationshipKind) -> Id, snapshot: string)

  function ContainsEdge(x: Index, source: Id, target: Id): Edge {
    Edge(x.edgeId(source, target, Contains), source, target, Contains, DeclaredPlane, true, [],
         [Scanned(Integration, Metadata, x.snapshot, "creature-context-scanner", "1")], "scanner", "1")
  }

  function ImportEdge(x: Index, source: Id, target: Id): Edge {
    Edge(x.edgeId(source, target, Imports), source, target, Imports, ObservedPlane, false, [],
         [Scanned(Integration, Syntax, x.snapshot, "creature-context-import-scanner", "0.7")], "scanner", "0.7")
  }

  /** The ids the index gives out: to the roots, the groups and the files. */
  ghost predicate Held(x: Index, id: Id) {
    || id == x.universe.id || id == x.galaxy.id || id in x.systemIds.Values || id in x.planetIds.Values
    || exists f :: f in x.files && f.id == id
  }

  /** Among those, edge ids tell edges apart. */
  ghost predicate EdgeIdsDistinct(x: Index) {
    forall a, b, k, c, d, l :: Held(x, a) && Held(x, b) && Held(x, c) && Held(x, d) && x.edgeId(a, b, k) == x.edgeId(c, d, l) ==>
      a == c && b == d && k == l
  }

  // ---- Such a hash exists ----

  const SHORT := 0x1000_0000_0000_0000

  function Ordinal(k: RelationshipKind): (n: nat)
    ensures n < 16
  {
    match k
    case Contains => 0
    case Imports => 1
    case Calls => 2
    case References => 3
    case Implements => 4
    case Conforms => 5
    case Tests => 6
    case Configures => 7
    case Deploys => 8
    case Produces => 9
    case Consumes => 10
    case Shares => 11
    case Supersedes => 12
    case Conflicts => 13
    case Duplicates => 14
    case Resembles => 15
  }

  /** Two short ids and a kind side by side in one id. */
  function Paired(a: Id, b: Id, k: RelationshipKind): Id {
    if (a as int) < SHORT && (b as int) < SHORT then ((a as int * SHORT + b as int) * 16 + Ordinal(k)) as Id else 0
  }

  lemma OrdinalsDiffer(k: RelationshipKind, l: RelationshipKind)
    requires Ordinal(k) == Ordinal(l)
    ensures k == l
  {
  }

  lemma KindBeside(a: int, b: int, c: int, d: int)
    requires 0 <= b < 16 && 0 <= d < 16 && a * 16 + b == c * 16 + d
    ensures a == c && b == d
  {
  }

  lemma EndsBeside(a: int, b: int, c: int, d: int)
    requires 0 <= b < SHORT && 0 <= d < SHORT && a * SHORT + b == c * SHORT + d
    ensures a == c && b == d
  {
  }

  /** Any index of short ids can name its edges distinctly. */
  lemma EdgeIdsExist(x: Index)
    requires forall id :: Held(x, id) ==> (id as int) < SHORT
    ensures EdgeIdsDistinct(x.(edgeId := Paired))
  {
    var y := x.(edgeId := Paired);
    forall id: Id ensures Held(y, id) <==> Held(x, id) {
    }
    hide Held, Ordinal;
    forall a, b, k, c, d, l | Held(y, a) && Held(y, b) && Held(y, c) && Held(y, d) && y.edgeId(a, b, k) == y.edgeId(c, d, l)
      ensures a == c && b == d && k == l
    {
      KindBeside(a as int * SHORT + b as int, Ordinal(k), c as int * SHORT + d as int, Ordinal(l));
      EndsBeside(a as int, b as int, c as int, d as int);
      OrdinalsDiffer(k, l);
    }
  }

  lemma FileIsHeld(x: Index, f: FileEntry)
    requires f in x.files
    ensures Held(x, f.id)
  {
  }
}
