/** Lexical import edges (`import_edges` of `scan.rs`): a token on an import line names the one
    file of the same language family with that stem, and nobody when several files claim it. */
module ImportEdges {
  import opened Atlas
  import opened ScanIndex

  predicate Claims(f: FileEntry, family: string, stem: string) {
    f.family == Some(family) && f.stem == stem
  }

  /** File `i` claims the stem and no other file does. */
  ghost predicate SoleOwner(files: seq<FileEntry>, family: string, stem: string, i: int) {
    && 0 <= i < |files| && Claims(files[i], family, stem)
    && forall j :: 0 <= j < |files| && Claims(files[j], family, stem) ==> j == i
  }

  /** The ids of the files claiming a stem, in scan order. */
  function Owners(files: seq<FileEntry>, family: string, stem: string): seq<Id> {
    if files == [] then []
    else
      var last := files[|files| - 1];
      Owners(files[..|files| - 1], family, stem) + (if Claims(last, family, stem) then [last.id] else [])
  }

  lemma {:induction false} NoOwners(files: seq<FileEntry>, family: string, stem: string)
    ensures Owners(files, family, stem) == [] <==> forall f :: f in files ==> !Claims(f, family, stem)
  {
    if files != [] {
      var n := |files| - 1;
      NoOwners(files[..n], family, stem);
      assert files == files[..n] + [files[n]];
    }
  }

  /** The list names one id exactly when one file alone claims the stem. */
  lemma {:induction false} OwnerIsSole(files: seq<FileEntry>, family: string, stem: string, id: Id)
    ensures Owners(files, family, stem) == [id] <==>
            exists i :: SoleOwner(files, family, stem, i) && files[i].id == id
  {
    if files != [] {
      var n := |files| - 1;
      var before, last := files[..n], files[n];
      NoOwners(before, family, stem);
      OwnerIsSole(before, family, stem, id);
      hide Claims;
      if Claims(last, family, stem) {
        LastIsSole(files, family, stem);
        assert Owners(files, family, stem) == Owners(before, family, stem) + [last.id];
        AloneIff(Owners(before, family, stem), last.id, id);
      } else {
        forall i ensures SoleOwner(files, family, stem, i) <==> SoleOwner(before, family, stem, i) {
          assert forall j :: 0 <= j < n ==> before[j] == files[j];
        }
      }
    }
  }

  lemma AloneIff(before: seq<Id>, last: Id, id: Id)
    ensures before + [last] == [id] <==> before == [] && last == id
  {
    assert |before + [last]| == |before| + 1 && (before + [last])[|before|] == last;
  }

  lemma LastIsSole(files: seq<FileEntry>, family: string, stem: string)
    requires files != [] && Claims(files[|files| - 1], family, stem)
    ensures var n := |files| - 1;
            (forall i :: SoleOwner(files, family, stem, i) ==> i == n)
            && (SoleOwner(files, family, stem, n) <==> forall f :: f in files[..n] ==> !Claims(f, family, stem))
  {
    hide Claims;
    var n := |files| - 1;
    if SoleOwner(files, family, stem, n) {
      forall f | f in files[..n] ensures !Claims(f, family, stem) {
        var j :| 0 <= j < n && files[j] == f;
      }
    }
    assert forall j :: 0 <= j < n ==> files[j] in files[..n];
  }

  /** A token of `f` names `target`: another file, of the same family, alone with that stem. */
  ghost predicate Names(files: seq<FileEntry>, f: FileEntry, token: string, target: Id) {
    && f.family.Some? && target != f.id
    && exists i :: SoleOwner(files, f.family.value, token, i) && files[i].id == target
  }

  ghost predicate ImportedBy(files: seq<FileEntry>, f: FileEntry, target: Id) {
    exists token :: token in f.tokens && Names(files, f, token, target)
  }

  /** The import edges of an index, in ascending order of their ids. */
  ghost predicate ImportList(x: Index, edges: seq<Edge>) {
    && (forall i, j :: 0 <= i < j < |edges| ==> edges[i].id < edges[j].id)
    && (forall e :: e in edges <==> IsImport(x, x.files, e))
  }

  /** `e` leads from one of `files` to what one of its tokens names in the whole index. */
  ghost predicate IsImport(x: Index, files: seq<FileEntry>, e: Edge) {
    exists f, t :: f in files && ImportedBy(x.files, f, t) && e == ImportEdge(x, f.id, t)
  }

  // ---- The scan for imports ----

  type Stems = map<(string, string), seq<Id>>

  function At(owners: Stems, family: string, stem: string): seq<Id> {
    if (family, stem) in owners then owners[(family, stem)] else []
  }

  lemma OwnersStep(files: seq<FileEntry>, i: int, family: string, stem: string)
    requires 0 <= i <= |files|
    ensures i == 0 ==> Owners(files[..i], family, stem) == []
    ensures i < |files| ==> Owners(files[..i + 1], family, stem) ==
                            Owners(files[..i], family, stem) + (if Claims(files[i], family, stem) then [files[i].id] else [])
  {
    if i < |files| {
      assert files[..i + 1][..i] == files[..i];
    }
  }

  method StemOwners(files: seq<FileEntry>) returns (owners: Stems)
    ensures forall g, s :: At(owners, g, s) == Owners(files, g, s)
  {
    hide Owners;
    owners := map[];
    forall g, s { OwnersStep(files, 0, g, s); }
    for i := 0 to |files|
      invariant forall g, s :: At(owners, g, s) == Owners(files[..i], g, s)
    {
      var file := files[i];
      ghost var before := owners;
      if file.family.Some? {
        var family := file.family.value;
        owners := owners[(family, file.stem) := At(owners, family, file.stem) + [file.id]];
      }
      forall g, s ensures At(owners, g, s) == Owners(files[..i + 1], g, s) {
        assert At(owners, g, s) == At(before, g, s) + (if Claims(file, g, s) then [file.id] else []);
        OwnersStep(files, i, g, s);
      }
    }
    assert files[..|files|] == files;
  }

  /** Every row of the table is an import edge, under its own id. */
  ghost predicate Keyed(x: Index, table: map<Id, Edge>) {
    forall id :: id in table ==>
      && table[id].id == id && table[id] == ImportEdge(x, table[id].source, table[id].target)
      && Held(x, table[id].source) && Held(x, table[id].target)
  }

  lemma InsertEdge(x: Index, table: map<Id, Edge>, source: Id, target: Id)
    requires EdgeIdsDistinct(x) && Keyed(x, table) && Held(x, source) && Held(x, target)
    ensures var e := ImportEdge(x, source, target);
            var next := table[e.id := e];
            Keyed(x, next) && forall d :: d in next.Values <==> d in table.Values || d == e
  {
    hide Held;
    var e := ImportEdge(x, source, target);
    var next := table[e.id := e];
    assert next[e.id] == e;
    forall d | d in table.Values ensures d in next.Values {
      assert next[d.id] == d;
    }
  }

  /** The edges of one file's tokens join the table. */
  method AddImports(x: Index, byStem: map<(string, string), Id>, file: FileEntry, start: map<Id, Edge>)
    returns (table: map<Id, Edge>)
    requires EdgeIdsDistinct(x) && Keyed(x, start) && file in x.files
    requires forall g, s, id :: ((g, s) in byStem && byStem[(g, s)] == id) <==> Owners(x.files, g, s) == [id]
    ensures Keyed(x, table)
    ensures forall e :: e in table.Values <==>
              e in start.Values || exists t :: ImportedBy(x.files, file, t) && e == ImportEdge(x, file.id, t)
  {
    hide Keyed, EdgeIdsDistinct, ImportEdge, Owners, SoleOwner, Held;
    FileIsHeld(x, file);
    table := start;
    if file.family == None {
      return;
    }
    var family := file.family.value;
    forall token, t ensures Names(x.files, file, token, t) <==> t != file.id && (family, token) in byStem && byStem[(family, token)] == t {
      OwnerIsSole(x.files, family, token, t);
    }
    hide Names;
    for i := 0 to |file.tokens|
      invariant Keyed(x, table)
      invariant forall e :: e in table.Values <==>
                  e in start.Values
                  || exists k, t :: 0 <= k < i && Names(x.files, file, file.tokens[k], t) && e == ImportEdge(x, file.id, t)
    {
      var token := file.tokens[i];
      if (family, token) in byStem && byStem[(family, token)] != file.id {
        var edge := ImportEdge(x, file.id, byStem[(family, token)]);
        OwnersAreHeld(x, family, token);
        InsertEdge(x, table, file.id, byStem[(family, token)]);
        OwnId(x, file.id, byStem[(family, token)]);
        table := table[edge.id := edge];
      }
    }
    TokensByPlace(x.files, file);
  }

  lemma {:induction false} OwnersAreFiles(files: seq<FileEntry>, family: string, stem: string)
    ensures forall id :: id in Owners(files, family, stem) ==> exists f :: f in files && f.id == id
  {
    if files != [] {
      OwnersAreFiles(files[..|files| - 1], family, stem);
    }
  }

  lemma OwnersAreHeld(x: Index, family: string, stem: string)
    ensures forall id :: Owners(x.files, family, stem) == [id] ==> Held(x, id)
  {
    OwnersAreFiles(x.files, family, stem);
    forall id | Owners(x.files, family, stem) == [id] ensures Held(x, id) {
      assert id in [id];
    }
  }

  lemma OwnId(x: Index, source: Id, target: Id)
    ensures ImportEdge(x, source, target).id == x.edgeId(source, target, Imports)
  {
  }

  lemma TokensByPlace(files: seq<FileEntry>, f: FileEntry)
    ensures forall t :: ImportedBy(files, f, t) <==> exists k :: 0 <= k < |f.tokens| && Names(files, f, f.tokens[k], t)
  {
  }

  lemma LeastId(ids: set<Id>) returns (least: Id)
    requires ids != {}
    ensures least in ids && forall i :: i in ids ==> least <= i
  {
    var first :| first in ids;
    least := first;
    if i :| i in ids && i < first {
      assert i in ids - {first};
      least := LeastId(ids - {first});
      assert forall j :: j in ids ==> j == first || j in ids - {first};
    }
  }

  /** The rows whose ids are not left, by ascending id and below every id that is. */
  ghost predicate Taken(table: map<Id, Edge>, left: set<Id>, edges: seq<Edge>) {
    && (forall e, id :: e in edges && id in left ==> e.id < id)
    && (forall i, j :: 0 <= i < j < |edges| ==> edges[i].id < edges[j].id)
    && (forall e :: e in edges <==> e in table.Values && e.id !in left)
  }

  lemma NothingTaken(x: Index, table: map<Id, Edge>)
    requires Keyed(x, table)
    ensures Taken(table, table.Keys, [])
  {
    hide ImportEdge;
  }

  lemma TakeNext(x: Index, table: map<Id, Edge>, left: set<Id>, edges: seq<Edge>, id: Id)
    requires Keyed(x, table) && left <= table.Keys && Taken(table, left, edges)
    requires id in left && forall i :: i in left ==> id <= i
    ensures Taken(table, left - {id}, edges + [table[id]])
  {
    hide ImportEdge;
    var e := table[id];
    assert e.id == id;
    forall d ensures d in edges + [e] <==> d in table.Values && d.id !in left - {id} {
      if d in table.Values && d.id == id {
        assert d == e;
      }
    }
  }

  /** The values of an ordered map, by ascending key. */
  method InKeyOrder(x: Index, table: map<Id, Edge>) returns (edges: seq<Edge>)
    requires Keyed(x, table)
    ensures forall i, j :: 0 <= i < j < |edges| ==> edges[i].id < edges[j].id
    ensures forall e :: e in edges <==> e in table.Values
  {
    hide Keyed;
    NothingTaken(x, table);
    edges := [];
    var left := table.Keys;
    while left != {}
      invariant left <= table.Keys
      invariant Taken(table, left, edges)
    {
      ghost var least := LeastId(left);
      var id :| id in left && forall i :: i in left ==> id <= i;
      TakeNext(x, table, left, edges, id);
      left := left - {id};
      edges := edges + [table[id]];
    }
  }

  method ScanImports(x: Index) returns (edges: seq<Edge>)
    requires EdgeIdsDistinct(x)
    ensures ImportList(x, edges)
  {
    hide Keyed, EdgeIdsDistinct, Owners, ImportedBy, ImportEdge, Held;
    var owners := StemOwners(x.files);
    var byStem := map k | k in owners && |owners[k]| == 1 :: owners[k][0];
    forall g, s, id ensures ((g, s) in byStem && byStem[(g, s)] == id) <==> Owners(x.files, g, s) == [id] {
      assert At(owners, g, s) == Owners(x.files, g, s);
    }
    var table: map<Id, Edge> := map[];
    NothingKeyed(x);
    for i := 0 to |x.files|
      invariant Keyed(x, table)
      invariant forall e :: e in table.Values <==> IsImport(x, x.files[..i], e)
    {
      assert x.files[..i + 1] == x.files[..i] + [x.files[i]];
      table := AddImports(x, byStem, x.files[i], table);
      forall e ensures e in table.Values <==> IsImport(x, x.files[..i + 1], e) {
        ImportsJoin(x, x.files[..i], x.files[i], e);
      }
    }
    assert x.files[..|x.files|] == x.files;
    edges := InKeyOrder(x, table);
  }

  lemma ImportsJoin(x: Index, files: seq<FileEntry>, f: FileEntry, e: Edge)
    ensures IsImport(x, files + [f], e) <==>
            IsImport(x, files, e) || exists t :: ImportedBy(x.files, f, t) && e == ImportEdge(x, f.id, t)
  {
    hide ImportedBy, ImportEdge;
    assert forall g :: g in files + [f] <==> g in files || g == f;
  }

  lemma NothingKeyed(x: Index)
    ensures Keyed(x, map[])
  {
  }

  /** An index has one list of import edges. */
  lemma {:induction false} ListIsUnique(a: seq<Edge>, b: seq<Edge>)
    requires forall i, j :: 0 <= i < j < |a| ==> a[i].id < a[j].id
    requires forall i, j :: 0 <= i < j < |b| ==> b[i].id < b[j].id
    requires forall e :: e in a <==> e in b
    ensures a == b
  {
    if a == [] || b == [] {
      FirstIsMember(a);
      FirstIsMember(b);
    } else {
      var m, n := |a| - 1, |b| - 1;
      LastAgree(a, b);
      forall e ensures e in a[..m] <==> e in b[..n] {
        assert e in a <==> e in a[..m] || e == a[m];
        assert e in b <==> e in b[..n] || e == b[n];
      }
      ListIsUnique(a[..m], b[..n]);
      assert a == a[..m] + [a[m]] && b == b[..n] + [b[n]];
    }
  }

  lemma FirstIsMember(a: seq<Edge>)
    ensures a != [] ==> a[0] in a
  {
  }

  lemma LastAgree(a: seq<Edge>, b: seq<Edge>)
    requires a != [] && b != []
    requires forall i, j :: 0 <= i < j < |a| ==> a[i].id < a[j].id
    requires forall i, j :: 0 <= i < j < |b| ==> b[i].id < b[j].id
    requires forall e :: e in a <==> e in b
    ensures a[|a| - 1] == b[|b| - 1]
  {
    var m, n := |a| - 1, |b| - 1;
    assert a[m] in b && b[n] in a;
    var i :| 0 <= i < |b| && b[i] == a[m];
    var j :| 0 <= j < |a| && a[j] == b[n];
  }
}
