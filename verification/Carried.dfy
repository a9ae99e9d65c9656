/** The identities of a scanned index: the declarations of a directory's own snapshot are the
    whole's for its files, so both reconciliations carry the same ids. */
module CarriedScans {
  import opened Atlas
  import opened ScanIndex
  import opened Identity
  import opened LayeredScans
  import opened EnrichedScans
  import LayeredRollUp
  import Rescan
  import Slices
  import SliceStores
  import Sorting

  // ---- The declarations of a snapshot ----

  function SymbolsOfEach(entities: seq<Entity>): (r: seq<Symbol>)
    ensures |r| == |entities| && forall i :: 0 <= i < |r| ==> r[i] == SymbolOf(entities[i])
  {
    seq(|entities|, i requires 0 <= i < |entities| => SymbolOf(entities[i]))
  }

  /** A file's declarations count when the file is a plain source file. */
  function DeclaredBy(parse: Parses, f: FileEntry): seq<Symbol> {
    if f.kind == File then SymbolsOfEach(parse(f).symbols) else []
  }

  function Declared(parse: Parses, files: seq<FileEntry>): seq<Symbol> {
    if files == [] then []
    else Declared(parse, files[..|files| - 1]) + DeclaredBy(parse, files[|files| - 1])
  }

  /** What parsing adds to the snapshot, under fresh ids. */
  function Fresh(parse: Parses): Finds {
    f => SliceStores.Found(parse(f).symbols, [])
  }

  /** Nothing but a file is of the kind that declares: not a root, not a symbol. Every file has a path
      of its own, and sockets belong to the symbol that lists them. */
  ghost predicate Declarable(x: Index, parse: Parses) {
    && x.universe.kind != File && x.galaxy.kind != File
    && (forall f, e :: f in x.files && e in parse(f).symbols ==> e.kind != File && e.path == Some(PathText(f)))
    && (forall f, e, k :: f in x.files && e in parse(f).symbols && k in e.sockets ==> k.owner == e.id)
    && (forall f, g :: f in x.files && g in x.files && PathText(f) == PathText(g) ==> f == g)
  }

  lemma {:induction false} SymbolsUnderTogether(a: seq<Entity>, b: seq<Entity>, files: set<Id>)
    ensures SymbolsUnder(a + b, files) == SymbolsUnder(a, files) + SymbolsUnder(b, files)
    decreases |b|
  {
    if b == [] {
      assert a + b == a;
    } else {
      var n := |b| - 1;
      assert (a + b)[..|a + b| - 1] == a + b[..n];
      SymbolsUnderTogether(a, b[..n], files);
    }
  }

  lemma {:induction false} NoneUnder(entities: seq<Entity>, files: set<Id>)
    requires forall e :: e in entities && e.parent.Some? ==> e.parent.value !in files
    ensures SymbolsUnder(entities, files) == []
  {
    if entities != [] {
      NoneUnder(entities[..|entities| - 1], files);
    }
  }

  lemma EachNext(entities: seq<Entity>)
    requires entities != []
    ensures var n := |entities| - 1; SymbolsOfEach(entities) == SymbolsOfEach(entities[..n]) + [SymbolOf(entities[n])]
  {
    hide SymbolOf;
  }

  lemma {:induction false} AllUnder(entities: seq<Entity>, files: set<Id>)
    requires forall e :: e in entities ==> e.parent.Some? && e.parent.value in files
    ensures SymbolsUnder(entities, files) == SymbolsOfEach(entities)
  {
    if entities != [] {
      var n := |entities| - 1;
      hide SymbolOf;
      AllUnder(entities[..n], files);
      assert entities[n] in entities;
      EachNext(entities);
    }
  }

  /** Which ids of the snapshot are a declaring file's. */
  lemma FileIdsAre(x: Index, parse: Parses, plugs: Plugs, files: seq<FileEntry>, id: Id)
    requires Scannable(x, Fresh(parse)) && Declarable(x, parse) && Slices.Within(x, files)
    ensures id in FileIds(SnapshotOf(x, Fresh(parse), plugs, files)) <==> exists f :: f in files && f.kind == File && f.id == id
  {
    hide Slices.Known, Slices.AllIdsDistinct, SymbolsFit, LayeredRollUp.RootsBuilt, SnapshotOf, Slices.ListedOnce;
    var all := SnapshotOf(x, Fresh(parse), plugs, files);
    if id in FileIds(all) {
      var e :| e in all && e.kind == File && e.id == id;
      SnapshotMembers(x, Fresh(parse), plugs, files, e);
      PlainFile(x, parse, plugs, files, e);
    }
    if f :| f in files && f.kind == File && f.id == id {
      RowKinds(x, plugs, f);
      SnapshotMembers(x, Fresh(parse), plugs, files, FileRow(x, plugs, f));
      assert OfFile(x, Fresh(parse), plugs, f, FileRow(x, plugs, f));
    }
  }

  lemma PlainFile(x: Index, parse: Parses, plugs: Plugs, files: seq<FileEntry>, e: Entity)
    requires Declarable(x, parse) && Slices.Within(x, files) && e.kind == File
    requires e == x.universe || e == x.galaxy || exists f :: f in files && OfFile(x, Fresh(parse), plugs, f, e)
    ensures exists f :: f in files && f.kind == File && f.id == e.id
  {
    hide Slices.SystemRow, Slices.PlanetRow, FileRow, PathText;
    var f :| f in files && OfFile(x, Fresh(parse), plugs, f, e);
    RowKinds(x, plugs, f);
  }

  lemma RowKinds(x: Index, plugs: Plugs, f: FileEntry)
    ensures Slices.SystemRow(x, f).kind != File && Slices.PlanetRow(x, f).kind != File
    ensures FileRow(x, plugs, f).kind == f.kind && FileRow(x, plugs, f).id == f.id
  {
    hide Slices.GroupKeys;
  }

  /** No row hangs from a file. */
  lemma RowsHangHigher(x: Index, parse: Parses, plugs: Plugs, files: seq<FileEntry>, r: Entity)
    requires Scannable(x, Fresh(parse)) && Slices.Within(x, files)
    requires r in [x.universe, x.galaxy] + Dressed(Slices.Rows(x, files), plugs)
    ensures r.parent.Some? ==> forall f :: f in x.files ==> f.id != r.parent.value
  {
    hide Slices.Known, Slices.AllIdsDistinct, SymbolsFit, Slices.ListedOnce, Slices.Rows, Dressed, Slices.IsRow;
    var q := RowOfSnapshot(x, plugs, files, r);
    var p := ParentRow(x, q);
    if p.Some? {
      forall f | f in x.files ensures f.id != p.value.id {
        if f.id == p.value.id {
          FileIsRow(x, f);
          Slices.RowsOfOneId(x, Slices.MoonRow(x, f), p.value);
          HigherThanMoon(x, f, q, p.value);
        }
      }
    }
  }

  lemma HigherThanMoon(x: Index, f: FileEntry, q: Entity, p: Entity)
    requires p.scale.Rank() < q.scale.Rank()
    ensures p != Slices.MoonRow(x, f)
  {
    RowsHang(x, f);
    hide Slices.MoonRow;
  }

  lemma {:induction false} SymbolsUnderFiles(x: Index, parse: Parses, files: seq<FileEntry>, ids: set<Id>)
    requires SymbolsFit(x, Fresh(parse)) && Slices.Within(x, files)
    requires forall f :: f in files ==> (f.id in ids <==> f.kind == File)
    ensures SymbolsUnder(SliceStores.SymbolsOf(Fresh(parse), files), ids) == Declared(parse, files)
  {
    if files != [] {
      var n := |files| - 1;
      var f := files[n];
      SymbolsUnderFiles(x, parse, files[..n], ids);
      SymbolsUnderTogether(SliceStores.SymbolsOf(Fresh(parse), files[..n]), parse(f).symbols, ids);
      forall s | s in parse(f).symbols ensures s.parent == Some(f.id) {
        assert f in x.files && s in Fresh(parse)(f).symbols;
        SymbolFits(x, Fresh(parse), f, s);
      }
      hide SymbolsFit, SymbolsUnder;
      if f.kind == File {
        AllUnder(parse(f).symbols, ids);
      } else {
        NoneUnder(parse(f).symbols, ids);
      }
    }
  }

  /** The declarations of the snapshot of these files. */
  lemma SymbolsOfSnapshot(x: Index, parse: Parses, plugs: Plugs, files: seq<FileEntry>)
    requires Scannable(x, Fresh(parse)) && Declarable(x, parse) && Slices.Within(x, files)
    ensures Symbols(SnapshotOf(x, Fresh(parse), plugs, files)) == Declared(parse, files)
  {
    hide Slices.Known, Slices.AllIdsDistinct, LayeredRollUp.RootsBuilt, Declarable, Slices.ListedOnce, FileIds;
    var all := SnapshotOf(x, Fresh(parse), plugs, files);
    var ids := FileIds(all);
    var rows, symbols := [x.universe, x.galaxy] + Dressed(Slices.Rows(x, files), plugs), SliceStores.SymbolsOf(Fresh(parse), files);
    forall id: Id { FileIdsAre(x, parse, plugs, files, id); }
    hide SymbolsFit;
    forall r | r in rows && r.parent.Some? ensures r.parent.value !in ids {
      RowsHangHigher(x, parse, plugs, files, r);
      FileIdsAre(x, parse, plugs, files, r.parent.value);
    }
    forall f | f in files ensures f.id in ids <==> f.kind == File {
      FileIdsAre(x, parse, plugs, files, f.id);
      DeclaringFile(x, parse, files, f);
    }
    assert all == rows + symbols;
    hide SnapshotOf, Dressed, SliceStores.SymbolsOf;
    NoneUnder(rows, ids);
    SymbolsUnderFiles(x, parse, files, ids);
    SymbolsUnderTogether(rows, symbols, ids);
  }

  lemma DeclaringFile(x: Index, parse: Parses, files: seq<FileEntry>, f: FileEntry)
    requires Scannable(x, Fresh(parse)) && Slices.Within(x, files) && f in files
    ensures (exists g :: g in files && g.kind == File && g.id == f.id) <==> f.kind == File
  {
    hide Slices.Known, Slices.AllIdsDistinct, LayeredRollUp.RootsBuilt, SymbolsFit;
  }

  // ---- One file's declarations ----

  lemma {:induction false} InFileTogether(a: seq<Symbol>, b: seq<Symbol>, file: string)
    ensures InFile(a + b, file) == InFile(a, file) + InFile(b, file)
    decreases |b|
  {
    if b == [] {
      assert a + b == a;
    } else {
      var n := |b| - 1;
      assert (a + b)[..|a + b| - 1] == a + b[..n];
      InFileTogether(a, b[..n], file);
    }
  }

  lemma {:induction false} InOneFile(symbols: seq<Symbol>, at: string, file: string)
    requires forall s :: s in symbols ==> s.file == at
    ensures InFile(symbols, file) == if at == file then symbols else []
  {
    if symbols != [] {
      var n := |symbols| - 1;
      InOneFile(symbols[..n], at, file);
      assert symbols[n] in symbols && symbols == symbols[..n] + [symbols[n]];
    }
  }

  lemma DeclaredInOwnFile(x: Index, parse: Parses, f: FileEntry, file: string)
    requires Declarable(x, parse) && f in x.files
    ensures InFile(DeclaredBy(parse, f), file) == if PathText(f) == file then DeclaredBy(parse, f) else []
  {
    hide PathText;
    forall s | s in DeclaredBy(parse, f) ensures s.file == PathText(f) {
      var i :| 0 <= i < |parse(f).symbols| && s == SymbolOf(parse(f).symbols[i]);
      assert parse(f).symbols[i] in parse(f).symbols;
    }
    InOneFile(DeclaredBy(parse, f), PathText(f), file);
  }

  /** Whatever other files are listed, a path's declarations are its own file's. */
  lemma {:induction false} DeclaredInFile(x: Index, parse: Parses, files: seq<FileEntry>, f: FileEntry)
    requires Declarable(x, parse) && Slices.Within(x, files) && Slices.ListedOnce(files) && f in x.files
    ensures InFile(Declared(parse, files), PathText(f)) == if f in files then DeclaredBy(parse, f) else []
  {
    hide InFile, PathText, DeclaredBy, Slices.ListedOnce;
    if files == [] {
      NothingInFile(PathText(f));
    } else {
      var n := |files| - 1;
      var last := files[n];
      assert files == files[..n] + [last];
      Slices.OthersBefore(files, n);
      OnceBefore(files);
      DeclaredInFile(x, parse, files[..n], f);
      InFileTogether(Declared(parse, files[..n]), DeclaredBy(parse, last), PathText(f));
      DeclaredInOwnFile(x, parse, last, PathText(f));
      SamePathSameFile(x, parse, f, last);
    }
  }

  lemma NothingInFile(file: string)
    ensures InFile([], file) == []
  {
  }

  lemma OnceBefore(files: seq<FileEntry>)
    requires files != [] && Slices.ListedOnce(files)
    ensures Slices.ListedOnce(files[..|files| - 1])
  {
  }

  lemma SamePathSameFile(x: Index, parse: Parses, f: FileEntry, g: FileEntry)
    requires Declarable(x, parse) && f in x.files && g in x.files
    ensures PathText(f) == PathText(g) <==> f == g
  {
    hide PathText;
  }

  // ---- Both reconciliations ----

  /** The prior declarations of every file of a directory, in the orders in which the whole snapshot
      and the directory's subtree come out of the store. */
  ghost predicate SamePriors(prevs: seq<Symbol>, partPrevs: seq<Symbol>, files: seq<FileEntry>) {
    && DistinctSymbols(prevs) && DistinctSymbols(partPrevs)
    && forall f :: f in files ==>
         && multiset(InFile(prevs, PathText(f))) == multiset(InFile(partPrevs, PathText(f)))
         && Sorting.Sorted(InFile(prevs, PathText(f)), Rescan.ByNameThenId) && Sorting.Sorted(InFile(partPrevs, PathText(f)), Rescan.ById)
  }

  /** A reconciliation of the snapshot of these files against prior declarations. */
  ghost predicate Reconciled(remap: map<Id, Id>, prevs: seq<Symbol>, x: Index, parse: Parses, plugs: Plugs, files: seq<FileEntry>) {
    FileByFile(remap, prevs, Symbols(SnapshotOf(x, Fresh(parse), plugs, files)))
  }

  /** The symbols a file ends with, under carried ids. */
  function Carried(parse: Parses, remap: map<Id, Id>, f: FileEntry): (r: seq<Entity>)
    ensures |r| == |parse(f).symbols| && forall i :: 0 <= i < |r| ==> r[i] == Rescan.RelabelEntity(remap, parse(f).symbols[i])
  {
    seq(|parse(f).symbols|, i requires 0 <= i < |parse(f).symbols| => Rescan.RelabelEntity(remap, parse(f).symbols[i]))
  }

  lemma {:induction false} DeclaredMembers(parse: Parses, files: seq<FileEntry>)
    ensures forall t :: t in Declared(parse, files) <==> exists g :: g in files && t in DeclaredBy(parse, g)
  {
    hide DeclaredBy;
    if files != [] {
      var n := |files| - 1;
      DeclaredMembers(parse, files[..n]);
      assert files == files[..n] + [files[n]];
    }
  }

  /** Only the ids of a plain file's declarations are ever carried to. */
  lemma CarriedToDeclared(x: Index, parse: Parses, plugs: Plugs, files: seq<FileEntry>, remap: map<Id, Id>, prevs: seq<Symbol>, id: Id)
    requires Scannable(x, Fresh(parse)) && Declarable(x, parse) && Slices.Within(x, files)
    requires Reconciled(remap, prevs, x, parse, plugs, files) && id in remap
    ensures exists g, e :: g in files && g.kind == File && e in parse(g).symbols && e.id == id
  {
    SymbolsOfSnapshot(x, parse, plugs, files);
    hide Scannable, Declarable, SnapshotOf, Declared, Symbols, FileByFile;
    CarriedIsNext(remap, prevs, Declared(parse, files), id);
    var t :| t in Declared(parse, files) && t.id == id;
    DeclaredIsSymbol(parse, files, t);
  }

  lemma CarriedIsNext(remap: map<Id, Id>, prevs: seq<Symbol>, nexts: seq<Symbol>, id: Id)
    requires FileByFile(remap, prevs, nexts) && id in remap
    ensures exists t :: t in nexts && t.id == id
  {
    hide FileRemap;
  }

  lemma DeclaredIsSymbol(parse: Parses, files: seq<FileEntry>, t: Symbol)
    requires t in Declared(parse, files)
    ensures exists g, e :: g in files && g.kind == File && e in parse(g).symbols && e.id == t.id
  {
    DeclaredMembers(parse, files);
    hide Declared;
    var g :| g in files && t in DeclaredBy(parse, g);
    var i :| 0 <= i < |parse(g).symbols| && t == SymbolOf(parse(g).symbols[i]);
    assert parse(g).symbols[i] in parse(g).symbols;
  }

  lemma FileIsNotCarried(x: Index, parse: Parses, plugs: Plugs, files: seq<FileEntry>, remap: map<Id, Id>, prevs: seq<Symbol>,
                         f: FileEntry)
    requires Scannable(x, Fresh(parse)) && Declarable(x, parse) && Slices.Within(x, files) && f in x.files
    requires Reconciled(remap, prevs, x, parse, plugs, files)
    ensures f.id !in remap
    ensures f.kind != File ==> forall e :: e in parse(f).symbols ==> e.id !in remap
  {
    SymbolsAreNoFile(x, parse, f);
    hide Reconciled, Declarable, Scannable;
    if f.id in remap {
      CarriedToDeclared(x, parse, plugs, files, remap, prevs, f.id);
    }
    forall e | e in parse(f).symbols && f.kind != File ensures e.id !in remap {
      OwnSymbolsOnly(x, parse, f, e);
      if e.id in remap {
        CarriedToDeclared(x, parse, plugs, files, remap, prevs, e.id);
      }
    }
  }

  lemma SymbolsAreNoFile(x: Index, parse: Parses, f: FileEntry)
    requires Scannable(x, Fresh(parse)) && f in x.files
    ensures forall g, e :: g in x.files && e in parse(g).symbols ==> e.id != f.id
  {
    FileIsRow(x, f);
    hide Slices.Known, Slices.AllIdsDistinct, LayeredRollUp.RootsBuilt, Slices.ListedOnce, SymbolsFit;
    forall g, e | g in x.files && e in parse(g).symbols ensures e.id != f.id {
      assert e in Fresh(parse)(g).symbols;
      SymbolFits(x, Fresh(parse), g, e);
    }
  }

  lemma OwnSymbolsOnly(x: Index, parse: Parses, f: FileEntry, e: Entity)
    requires Scannable(x, Fresh(parse)) && f in x.files && e in parse(f).symbols
    ensures forall g, d :: g in x.files && d in parse(g).symbols && d.id == e.id ==> g == f
  {
    hide Slices.Known, Slices.AllIdsDistinct, LayeredRollUp.RootsBuilt, Slices.ListedOnce, SymbolsFit;
    forall g, d | g in x.files && d in parse(g).symbols && d.id == e.id ensures g == f {
      OneFileOneSymbol(x, parse, f, g, e, d);
    }
  }

  lemma OneFileOneSymbol(x: Index, parse: Parses, f: FileEntry, g: FileEntry, e: Entity, d: Entity)
    requires SymbolsFit(x, Fresh(parse)) && f in x.files && g in x.files && e in parse(f).symbols && d in parse(g).symbols && e.id == d.id
    ensures f == g
  {
    assert d in Fresh(parse)(g).symbols && e in Fresh(parse)(f).symbols;
    hide DistinctIds;
  }

  /** One declaration of a plain file gets the same id from both. */
  lemma SameId(x: Index, parse: Parses, plugs: Plugs, partPlugs: Plugs, slice: seq<FileEntry>, remap: map<Id, Id>, part: map<Id, Id>,
               prevs: seq<Symbol>, partPrevs: seq<Symbol>, f: FileEntry, e: Entity)
    requires Scannable(x, Fresh(parse)) && Declarable(x, parse) && Slices.Within(x, slice) && Slices.ListedOnce(slice)
    requires Reconciled(remap, prevs, x, parse, plugs, x.files) && Reconciled(part, partPrevs, x, parse, partPlugs, slice)
    requires SamePriors(prevs, partPrevs, slice) && f in slice && f.kind == File && e in parse(f).symbols
    ensures Rescan.Relabel(remap, e.id) == Rescan.Relabel(part, e.id)
  {
    SymbolsOfSnapshot(x, parse, plugs, x.files);
    SymbolsOfSnapshot(x, parse, partPlugs, slice);
    DeclaredMembers(parse, x.files);
    DeclaredMembers(parse, slice);
    DeclaredInFile(x, parse, x.files, f);
    DeclaredInFile(x, parse, slice, f);
    SymbolPath(x, parse, f, e);
    hide Scannable, Declarable, SnapshotOf, Symbols, Declared, FileByFile, InFile, DistinctSymbols, Sorting.Sorted, Rescan.Relabel;
    var i :| 0 <= i < |parse(f).symbols| && parse(f).symbols[i] == e;
    assert DeclaredBy(parse, f)[i] == SymbolOf(e);
    assert f in x.files && SymbolOf(e) in DeclaredBy(parse, f);
    Rescan.DirectoryCarriesTheSame(remap, part, prevs, Declared(parse, x.files), partPrevs, Declared(parse, slice), SymbolOf(e));
  }

  lemma SymbolPath(x: Index, parse: Parses, f: FileEntry, e: Entity)
    requires Declarable(x, parse) && f in x.files && e in parse(f).symbols
    ensures SymbolOf(e).file == PathText(f)
  {
    hide PathText;
  }

  /** A directory's own reconciliation leaves its symbols exactly as the whole's does: ids, parents
      and socket owners. */
  lemma SameCarried(x: Index, parse: Parses, plugs: Plugs, partPlugs: Plugs, slice: seq<FileEntry>, remap: map<Id, Id>, part: map<Id, Id>,
                    prevs: seq<Symbol>, partPrevs: seq<Symbol>, f: FileEntry)
    requires Scannable(x, Fresh(parse)) && Declarable(x, parse) && Slices.Within(x, slice) && Slices.ListedOnce(slice)
    requires Reconciled(remap, prevs, x, parse, plugs, x.files) && Reconciled(part, partPrevs, x, parse, partPlugs, slice)
    requires SamePriors(prevs, partPrevs, slice) && f in slice
    ensures Carried(parse, remap, f) == Carried(parse, part, f)
  {
    FileIsNotCarried(x, parse, plugs, x.files, remap, prevs, f);
    FileIsNotCarried(x, parse, partPlugs, slice, part, partPrevs, f);
    hide Scannable, Declarable, Reconciled, SamePriors, Rescan.RelabelEntity, Slices.ListedOnce, Carried;
    forall e | e in parse(f).symbols ensures Rescan.RelabelEntity(remap, e) == Rescan.RelabelEntity(part, e) {
      if f.kind == File {
        SameId(x, parse, plugs, partPlugs, slice, remap, part, prevs, partPrevs, f, e);
      }
      SymbolHangs(x, parse, f, e);
      SameRelabelled(remap, part, e);
    }
    SameLists(parse, remap, part, f);
  }

  lemma SameLists(parse: Parses, remap: map<Id, Id>, part: map<Id, Id>, f: FileEntry)
    requires forall e :: e in parse(f).symbols ==> Rescan.RelabelEntity(remap, e) == Rescan.RelabelEntity(part, e)
    ensures Carried(parse, remap, f) == Carried(parse, part, f)
  {
    hide Rescan.RelabelEntity;
    forall i | 0 <= i < |parse(f).symbols| ensures Carried(parse, remap, f)[i] == Carried(parse, part, f)[i] {
      assert parse(f).symbols[i] in parse(f).symbols;
    }
  }

  lemma SymbolHangs(x: Index, parse: Parses, f: FileEntry, e: Entity)
    requires Scannable(x, Fresh(parse)) && Declarable(x, parse) && f in x.files && e in parse(f).symbols
    ensures e.parent == Some(f.id) && forall k :: k in e.sockets ==> k.owner == e.id
  {
    hide Slices.Known, Slices.AllIdsDistinct, SymbolsFit, LayeredRollUp.RootsBuilt, Slices.ListedOnce;
    assert e in Fresh(parse)(f).symbols;
    SymbolFits(x, Fresh(parse), f, e);
  }

  lemma SameRelabelled(remap: map<Id, Id>, part: map<Id, Id>, e: Entity)
    requires Rescan.Relabel(remap, e.id) == Rescan.Relabel(part, e.id)
    requires e.parent.Some? && Rescan.Relabel(remap, e.parent.value) == Rescan.Relabel(part, e.parent.value)
    requires forall k :: k in e.sockets ==> k.owner == e.id
    ensures Rescan.RelabelEntity(remap, e) == Rescan.RelabelEntity(part, e)
  {
    hide Rescan.Relabel;
    forall i | 0 <= i < |e.sockets|
      ensures Rescan.RelabelSockets(remap, e.sockets)[i] == Rescan.RelabelSockets(part, e.sockets)[i]
    {
      assert e.sockets[i] in e.sockets;
    }
  }
}
