/** A scan that meets every hypothesis made about scans: two files in two directories, the first
    importing the second by its stem, and one declaration. */
module SampleScans {
  import opened Atlas
  import opened ScanIndex
  import opened ImportEdges
  import opened LayeredRollUp
  import opened LayeredScans
  import Slices
  import SliceStores

  const TEST := FileEntry(1, ["tests", "test_loaders.py"], Test, "a", Some("python"), "test_loaders", ["loaders"])
  const LOADERS := FileEntry(2, ["pkg", "loaders.py"], File, "b", Some("python"), "loaders", [])

  function Root(id: Id, scale: Scale, kind: Kind, parent: Option<Id>): Entity {
    Slices.Blank(id, scale, kind, "root", None, parent, "", "s")
  }

  function Sample(): Index {
    Index([TEST, LOADERS], Root(10, Universe, Registry, None), Root(11, Galaxy, Product, Some(10)),
          map["tests" := 12, "pkg" := 13], map["tests/tests" := 14, "pkg/pkg" := 15], Paired, "s")
  }

  function Load(): Entity {
    Slices.Blank(16, Moon, Function, "load", Some("pkg/loaders.py"), Some(2), "function", "s")
  }

  /** The symbol of a file and the edge to it. */
  function SampleFinds(): Finds {
    (f: FileEntry) => if f.id == 2 then SliceStores.Found([Load()], [Edge(0, 2, 16, Contains, ObservedPlane, false, [], [], "parser", "1")])
         else SliceStores.Found([], [])
  }

  lemma SampleKeys()
    ensures Slices.GroupKeys(TEST.path) == Slices.Keys("tests", "tests", "tests/tests")
    ensures Slices.GroupKeys(LOADERS.path) == Slices.Keys("pkg", "pkg", "pkg/pkg")
    ensures Slices.RelativePath(TEST.path) && Slices.RelativePath(LOADERS.path)
  {
    assert "tests" + "/" + "tests" == "tests/tests" && "pkg" + "/" + "pkg" == "pkg/pkg";
    assert TEST.path[0] == "tests" && LOADERS.path[0] == "pkg";
  }

  lemma SampleIsKnown()
    ensures Slices.Known(Sample()) && GroupsUsed(Sample())
  {
    SampleKeys();
    hide Slices.GroupKeys;
    var x := Sample();
    assert x.files[0] == TEST && x.files[1] == LOADERS;
    assert TEST in x.files && LOADERS in x.files;
  }

  lemma SampleGroupsDiffer()
    ensures Slices.GroupIdsDistinct(Sample()) && Slices.FileIdsDistinct(Sample())
  {
    var x := Sample();
    assert x.files[0] == TEST && x.files[1] == LOADERS;
  }

  lemma SampleFiles(f: FileEntry)
    requires f in Sample().files
    ensures f.id in {1, 2}
  {
    var x := Sample();
    assert x.files[0] == TEST && x.files[1] == LOADERS;
  }

  lemma SampleGroups()
    ensures forall k :: k in Sample().systemIds ==> Sample().systemIds[k] in {12, 13}
    ensures forall k :: k in Sample().planetIds ==> Sample().planetIds[k] in {14, 15}
    ensures Sample().universe.id == 10 && Sample().galaxy.id == 11
  {
  }

  lemma SampleIdsDiffer()
    ensures Slices.AllIdsDistinct(Sample())
  {
    SampleGroupsDiffer();
    SampleGroups();
    hide Slices.GroupIdsDistinct, Slices.FileIdsDistinct, Sample;
    forall f | f in Sample().files ensures f.id in {1, 2} {
      SampleFiles(f);
    }
  }

  lemma SampleRoots()
    ensures Slices.ListedOnce(Sample().files) && RootsBuilt(Sample()) && ScannedRoots(Sample())
  {
  }

  lemma SampleEdgeIdsDiffer()
    ensures EdgeIdsDistinct(Sample())
  {
    var x := Sample();
    forall id | Held(x, id) ensures (id as int) < SHORT {
    }
    EdgeIdsExist(x);
    assert x.(edgeId := Paired) == x;
  }

  /** The first file imports the second, and nothing else is imported. */
  lemma SampleImports(f: FileEntry, t: Id)
    requires f in Sample().files
    ensures ImportedBy(Sample().files, f, t) <==> f == TEST && t == 2
  {
    var files := Sample().files;
    assert files[0] == TEST && files[1] == LOADERS;
    assert "loaders" != "test_loaders" by {
      assert "loaders"[0] == 'l' && "test_loaders"[0] == 't';
    }
    assert SoleOwner(files, "python", "loaders", 1);
    if f == TEST && t == 2 {
      assert f.tokens[0] == "loaders" && Names(files, f, "loaders", t);
    }
  }

  lemma SampleRowIds(f: FileEntry)
    requires f in Sample().files
    ensures Slices.SystemRow(Sample(), f).id in {12, 13} && Slices.PlanetRow(Sample(), f).id in {14, 15}
    ensures Slices.MoonRow(Sample(), f).id in {1, 2}
  {
    SampleKeys();
    hide Slices.GroupKeys;
    var files := Sample().files;
    assert files[0] == TEST && files[1] == LOADERS;
  }

  lemma SampleSymbolIsNew(e: Entity)
    requires Slices.IsRow(Sample(), e)
    ensures e.id != 16
  {
    hide Slices.SystemRow, Slices.PlanetRow, Slices.MoonRow;
    if e != Sample().universe && e != Sample().galaxy {
      var f :| f in Sample().files && (e == Slices.SystemRow(Sample(), f) || e == Slices.PlanetRow(Sample(), f) || e == Slices.MoonRow(Sample(), f));
      SampleRowIds(f);
    }
  }

  lemma SampleSymbols(f: FileEntry)
    requires f in Sample().files
    ensures DistinctIds(SampleFinds()(f).symbols)
    ensures forall s :: s in SampleFinds()(f).symbols ==> s.scale == Moon && s.parent == Some(f.id) && s.id == 16 && f.id == 2
  {
    var files := Sample().files;
    assert files[0] == TEST && files[1] == LOADERS;
  }

  lemma SampleFile(f: FileEntry)
    requires f in Sample().files && f.id == 2
    ensures f == LOADERS
  {
    var files := Sample().files;
    assert files[0] == TEST && files[1] == LOADERS;
  }

  lemma SampleSymbolsFit()
    ensures SymbolsFit(Sample(), SampleFinds())
  {
    hide Slices.IsRow, Sample, SampleFinds, DistinctIds;
    forall f | f in Sample().files
      ensures DistinctIds(SampleFinds()(f).symbols)
      ensures forall s :: s in SampleFinds()(f).symbols ==> s.scale == Moon && s.parent == Some(f.id) && s.id == 16 && f == LOADERS
    {
      SampleSymbols(f);
      if f.id == 2 {
        SampleFile(f);
      }
    }
    forall e | Slices.IsRow(Sample(), e) ensures e.id != 16 {
      SampleSymbolIsNew(e);
    }
  }

  /** So the hypotheses of the layered results can be met together. */
  lemma SampleIsScannable()
    ensures Scannable(Sample(), SampleFinds()) && ScannedRoots(Sample()) && GroupsUsed(Sample()) && EdgeIdsDistinct(Sample())
  {
    hide Slices.Known, Slices.AllIdsDistinct, Slices.ListedOnce, RootsBuilt, SymbolsFit, GroupsUsed, ScannedRoots, EdgeIdsDistinct;
    SampleIsKnown();
    SampleIdsDiffer();
    SampleRoots();
    SampleEdgeIdsDiffer();
    SampleSymbolsFit();
  }
}
