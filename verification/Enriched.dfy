/** The sockets of a scanned index: what parsing its files gives each file's imports, matched over
    the whole snapshot, over one directory, and stitched. */
module EnrichedScans {
  import opened Atlas
  import opened ScanIndex
  import opened Slices
  import opened LayeredSockets
  import Sockets
  import Sorting
  import Stitch

  /** What parsing finds in a file: its imports, its declarations under fresh ids, and every name it
      defines. */
  datatype Parse = Parse(imports: seq<Socket>, symbols: seq<Entity>, names: set<string>)

  type Parses = FileEntry -> Parse

  // ---- Paths as text ----

  /** The components of a path as text. */
  function Components(text: string): (parts: seq<string>)
    decreases |text|
  {
    var first := PlanetKeySystem(text);
    HeadIsShort(text);
    if |first| == |text| then [first] else [first] + Components(text[|first| + 1..])
  }

  lemma HeadIsShort(text: string)
    ensures |PlanetKeySystem(text)| <= |text|
  {
  }

  lemma {:induction false} WholeHead(text: string)
    requires '/' !in text
    ensures PlanetKeySystem(text) == text
  {
    if text != "" {
      WholeHead(text[1..]);
      assert [text[0]] + text[1..] == text;
    }
  }

  lemma {:induction false} ComponentsOfPath(parts: seq<string>)
    requires parts != [] && Slashless(parts)
    ensures Components(JoinSlash(parts)) == parts
  {
    if |parts| == 1 {
      WholeHead(parts[0]);
      assert parts == [parts[0]];
    } else {
      var head, rest := parts[0], JoinSlash(parts[1..]);
      SystemBeforeSlash(head, rest);
      assert (head + "/" + rest)[|head| + 1..] == rest;
      ComponentsOfPath(parts[1..]);
      assert parts == [head] + parts[1..];
    }
  }

  /** The Planet key of a path as text, as `group_keys` takes it. */
  function KeyOf(text: string): string {
    GroupKeys(Components(text)).key
  }

  function PathText(f: FileEntry): string {
    JoinSlash(f.path)
  }

  lemma KeyOfPath(x: Index, f: FileEntry)
    requires Known(x) && f in x.files
    ensures KeyOf(PathText(f)) == GroupKeys(f.path).key
  {
    hide GroupKeys;
    ComponentsOfPath(f.path);
  }

  // ---- The parsed files ----

  function SourceOf(x: Index, parse: Parses, f: FileEntry): SourceFile {
    SourceFile(PathText(f), MoonRow(x, f).(sockets := parse(f).imports), parse(f).symbols, parse(f).names)
  }

  function Sources(x: Index, parse: Parses, files: seq<FileEntry>): (r: seq<SourceFile>)
    ensures |r| == |files| && forall i :: 0 <= i < |r| ==> r[i] == SourceOf(x, parse, files[i])
  {
    seq(|files|, i requires 0 <= i < |files| => SourceOf(x, parse, files[i]))
  }

  /** Imports require, declarations provide; files are listed in path order. */
  ghost predicate WellParsed(x: Index, parse: Parses) {
    && (forall f, s :: f in x.files && s in parse(f).imports ==> s.direction == Requires)
    && (forall f, e :: f in x.files && e in parse(f).symbols ==> e.path == Some(PathText(f)))
    && (forall f, e, s :: f in x.files && e in parse(f).symbols && s in e.sockets ==> s.direction == Provides)
    && (forall i, j :: 0 <= i < j < |x.files| ==> Sorting.TextLeq(PathText(x.files[i]), PathText(x.files[j])))
  }

  lemma SourcesScanned(x: Index, parse: Parses)
    requires WellParsed(x, parse)
    ensures LayeredSockets.Scanned(Sources(x, parse, x.files))
  {
    hide Sorting.TextLeq, GroupKeys, PathText;
    var sources := Sources(x, parse, x.files);
    forall s | s in sources ensures LayeredSockets.Parsed(s) {
      var i :| 0 <= i < |sources| && sources[i] == s;
      assert x.files[i] in x.files;
      MoonPath(x, x.files[i]);
    }
  }

  lemma MoonPath(x: Index, f: FileEntry)
    ensures MoonRow(x, f).path == Some(PathText(f)) && MoonRow(x, f).sockets == []
  {
    hide GroupKeys;
  }

  /** The keys list every directory of the index once. */
  ghost predicate ListsKeys(x: Index, keys: seq<string>) {
    Distinct(keys) && forall f :: f in x.files ==> GroupKeys(f.path).key in keys
  }

  lemma SourcesCovered(x: Index, parse: Parses, keys: seq<string>)
    requires Known(x) && ListsKeys(x, keys)
    ensures Covered(Sources(x, parse, x.files), KeyOf, keys)
  {
    hide Known, GroupKeys, KeyOf, MoonRow;
    var sources := Sources(x, parse, x.files);
    forall s | s in sources ensures KeyOf(s.path) in keys {
      var i :| 0 <= i < |sources| && sources[i] == s;
      assert x.files[i] in x.files;
      KeyOfPath(x, x.files[i]);
    }
  }

  lemma {:induction false} SourcesOfSlice(x: Index, parse: Parses, files: seq<FileEntry>, key: string)
    requires Known(x) && Within(x, files)
    ensures FilesIn(Sources(x, parse, files), KeyOf, key) == Sources(x, parse, FilesOf(files, key))
  {
    hide Known, GroupKeys, KeyOf, SourceOf;
    if files != [] {
      var n := |files| - 1;
      var before, last := files[..n], files[n];
      SourcesOfSlice(x, parse, before, key);
      KeyOfPath(x, last);
      SourcePath(x, parse, last);
      assert Sources(x, parse, files)[..n] == Sources(x, parse, before);
      var slice := FilesOf(before, key);
      assert Sources(x, parse, slice + [last]) == Sources(x, parse, slice) + [SourceOf(x, parse, last)];
      assert slice + [] == slice && FilesIn(Sources(x, parse, before), KeyOf, key) + [] == FilesIn(Sources(x, parse, before), KeyOf, key);
    }
  }

  lemma SourcePath(x: Index, parse: Parses, f: FileEntry)
    ensures SourceOf(x, parse, f).path == PathText(f)
  {
  }

  // ---- A file's sockets ----

  /** A file's imports matched over these files. */
  function MatchedAgainst(x: Index, parse: Parses, files: seq<FileEntry>, f: FileEntry): seq<Socket> {
    var sources := Sources(x, parse, files);
    Sockets.SettleAll(parse(f).imports, Sockets.AllSockets(Assembled(sources)), NamesOf(sources))
  }

  function WholeSockets(x: Index, parse: Parses, f: FileEntry): seq<Socket> {
    MatchedAgainst(x, parse, x.files, f)
  }

  function LocalSockets(x: Index, parse: Parses, f: FileEntry): seq<Socket> {
    MatchedAgainst(x, parse, FilesOf(x.files, GroupKeys(f.path).key), f)
  }

  function Directories(x: Index, parse: Parses, keys: seq<string>, planets: seq<Id>): seq<Stitch.Directory>
    requires |planets| == |keys|
  {
    ScanDirectories(Sources(x, parse, x.files), KeyOf, keys, planets)
  }

  /** Resolved by all directories together, a file's sockets are the whole snapshot's. */
  lemma StitchedIsWhole(x: Index, parse: Parses, keys: seq<string>, planets: seq<Id>, f: FileEntry)
    requires Known(x) && WellParsed(x, parse) && ListsKeys(x, keys) && |planets| == |keys| && f in x.files
    ensures Stitch.GloballyAll(Directories(x, parse, keys, planets), LocalSockets(x, parse, f)) == WholeSockets(x, parse, f)
  {
    hide Known, GroupKeys, KeyOf, Sources, Assembled, NamesOf, Stitch.Globally, Sockets.Settle, Sockets.AllSockets, WellParsed, FilesOf;
    var sources := Sources(x, parse, x.files);
    var part := Sources(x, parse, FilesOf(x.files, GroupKeys(f.path).key));
    SourcesScanned(x, parse);
    SourcesCovered(x, parse, keys);
    forall s
      ensures Stitch.Globally(Directories(x, parse, keys, planets), Sockets.Settle(s, Sockets.AllSockets(Assembled(part)), NamesOf(part)))
              == Sockets.Settle(s, Sockets.AllSockets(Assembled(sources)), NamesOf(sources))
    {
      GlobalIsWhole(sources, KeyOf, keys, planets, s, Sockets.AllSockets(Assembled(part)), NamesOf(part));
    }
  }

  // ---- What a directory holds after matching ----

  lemma {:induction false} AssembledHas(x: Index, parse: Parses, files: seq<FileEntry>, f: FileEntry)
    requires f in files
    ensures SourceOf(x, parse, f).entity in Assembled(Sources(x, parse, files))
    ensures forall s :: s in parse(f).symbols ==> s in Assembled(Sources(x, parse, files))
  {
    var n := |files| - 1;
    var sources := Sources(x, parse, files);
    hide GroupKeys, MoonRow;
    assert sources[..n] == Sources(x, parse, files[..n]);
    if f != files[n] {
      assert files == files[..n] + [files[n]];
      AssembledHas(x, parse, files[..n], f);
    }
  }

  /** Directory `i` as the stitch finds it. */
  lemma DirectoryIs(x: Index, parse: Parses, keys: seq<string>, planets: seq<Id>, i: nat)
    requires Known(x) && |planets| == |keys| && i < |keys|
    ensures var part := Sources(x, parse, FilesOf(x.files, keys[i]));
            Directories(x, parse, keys, planets)[i] ==
            Stitch.Directory(planets[i], Sockets.Finished(Assembled(part), NamesOf(part)), NamesOf(part))
  {
    hide Known, GroupKeys, KeyOf, Assembled, NamesOf, Sockets.Finished, FilesOf, FilesIn;
    SourcesOfSlice(x, parse, x.files, keys[i]);
  }

  lemma HoldsEntity(x: Index, parse: Parses, keys: seq<string>, planets: seq<Id>, i: nat, f: FileEntry, e: Entity)
    requires Known(x) && WellParsed(x, parse) && |planets| == |keys| && i < |keys| && f in x.files && GroupKeys(f.path).key == keys[i]
    requires e == MoonRow(x, f).(sockets := LocalSockets(x, parse, f)) || e in parse(f).symbols
    ensures e in Directories(x, parse, keys, planets)[i].entities && e.path == Some(PathText(f))
  {
    var files := FilesOf(x.files, keys[i]);
    FilesOfMembers(x.files, keys[i]);
    DirectoryIs(x, parse, keys, planets, i);
    AssembledHas(x, parse, files, f);
    MoonPath(x, f);
    hide Known, GroupKeys, KeyOf, Assembled, NamesOf, FilesOf, Sources, MoonRow, PathText, Sockets.AllSockets, Sockets.Finished,
      Sockets.SettleAll, Directories;
    var all, names := Assembled(Sources(x, parse, files)), NamesOf(Sources(x, parse, files));
    if e in parse(f).symbols {
      ProvidersStay(e.sockets, Sockets.AllSockets(all), names);
      MatchedIn(all, names, e, e);
    } else {
      MatchedIn(all, names, SourceOf(x, parse, f).entity, e);
    }
  }

  lemma MatchedIn(all: seq<Entity>, names: set<string>, raw: Entity, e: Entity)
    requires raw in all && e == raw.(sockets := Sockets.SettleAll(raw.sockets, Sockets.AllSockets(all), names))
    ensures e in Sockets.Finished(all, names)
  {
    hide Sockets.SettleAll, Sockets.AllSockets;
    var k :| 0 <= k < |all| && all[k] == raw;
    assert Sockets.Finished(all, names)[k] == e;
  }

  lemma ProvidersStay(sockets: seq<Socket>, all: seq<Socket>, names: set<string>)
    requires forall s :: s in sockets ==> s.direction == Provides
    ensures Sockets.SettleAll(sockets, all, names) == sockets
  {
    hide Sockets.SettleAll;
    forall i | 0 <= i < |sockets| ensures Sockets.Settle(sockets[i], all, names) == sockets[i] {
      assert sockets[i] in sockets;
    }
  }

  // ---- Patching and not patching ----

  /** The stitch's decisions: which sockets change, and which Planets hold one that does. */
  ghost predicate Decisions(dirs: seq<Stitch.Directory>, fixes: map<Id, Resolution>, affected: set<Id>) {
    Stitch.Identified(dirs) && exists planetOf: map<Id, Id> ::
      Stitch.PlanetsKnown(dirs, |dirs|, planetOf) && Stitch.Decided(dirs, Stitch.AllNeeds(dirs), planetOf, fixes, affected)
  }

  /** A patched directory's sockets are the stitched ones; in any other they already were. */
  lemma PatchOrKeep(dirs: seq<Stitch.Directory>, i: nat, fixes: map<Id, Resolution>, affected: set<Id>, e: Entity)
    requires Decisions(dirs, fixes, affected) && i < |dirs| && e in dirs[i].entities && e.path.Some?
    ensures Stitch.GloballyAll(dirs, e.sockets) ==
            if dirs[i].planet in affected then Stitch.PatchAll(e.sockets, fixes) else e.sockets
  {
    hide Stitch.Identified, Stitch.PlanetsKnown, Stitch.Decided, Stitch.AllNeeds, Stitch.Globally, Stitch.Slots;
    var planetOf: map<Id, Id> :|
      Stitch.PlanetsKnown(dirs, |dirs|, planetOf) && Stitch.Decided(dirs, Stitch.AllNeeds(dirs), planetOf, fixes, affected);
    forall j | 0 <= j < |e.sockets|
      ensures Stitch.Globally(dirs, e.sockets[j]) ==
              if dirs[i].planet in affected then Stitch.PatchAll(e.sockets, fixes)[j] else e.sockets[j]
    {
      Stitch.SlotsMembers(dirs[i].entities, e, j);
      Stitch.SocketIsStitched(dirs, i, planetOf, fixes, affected, Stitch.Slot(e.path.value, e.id, e.sockets[j]));
    }
  }

  lemma ProvidersAreGlobal(dirs: seq<Stitch.Directory>, sockets: seq<Socket>)
    requires forall s :: s in sockets ==> s.direction == Provides
    ensures Stitch.GloballyAll(dirs, sockets) == sockets
  {
    forall i | 0 <= i < |sockets| ensures Stitch.Globally(dirs, sockets[i]) == sockets[i] {
      assert sockets[i] in sockets;
    }
  }

  /** After the stitch every file has the whole snapshot's sockets: in a patched directory by the
      patch, which leaves declarations alone, and in any other from the start. */
  lemma FileEndsWhole(x: Index, parse: Parses, keys: seq<string>, planets: seq<Id>, i: nat, fixes: map<Id, Resolution>,
                      affected: set<Id>, f: FileEntry)
    requires Known(x) && WellParsed(x, parse) && ListsKeys(x, keys) && |planets| == |keys| && i < |keys|
    requires f in x.files && GroupKeys(f.path).key == keys[i]
    requires Decisions(Directories(x, parse, keys, planets), fixes, affected)
    ensures planets[i] in affected ==> Stitch.PatchAll(LocalSockets(x, parse, f), fixes) == WholeSockets(x, parse, f)
    ensures planets[i] in affected ==> forall s :: s in parse(f).symbols ==> Stitch.PatchAll(s.sockets, fixes) == s.sockets
    ensures planets[i] !in affected ==> LocalSockets(x, parse, f) == WholeSockets(x, parse, f)
  {
    var dirs := Directories(x, parse, keys, planets);
    DirectoryIs(x, parse, keys, planets, i);
    StitchedIsWhole(x, parse, keys, planets, f);
    var e := MoonRow(x, f).(sockets := LocalSockets(x, parse, f));
    hide Known, ListsKeys, Directories, Decisions, GroupKeys, LocalSockets, WholeSockets, Stitch.GloballyAll, Stitch.PatchAll, PathText;
    HoldsEntity(x, parse, keys, planets, i, f, e);
    PatchOrKeep(dirs, i, fixes, affected, e);
    forall s | s in parse(f).symbols && planets[i] in affected ensures Stitch.PatchAll(s.sockets, fixes) == s.sockets {
      HoldsEntity(x, parse, keys, planets, i, f, s);
      PatchOrKeep(dirs, i, fixes, affected, s);
      ProvidersAreGlobal(dirs, s.sockets);
    }
  }
}
