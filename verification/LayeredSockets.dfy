/** The layered scan against the whole-snapshot scan: split the files over directories in any
    way, match each directory alone and stitch, and every socket ends as the whole pass
    leaves it. */
module LayeredSockets {
  import opened Atlas
  import opened Sorting
  import opened Sockets
  import opened Stitch

  // ---- Slot lists under matching and splitting ----

  function SocketsOf(slots: seq<Slot>): seq<Socket> {
    if slots == [] then [] else SocketsOf(slots[..|slots| - 1]) + [slots[|slots| - 1].socket]
  }

  /** The slots of the files that `key` sends to directory `k`. */
  function Keep(slots: seq<Slot>, key: string -> string, k: string): seq<Slot> {
    if slots == [] then []
    else
      var last := slots[|slots| - 1];
      Keep(slots[..|slots| - 1], key, k) + (if key(last.path) == k then [last] else [])
  }

  function KeepTags(tags: seq<Tagged>, key: string -> string, k: string): seq<Tagged> {
    if tags == [] then []
    else
      var last := tags[|tags| - 1];
      KeepTags(tags[..|tags| - 1], key, k) + (if key(last.path) == k then [last] else [])
  }

  /** Slots that differ only in what their required sockets resolve to. */
  ghost predicate SameProviders(a: seq<Slot>, b: seq<Slot>) {
    |a| == |b| && forall i :: 0 <= i < |a| ==> a[i] == b[i].(socket := b[i].socket.(resolution := a[i].socket.resolution))
  }

  lemma {:induction false} SameTags(a: seq<Slot>, b: seq<Slot>)
    requires SameProviders(a, b)
    ensures Tags(a) == Tags(b) && forall path :: Count(a, path) == Count(b, path)
  {
    if a != [] {
      var n := |a| - 1;
      SameTags(a[..n], b[..n]);
    }
  }

  /** Splitting by file keeps every provider's rank in its file. */
  lemma {:induction false} TagsOfKept(slots: seq<Slot>, key: string -> string, k: string)
    ensures Tags(Keep(slots, key, k)) == KeepTags(Tags(slots), key, k)
    ensures forall path :: key(path) == k ==> Count(Keep(slots, key, k), path) == Count(slots, path)
  {
    if slots != [] {
      hide Tags, Count, MatchName, KeepTags;
      var n := |slots| - 1;
      var before, last := slots[..n], slots[n];
      assert slots == before + [last];
      TagsOfKept(before, key, k);
      OneMoreSlot(Keep(before, key, k), last);
      OneMoreSlot(before, last);
      if last.socket.direction == Provides {
        var t := Tagged(MatchName(last.socket.shape.name), last.path, Count(before, last.path), last.socket.id);
        KeepTagsAppend(Tags(before), t, key, k);
      } else {
        assert Tags(slots) == Tags(before);
      }
      if key(last.path) == k {
        assert Keep(slots, key, k) == Keep(before, key, k) + [last];
      } else {
        assert Keep(slots, key, k) == Keep(before, key, k);
      }
    } else {
      NoTags(key, k);
    }
  }

  lemma NoTags(key: string -> string, k: string)
    ensures Tags([]) == [] && KeepTags([], key, k) == []
  {
  }

  lemma KeepTagsAppend(tags: seq<Tagged>, t: Tagged, key: string -> string, k: string)
    ensures KeepTags(tags + [t], key, k) == KeepTags(tags, key, k) + (if key(t.path) == k then [t] else [])
  {
    assert (tags + [t])[..|tags|] == tags;
  }

  // ---- Nothing is lost or doubled by the split ----

  lemma {:induction false} KeepTagsCount(tags: seq<Tagged>, key: string -> string, k: string, t: Tagged)
    ensures multiset(KeepTags(tags, key, k))[t] == if key(t.path) == k then multiset(tags)[t] else 0
  {
    if tags != [] {
      var n := |tags| - 1;
      KeepTagsCount(tags[..n], key, k, t);
      assert tags == tags[..n] + [tags[n]];
    }
  }

  lemma {:induction false} NamedCount(tags: seq<Tagged>, name: string, t: Tagged)
    ensures multiset(Named(tags, name))[t] == if t.name == name then multiset(tags)[t] else 0
  {
    if tags != [] {
      var n := |tags| - 1;
      NamedCount(tags[..n], name, t);
      assert tags == tags[..n] + [tags[n]];
    }
  }

  /** Directory by directory, the providers harvested are the whole scan's, split by `keys`. */
  ghost predicate HarvestsSplit(dirs: seq<Directory>, whole: seq<Tagged>, key: string -> string, keys: seq<string>) {
    |dirs| == |keys| && forall i :: 0 <= i < |dirs| ==> Tags(Slots(dirs[i].entities)) == KeepTags(whole, key, keys[i])
  }

  ghost predicate Distinct(keys: seq<string>) {
    forall i, j :: 0 <= i < j < |keys| ==> keys[i] != keys[j]
  }

  lemma {:induction false} SplitCount(dirs: seq<Directory>, whole: seq<Tagged>, key: string -> string, keys: seq<string>, t: Tagged)
    requires HarvestsSplit(dirs, whole, key, keys) && Distinct(keys)
    ensures multiset(AllTags(dirs))[t] == if key(t.path) in keys then multiset(whole)[t] else 0
  {
    hide Tags, Slots, KeepTags;
    if dirs != [] {
      var n := |dirs| - 1;
      SplitCount(dirs[..n], whole, key, keys[..n], t);
      KeepTagsCount(whole, key, keys[n], t);
      assert keys == keys[..n] + [keys[n]];
      assert keys[n] !in keys[..n];
    }
  }

  lemma AllProvidersHarvested(dirs: seq<Directory>, whole: seq<Tagged>, key: string -> string, keys: seq<string>, name: string)
    requires HarvestsSplit(dirs, whole, key, keys) && Distinct(keys)
    requires forall t :: t in whole ==> key(t.path) in keys
    ensures multiset(Named(AllTags(dirs), name)) == multiset(Named(whole, name))
  {
    hide AllTags, Named, HarvestsSplit;
    var a, b := multiset(Named(AllTags(dirs), name)), multiset(Named(whole, name));
    forall t ensures a[t] == b[t] {
      SplitCount(dirs, whole, key, keys, t);
      NamedCount(AllTags(dirs), name, t);
      NamedCount(whole, name, t);
      if multiset(whole)[t] > 0 {
        assert t in whole;
      }
    }
  }

  // ---- The whole scan's order is the sorted order ----

  /** Providers are listed file by file, in path order. */
  ghost predicate InPathOrder(slots: seq<Slot>) {
    forall i, j :: 0 <= i < j < |slots| && slots[i].socket.direction == Provides && slots[j].socket.direction == Provides
      ==> TextLeq(slots[i].path, slots[j].path)
  }

  predicate TagLess(a: Tagged, b: Tagged) {
    TagLeq(a, b) && !TagLeq(b, a)
  }

  ghost predicate StrictlySorted(tags: seq<Tagged>) {
    forall i, j :: 0 <= i < j < |tags| ==> TagLess(tags[i], tags[j])
  }

  lemma TagOrder()
    ensures TotalPreorder(TagLeq)
  {
    forall x: Tagged, y: Tagged ensures TagLeq(x, y) || TagLeq(y, x) {
      TextLeqTotal(x.path, y.path);
    }
    forall x: Tagged, y: Tagged, z: Tagged | TagLeq(x, y) && TagLeq(y, z) ensures TagLeq(x, z) {
      TextLeqTotal(x.path, y.path);
      TextLeqTotal(y.path, z.path);
      TextLeqTransitive(x.path, y.path, z.path);
    }
  }

  /** A tag is older than the slot count of its file, and names a provider's path. */
  lemma {:induction false} TagsAreCounted(slots: seq<Slot>)
    ensures forall t :: t in Tags(slots) ==> t.rank < Count(slots, t.path)
    ensures forall t :: t in Tags(slots) ==> exists s :: s in slots && s.socket.direction == Provides && s.path == t.path
  {
    if slots != [] {
      var n := |slots| - 1;
      TagsAreCounted(slots[..n]);
      assert slots == slots[..n] + [slots[n]];
    }
  }

  lemma {:induction false} TagsAreSorted(slots: seq<Slot>)
    requires InPathOrder(slots)
    ensures StrictlySorted(Tags(slots))
  {
    hide Count;
    if slots != [] {
      var n := |slots| - 1;
      var before, last := slots[..n], slots[n];
      TagsAreSorted(before);
      TagsAreCounted(before);
      if last.socket.direction == Provides {
        var t := Tags(slots)[|Tags(slots)| - 1];
        forall u | u in Tags(before) ensures TagLess(u, t) {
          var s :| s in before && s.socket.direction == Provides && s.path == u.path;
          var i :| 0 <= i < n && slots[i] == s;
          TextLeqTotal(u.path, t.path);
        }
      }
    }
  }

  lemma {:induction false} NamedStaysSorted(tags: seq<Tagged>, name: string)
    requires StrictlySorted(tags)
    ensures StrictlySorted(Named(tags, name)) && forall t :: t in Named(tags, name) ==> t in tags
  {
    if tags != [] {
      var n := |tags| - 1;
      NamedStaysSorted(tags[..n], name);
      assert forall t :: t in tags[..n] ==> TagLess(t, tags[n]);
    }
  }

  lemma {:induction false} ProvidersInOrder(slots: seq<Slot>, name: string)
    ensures IdsOf(Named(Tags(slots), name)) == ProvidersOf(SocketsOf(slots), name)
  {
    if slots != [] {
      hide Count, MatchName, ProvidersOf, Tags, Named;
      var n := |slots| - 1;
      var before, last := slots[..n], slots[n];
      assert slots == before + [last];
      ProvidersInOrder(before, name);
      OneMoreSlot(before, last);
      ProvidersAppend(SocketsOf(before), last.socket, name);
      if last.socket.direction == Provides {
        var t := Tagged(MatchName(last.socket.shape.name), last.path, Count(before, last.path), last.socket.id);
        NamedAppend(Tags(before), t, name);
        assert Offers(last.socket, name) <==> t.name == name;
        IdsAppend(Named(Tags(before), name), t);
        assert t.name != name ==> Named(Tags(slots), name) == Named(Tags(before), name);
      } else {
        assert Tags(slots) == Tags(before);
      }
      assert SocketsOf(slots) == SocketsOf(before) + [last.socket];
    } else {
      NoProviders(name);
    }
  }

  lemma NoProviders(name: string)
    ensures IdsOf(Named(Tags([]), name)) == [] && ProvidersOf(SocketsOf([]), name) == []
  {
  }

  lemma IdsAppend(tags: seq<Tagged>, t: Tagged)
    ensures IdsOf(tags + [t]) == IdsOf(tags) + [t.id]
  {
    assert (tags + [t])[..|tags|] == tags;
  }

  /** Sorting what the directories harvested gives each name the candidates of the whole scan,
      in the whole scan's order. */
  lemma CandidatesAreWhole(dirs: seq<Directory>, slots: seq<Slot>, key: string -> string, keys: seq<string>, name: string)
    requires HarvestsSplit(dirs, Tags(slots), key, keys) && Distinct(keys) && InPathOrder(slots)
    requires forall s :: s in slots ==> key(s.path) in keys
    ensures Candidates(dirs, name) == ProvidersOf(SocketsOf(slots), name)
  {
    hide Tags, AllTags, Named, HarvestsSplit, InPathOrder, Count, SortBy, TagLeq, ProvidersOf;
    var whole, harvested := Named(Tags(slots), name), Named(AllTags(dirs), name);
    TagsAreCounted(slots);
    AllProvidersHarvested(dirs, Tags(slots), key, keys, name);
    TagsAreSorted(slots);
    NamedStaysSorted(Tags(slots), name);
    TagOrder();
    SortBySorts(harvested, TagLeq);
    SortedIsUnique(whole, SortBy(harvested, TagLeq), TagLeq);
    ProvidersInOrder(slots, name);
  }

  // ---- Files, and the two scans of them ----

  /** A parsed file: its own entity, its declarations in parse order, and every name it
      defines, declared or expanded from a macro. */
  datatype SourceFile = SourceFile(path: string, entity: Entity, symbols: seq<Entity>, names: set<string>)

  /** What the scan and the parser produce: files in path order, imports on the file itself,
      exports on its declarations. */
  ghost predicate Parsed(f: SourceFile) {
    && f.entity.path == Some(f.path)
    && (forall s :: s in f.entity.sockets ==> s.direction == Requires)
    && (forall e :: e in f.symbols ==> e.path == Some(f.path))
  }

  ghost predicate Scanned(files: seq<SourceFile>) {
    && (forall f :: f in files ==> Parsed(f))
    && (forall i, j :: 0 <= i < j < |files| ==> TextLeq(files[i].path, files[j].path))
  }

  function FileEntities(files: seq<SourceFile>): seq<Entity> {
    if files == [] then [] else FileEntities(files[..|files| - 1]) + [files[|files| - 1].entity]
  }

  function SymbolEntities(files: seq<SourceFile>): seq<Entity> {
    if files == [] then [] else SymbolEntities(files[..|files| - 1]) + files[|files| - 1].symbols
  }

  /** The entities with sockets, in snapshot order: all files, then every file's declarations. */
  function Assembled(files: seq<SourceFile>): seq<Entity> {
    FileEntities(files) + SymbolEntities(files)
  }

  function NamesOf(files: seq<SourceFile>): set<string> {
    set f, n | f in files && n in f.names :: n
  }

  function FilesIn(files: seq<SourceFile>, key: string -> string, k: string): seq<SourceFile> {
    if files == [] then []
    else
      var last := files[|files| - 1];
      FilesIn(files[..|files| - 1], key, k) + (if key(last.path) == k then [last] else [])
  }

  function Scan(files: seq<SourceFile>, planet: Id): Directory {
    Directory(planet, Finished(Assembled(files), NamesOf(files)), NamesOf(files))
  }

  /** The layered scan up to the stitch: each directory matched by itself. */
  function ScanDirectories(files: seq<SourceFile>, key: string -> string, keys: seq<string>, planets: seq<Id>): (r: seq<Directory>)
    requires |planets| == |keys|
    ensures |r| == |keys| && forall i :: 0 <= i < |r| ==> r[i] == Scan(FilesIn(files, key, keys[i]), planets[i])
  {
    seq(|keys|, i requires 0 <= i < |keys| => Scan(FilesIn(files, key, keys[i]), planets[i]))
  }

  // ---- Slots of slices ----

  lemma {:induction false} SlotsConcat(a: seq<Entity>, b: seq<Entity>)
    ensures Slots(a + b) == Slots(a) + Slots(b)
  {
    if b == [] {
      assert a + b == a;
    } else {
      var n := |b| - 1;
      assert (a + b)[..|a + b| - 1] == a + b[..n];
      SlotsConcat(a, b[..n]);
    }
  }

  lemma {:induction false} KeepConcat(a: seq<Slot>, b: seq<Slot>, key: string -> string, k: string)
    ensures Keep(a + b, key, k) == Keep(a, key, k) + Keep(b, key, k)
  {
    if b == [] {
      assert a + b == a;
    } else {
      var n := |b| - 1;
      assert (a + b)[..|a + b| - 1] == a + b[..n];
      KeepConcat(a, b[..n], key, k);
    }
  }

  lemma {:induction false} EntitySlotsPath(path: string, owner: Id, sockets: seq<Socket>)
    ensures forall s :: s in EntitySlots(path, owner, sockets) ==> s.path == path && s.socket in sockets
  {
    if sockets != [] {
      var n := |sockets| - 1;
      EntitySlotsPath(path, owner, sockets[..n]);
    }
  }

  lemma {:induction false} SlotsOnPath(entities: seq<Entity>, path: string)
    requires forall e :: e in entities ==> e.path == Some(path)
    ensures forall s :: s in Slots(entities) ==> s.path == path && exists e :: e in entities && s.socket in e.sockets
  {
    if entities != [] {
      var n := |entities| - 1;
      SlotsOnPath(entities[..n], path);
      EntitySlotsPath(path, entities[n].id, entities[n].sockets);
      assert entities == entities[..n] + [entities[n]];
    }
  }

  lemma {:induction false} KeepAllOrNone(slots: seq<Slot>, path: string, key: string -> string, k: string)
    requires forall s :: s in slots ==> s.path == path
    ensures Keep(slots, key, k) == if key(path) == k then slots else []
  {
    if slots != [] {
      var n := |slots| - 1;
      assert slots == slots[..n] + [slots[n]];
      KeepAllOrNone(slots[..n], path, key, k);
    }
  }

  /** Keeping the entities of one file, or none of them. */
  lemma KeptEntities(entities: seq<Entity>, path: string, key: string -> string, k: string)
    requires forall e :: e in entities ==> e.path == Some(path)
    ensures Keep(Slots(entities), key, k) == if key(path) == k then Slots(entities) else []
  {
    SlotsOnPath(entities, path);
    KeepAllOrNone(Slots(entities), path, key, k);
  }

  lemma OneMoreFile(files: seq<SourceFile>, f: SourceFile)
    ensures FileEntities(files + [f]) == FileEntities(files) + [f.entity]
    ensures SymbolEntities(files + [f]) == SymbolEntities(files) + f.symbols
  {
    assert (files + [f])[..|files|] == files;
  }

  lemma FilesInStep(files: seq<SourceFile>, key: string -> string, k: string)
    requires files != []
    ensures FilesIn(files, key, k) ==
            if key(files[|files| - 1].path) == k then FilesIn(files[..|files| - 1], key, k) + [files[|files| - 1]]
            else FilesIn(files[..|files| - 1], key, k)
  {
  }

  lemma {:induction false} SlicesAreKept(files: seq<SourceFile>, key: string -> string, k: string)
    requires forall f :: f in files ==> Parsed(f)
    ensures Slots(FileEntities(FilesIn(files, key, k))) == Keep(Slots(FileEntities(files)), key, k)
    ensures Slots(SymbolEntities(FilesIn(files, key, k))) == Keep(Slots(SymbolEntities(files)), key, k)
  {
    if files != [] {
      hide Slots, Keep, FileEntities, SymbolEntities, FilesIn;
      var n := |files| - 1;
      var before, last := files[..n], files[n];
      assert last in files && Parsed(last) && files == before + [last];
      var kept := FilesIn(before, key, k);
      SlicesAreKept(before, key, k);
      FilesInStep(files, key, k);
      OneMoreFile(before, last);
      OneMoreFile(kept, last);
      KeptTogether(FileEntities(before), [last.entity], FileEntities(kept), last.path, key, k);
      KeptTogether(SymbolEntities(before), last.symbols, SymbolEntities(kept), last.path, key, k);
    }
  }

  lemma KeptTogether(before: seq<Entity>, more: seq<Entity>, kept: seq<Entity>, path: string, key: string -> string, k: string)
    requires Slots(kept) == Keep(Slots(before), key, k)
    requires forall e :: e in more ==> e.path == Some(path)
    ensures Keep(Slots(before + more), key, k) == if key(path) == k then Slots(kept + more) else Slots(kept)
  {
    hide Slots, Keep;
    SlotsConcat(before, more);
    SlotsConcat(kept, more);
    KeepConcat(Slots(before), Slots(more), key, k);
    KeptEntities(more, path, key, k);
  }

  /** A directory holds exactly the whole scan's slots of its files. */
  lemma DirectoryKeeps(files: seq<SourceFile>, key: string -> string, k: string)
    requires forall f :: f in files ==> Parsed(f)
    ensures Slots(Assembled(FilesIn(files, key, k))) == Keep(Slots(Assembled(files)), key, k)
  {
    hide Slots, Keep, FileEntities, SymbolEntities;
    var part := FilesIn(files, key, k);
    SlicesAreKept(files, key, k);
    SlotsConcat(FileEntities(files), SymbolEntities(files));
    SlotsConcat(FileEntities(part), SymbolEntities(part));
    KeepConcat(Slots(FileEntities(files)), Slots(SymbolEntities(files)), key, k);
  }

  // ---- The whole scan lists providers in path order ----

  lemma {:induction false} FileSlotsNeed(files: seq<SourceFile>)
    requires forall f :: f in files ==> Parsed(f)
    ensures forall s :: s in Slots(FileEntities(files)) ==>
              s.socket.direction == Requires && exists f :: f in files && s.path == f.path
  {
    if files != [] {
      hide Slots;
      var n := |files| - 1;
      assert files[n] in files && Parsed(files[n]);
      FileSlotsNeed(files[..n]);
      SlotsConcat(FileEntities(files[..n]), [files[n].entity]);
      SlotsOnPath([files[n].entity], files[n].path);
    }
  }

  lemma {:induction false} SymbolSlotsOrdered(files: seq<SourceFile>)
    requires Scanned(files)
    ensures forall s :: s in Slots(SymbolEntities(files)) ==> exists f :: f in files && s.path == f.path
    ensures InPathOrder(Slots(SymbolEntities(files)))
  {
    if files != [] {
      hide Slots;
      var n := |files| - 1;
      var before, last := files[..n], files[n];
      assert last in files && Parsed(last);
      SymbolSlotsOrdered(before);
      SlotsConcat(SymbolEntities(before), last.symbols);
      SlotsOnPath(last.symbols, last.path);
      TextLeqTotal(last.path, last.path);
      var a, b := Slots(SymbolEntities(before)), Slots(last.symbols);
      forall s | s in a ensures TextLeq(s.path, last.path) {
        var f :| f in before && s.path == f.path;
        var i :| 0 <= i < n && files[i] == f;
      }
      OrderedTogether(a, b, last.path);
    }
  }

  lemma OrderedTogether(a: seq<Slot>, b: seq<Slot>, path: string)
    requires InPathOrder(a) && TextLeq(path, path)
    requires forall s :: s in a ==> TextLeq(s.path, path)
    requires forall s :: s in b ==> s.path == path
    ensures InPathOrder(a + b)
  {
    var c := a + b;
    forall i, j | 0 <= i < j < |c| && c[i].socket.direction == Provides && c[j].socket.direction == Provides
      ensures TextLeq(c[i].path, c[j].path)
    {
      if j >= |a| {
        assert c[j] in b && (c[i] in a || c[i] in b);
      }
    }
  }

  lemma WholeInPathOrder(files: seq<SourceFile>)
    requires Scanned(files)
    ensures InPathOrder(Slots(Assembled(files)))
    ensures forall s :: s in Slots(Assembled(files)) ==> exists f :: f in files && s.path == f.path
  {
    hide Slots, FileEntities, SymbolEntities;
    FileSlotsNeed(files);
    SymbolSlotsOrdered(files);
    SlotsConcat(FileEntities(files), SymbolEntities(files));
    var a, b := Slots(FileEntities(files)), Slots(SymbolEntities(files));
    var c: seq<Slot> := a + b;
    forall i, j | 0 <= i < j < |c| && c[i].socket.direction == Provides && c[j].socket.direction == Provides
      ensures TextLeq(c[i].path, c[j].path)
    {
      assert i >= |a| by { assert forall k :: 0 <= k < |a| ==> a[k] in a; }
      assert c[i] == b[i - |a|] && c[j] == b[j - |a|];
    }
  }

  // ---- Matching, slot by slot ----

  function MapSlots(slots: seq<Slot>, f: Socket -> Socket): (r: seq<Slot>)
    ensures |r| == |slots| && forall i :: 0 <= i < |r| ==> r[i] == slots[i].(socket := f(slots[i].socket))
  {
    if slots == [] then []
    else MapSlots(slots[..|slots| - 1], f) + [slots[|slots| - 1].(socket := f(slots[|slots| - 1].socket))]
  }

  ghost predicate MappedBy(a: seq<Entity>, b: seq<Entity>, f: Socket -> Socket) {
    |a| == |b| && forall i :: 0 <= i < |a| ==>
      b[i].path == a[i].path && b[i].id == a[i].id
      && (a[i].path.Some? ==> SocketsMappedBy(a[i].sockets, b[i].sockets, f))
  }

  ghost predicate SocketsMappedBy(a: seq<Socket>, b: seq<Socket>, f: Socket -> Socket) {
    |a| == |b| && forall i :: 0 <= i < |a| ==> b[i] == f(a[i])
  }

  lemma {:induction false} EntitySlotsMapped(path: string, owner: Id, a: seq<Socket>, b: seq<Socket>,
                                             f: Socket -> Socket)
    requires SocketsMappedBy(a, b, f)
    ensures EntitySlots(path, owner, b) == MapSlots(EntitySlots(path, owner, a), f)
  {
    if a != [] {
      var n := |a| - 1;
      EntitySlotsMapped(path, owner, a[..n], b[..n], f);
    }
  }

  lemma {:induction false} MapConcat(a: seq<Slot>, b: seq<Slot>, f: Socket -> Socket)
    ensures MapSlots(a + b, f) == MapSlots(a, f) + MapSlots(b, f)
  {
    if b == [] {
      assert a + b == a;
    } else {
      var n := |b| - 1;
      assert (a + b)[..|a + b| - 1] == a + b[..n];
      MapConcat(a, b[..n], f);
    }
  }

  lemma {:induction false} SlotsMapped(a: seq<Entity>, b: seq<Entity>, f: Socket -> Socket)
    requires MappedBy(a, b, f)
    ensures Slots(b) == MapSlots(Slots(a), f)
  {
    if a != [] {
      var n := |a| - 1;
      SlotsMapped(a[..n], b[..n], f);
      if a[n].path.Some? {
        var path := a[n].path.value;
        EntitySlotsMapped(path, a[n].id, a[n].sockets, b[n].sockets, f);
        MapConcat(Slots(a[..n]), EntitySlots(path, a[n].id, a[n].sockets), f);
      } else {
        assert Slots(a) == Slots(a[..n]) && Slots(b) == Slots(b[..n]);
      }
    }
  }

  lemma {:induction false} KeepMapped(slots: seq<Slot>, f: Socket -> Socket, key: string -> string, k: string)
    ensures Keep(MapSlots(slots, f), key, k) == MapSlots(Keep(slots, key, k), f)
  {
    if slots != [] {
      var n := |slots| - 1;
      KeepMapped(slots[..n], f, key, k);
      assert MapSlots(slots, f)[..n] == MapSlots(slots[..n], f);
      if key(slots[n].path) == k {
        MapConcat(Keep(slots[..n], key, k), [slots[n]], f);
        assert MapSlots([slots[n]], f) == [slots[n].(socket := f(slots[n].socket))];
      } else {
        assert Keep(slots, key, k) == Keep(slots[..n], key, k);
      }
    }
  }

  lemma {:induction false} MapTwice(slots: seq<Slot>, f: Socket -> Socket, g: Socket -> Socket, h: Socket -> Socket)
    requires forall s :: g(f(s)) == h(s)
    ensures MapSlots(MapSlots(slots, f), g) == MapSlots(slots, h)
  {
    if slots != [] {
      MapTwice(slots[..|slots| - 1], f, g, h);
    }
  }

  lemma MapKeepsProviders(slots: seq<Slot>, f: Socket -> Socket)
    requires forall s :: f(s) == s.(resolution := f(s).resolution)
    ensures SameProviders(MapSlots(slots, f), slots)
  {
    hide MapSlots;
  }

  lemma {:induction false} SocketsOfConcat(a: seq<Slot>, b: seq<Slot>)
    ensures SocketsOf(a + b) == SocketsOf(a) + SocketsOf(b)
  {
    if b == [] {
      assert a + b == a;
    } else {
      var n := |b| - 1;
      assert (a + b)[..|a + b| - 1] == a + b[..n];
      SocketsOfConcat(a, b[..n]);
    }
  }

  lemma {:induction false} SocketsOfEntity(path: string, owner: Id, sockets: seq<Socket>)
    ensures SocketsOf(EntitySlots(path, owner, sockets)) == sockets
  {
    if sockets != [] {
      SocketsOfEntity(path, owner, sockets[..|sockets| - 1]);
    }
  }

  lemma {:induction false} SocketsOfSlots(entities: seq<Entity>)
    requires forall e :: e in entities ==> e.path.Some?
    ensures SocketsOf(Slots(entities)) == AllSockets(entities)
  {
    if entities != [] {
      var n := |entities| - 1;
      var e := entities[n];
      SocketsOfSlots(entities[..n]);
      SocketsOfConcat(Slots(entities[..n]), EntitySlots(e.path.value, e.id, e.sockets));
      SocketsOfEntity(e.path.value, e.id, e.sockets);
    }
  }

  lemma {:induction false} AssembledHavePaths(files: seq<SourceFile>)
    requires forall f :: f in files ==> Parsed(f)
    ensures forall e :: e in Assembled(files) ==> e.path.Some?
  {
    if files != [] {
      var n := |files| - 1;
      AssembledHavePaths(files[..n]);
      assert files[n] in files && Parsed(files[n]);
      assert forall e :: e in Assembled(files[..n]) <==> e in FileEntities(files[..n]) || e in SymbolEntities(files[..n]);
    }
  }

  /** Matching a snapshot settles each of its slots against all of its sockets. */
  lemma FinishedSlots(entities: seq<Entity>, defined: set<string>)
    ensures Slots(Finished(entities, defined)) == MapSlots(Slots(entities), s => Settle(s, AllSockets(entities), defined))
  {
    hide Slots, AllSockets, Settle;
    SlotsMapped(entities, Finished(entities, defined), s => Settle(s, AllSockets(entities), defined));
  }

  lemma StitchedSlots(dirs: seq<Directory>, entities: seq<Entity>)
    ensures Slots(Stitched(dirs, entities)) == MapSlots(Slots(entities), s => Globally(dirs, s))
  {
    hide Slots, Globally;
    SlotsMapped(entities, Stitched(dirs, entities), s => Globally(dirs, s));
  }

  // ---- The theorem ----

  lemma {:induction false} FilesInMembers(files: seq<SourceFile>, key: string -> string, k: string)
    ensures forall f :: f in FilesIn(files, key, k) <==> f in files && key(f.path) == k
  {
    if files != [] {
      var n := |files| - 1;
      FilesInMembers(files[..n], key, k);
      assert files == files[..n] + [files[n]];
    }
  }

  lemma {:induction false} AllDefinedMembers(dirs: seq<Directory>)
    ensures forall n :: n in AllDefined(dirs) <==> exists i :: 0 <= i < |dirs| && n in dirs[i].defined
  {
    if dirs != [] {
      var k := |dirs| - 1;
      AllDefinedMembers(dirs[..k]);
      assert forall i :: 0 <= i < k ==> dirs[..k][i] == dirs[i];
    }
  }

  /** Every file lands in one of the listed directories. */
  ghost predicate Covered(files: seq<SourceFile>, key: string -> string, keys: seq<string>) {
    Distinct(keys) && forall f :: f in files ==> key(f.path) in keys
  }

  lemma NamesAreWhole(files: seq<SourceFile>, key: string -> string, keys: seq<string>, planets: seq<Id>)
    requires |planets| == |keys| && Covered(files, key, keys)
    ensures AllDefined(ScanDirectories(files, key, keys, planets)) == NamesOf(files)
  {
    hide Assembled, Finished, AllDefined, FilesIn;
    var dirs := ScanDirectories(files, key, keys, planets);
    AllDefinedMembers(dirs);
    forall n ensures n in AllDefined(dirs) <==> n in NamesOf(files) {
      if n in NamesOf(files) {
        var f :| f in files && n in f.names;
        var i :| 0 <= i < |keys| && keys[i] == key(f.path);
        FilesInMembers(files, key, keys[i]);
        assert n in dirs[i].defined;
      }
      if i :| 0 <= i < |dirs| && n in dirs[i].defined {
        FilesInMembers(files, key, keys[i]);
      }
    }
  }

  lemma DirectoriesHarvestSplit(files: seq<SourceFile>, key: string -> string, keys: seq<string>, planets: seq<Id>)
    requires |planets| == |keys| && forall f :: f in files ==> Parsed(f)
    ensures HarvestsSplit(ScanDirectories(files, key, keys, planets), Tags(Slots(Assembled(files))), key, keys)
  {
    hide Assembled, Finished, FilesIn, Slots, Tags, KeepTags, Settle, AllSockets;
    var dirs := ScanDirectories(files, key, keys, planets);
    forall i | 0 <= i < |dirs|
      ensures Tags(Slots(dirs[i].entities)) == KeepTags(Tags(Slots(Assembled(files))), key, keys[i])
    {
      OneDirectoryHarvest(files, key, keys[i]);
    }
  }

  lemma OneDirectoryHarvest(files: seq<SourceFile>, key: string -> string, k: string)
    requires forall f :: f in files ==> Parsed(f)
    ensures var part := FilesIn(files, key, k);
            Tags(Slots(Finished(Assembled(part), NamesOf(part)))) == KeepTags(Tags(Slots(Assembled(files))), key, k)
  {
    hide Assembled, Finished, FilesIn, Slots, Tags, KeepTags, AllSockets, NamesOf, MatchName;
    var part := FilesIn(files, key, k);
    var all := AllSockets(Assembled(part));
    FinishedSlots(Assembled(part), NamesOf(part));
    var settle := s => Settle(s, all, NamesOf(part));
    MapKeepsProviders(Slots(Assembled(part)), settle);
    SameTags(MapSlots(Slots(Assembled(part)), settle), Slots(Assembled(part)));
    DirectoryKeeps(files, key, k);
    TagsOfKept(Slots(Assembled(files)), key, k);
  }

  /** What the stitch makes of a socket is what the whole pass makes of it, whatever its own
      directory thought. */
  lemma GlobalIsWhole(files: seq<SourceFile>, key: string -> string, keys: seq<string>, planets: seq<Id>,
                      s: Socket, local: seq<Socket>, names: set<string>)
    requires |planets| == |keys| && Scanned(files) && Covered(files, key, keys)
    ensures Globally(ScanDirectories(files, key, keys, planets), Settle(s, local, names))
            == Settle(s, AllSockets(Assembled(files)), NamesOf(files))
  {
    hide Assembled, AllDefined, FilesIn, Slots, Tags, AllSockets, NamesOf, MatchName, Candidates, ProvidersOf,
         HarvestsSplit, InPathOrder;
    var dirs := ScanDirectories(files, key, keys, planets);
    NamesAreWhole(files, key, keys, planets);
    DirectoriesHarvestSplit(files, key, keys, planets);
    WholeInPathOrder(files);
    CandidatesAreWhole(dirs, Slots(Assembled(files)), key, keys, MatchName(s.shape.name));
    AssembledHavePaths(files);
    SocketsOfSlots(Assembled(files));
  }

  /** The layered scan leaves every directory exactly as the whole-snapshot scan leaves the
      files of that directory: same fits, same holes, same candidates in the same order. */
  lemma LayeredIsWhole(files: seq<SourceFile>, key: string -> string, keys: seq<string>, planets: seq<Id>, i: nat)
    requires |planets| == |keys| && Scanned(files) && Covered(files, key, keys) && i < |keys|
    ensures var dirs := ScanDirectories(files, key, keys, planets);
            Slots(Stitched(dirs, dirs[i].entities)) == Keep(Slots(Finished(Assembled(files), NamesOf(files))), key, keys[i])
  {
    hide Assembled, FilesIn, Slots, AllSockets, NamesOf, Settle, Globally, Keep, MapSlots, Finished, Scanned;
    var dirs := ScanDirectories(files, key, keys, planets);
    var part := FilesIn(files, key, keys[i]);
    var whole, slots := Assembled(files), Slots(Assembled(files));
    var alone := s => Settle(s, AllSockets(Assembled(part)), NamesOf(part));
    var together := s => Globally(dirs, s);
    var atOnce := s => Settle(s, AllSockets(whole), NamesOf(files));
    FinishedSlots(Assembled(part), NamesOf(part));
    StitchedSlots(dirs, dirs[i].entities);
    FinishedSlots(whole, NamesOf(files));
    ScannedAreParsed(files);
    DirectoryKeeps(files, key, keys[i]);
    forall s ensures together(alone(s)) == atOnce(s) {
      GlobalIsWhole(files, key, keys, planets, s, AllSockets(Assembled(part)), NamesOf(part));
    }
    MapTwice(Keep(slots, key, keys[i]), alone, together, atOnce);
    KeepMapped(slots, atOnce, key, keys[i]);
  }

  lemma ScannedAreParsed(files: seq<SourceFile>)
    requires Scanned(files)
    ensures forall f :: f in files ==> Parsed(f)
  {
  }
}
