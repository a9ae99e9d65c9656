/** The cross-directory socket stitch of `scan_layered.rs`: directories are matched one at a
    time, and afterwards only the sockets whose global resolution differs are patched. */
module Stitch {
  import opened Atlas
  import opened Sorting
  import opened Sockets

  /** A socket with the file it was found in: its path and its owner. */
  datatype Slot = Slot(path: string, owner: Id, socket: Socket)

  /** One directory as the layered scan holds it after matching it by itself. */
  datatype Directory = Directory(planet: Id, entities: seq<Entity>, defined: set<string>)

  /** A provider with its position: the file, and its rank among that file's providers. */
  datatype Tagged = Tagged(name: string, path: string, rank: nat, id: Id)

  datatype Need = Need(file: Id, socket: Id, wanted: string, local: Resolution)

  function EntitySlots(path: string, owner: Id, sockets: seq<Socket>): seq<Slot> {
    if sockets == [] then []
    else EntitySlots(path, owner, sockets[..|sockets| - 1]) + [Slot(path, owner, sockets[|sockets| - 1])]
  }

  /** The sockets of the entities that have a path, in iteration order. */
  function Slots(entities: seq<Entity>): seq<Slot> {
    if entities == [] then []
    else
      var last := entities[|entities| - 1];
      Slots(entities[..|entities| - 1])
      + (if last.path.Some? then EntitySlots(last.path.value, last.id, last.sockets) else [])
  }

  function Count(slots: seq<Slot>, path: string): nat {
    if slots == [] then 0
    else
      var last := slots[|slots| - 1];
      Count(slots[..|slots| - 1], path) + (if last.path == path && last.socket.direction == Provides then 1 else 0)
  }

  /** The providers of a slot list, each with its rank in its file. */
  function Tags(slots: seq<Slot>): seq<Tagged> {
    if slots == [] then []
    else
      var before, last := slots[..|slots| - 1], slots[|slots| - 1];
      Tags(before) + (if last.socket.direction == Provides
                      then [Tagged(MatchName(last.socket.shape.name), last.path, Count(before, last.path), last.socket.id)]
                      else [])
  }

  function Needs(slots: seq<Slot>): seq<Need> {
    if slots == [] then []
    else
      var last := slots[|slots| - 1];
      Needs(slots[..|slots| - 1])
      + (if last.socket.direction == Requires
         then [Need(last.owner, last.socket.id, MatchName(last.socket.shape.name), last.socket.resolution)]
         else [])
  }

  function Named(tags: seq<Tagged>, name: string): seq<Tagged> {
    if tags == [] then []
    else
      var last := tags[|tags| - 1];
      Named(tags[..|tags| - 1], name) + (if last.name == name then [last] else [])
  }

  /** By file, then by rank in the file. */
  predicate TagLeq(a: Tagged, b: Tagged) {
    if a.path == b.path then a.rank <= b.rank else TextLeq(a.path, b.path)
  }

  function IdsOf(tags: seq<Tagged>): seq<Id> {
    if tags == [] then [] else IdsOf(tags[..|tags| - 1]) + [tags[|tags| - 1].id]
  }

  function AllTags(dirs: seq<Directory>): seq<Tagged> {
    if dirs == [] then [] else AllTags(dirs[..|dirs| - 1]) + Tags(Slots(dirs[|dirs| - 1].entities))
  }

  function AllNeeds(dirs: seq<Directory>): seq<Need> {
    if dirs == [] then [] else AllNeeds(dirs[..|dirs| - 1]) + Needs(Slots(dirs[|dirs| - 1].entities))
  }

  function AllDefined(dirs: seq<Directory>): set<string> {
    if dirs == [] then {} else AllDefined(dirs[..|dirs| - 1]) + dirs[|dirs| - 1].defined
  }

  /** The candidates every directory together offers for a name, in the scan's order. */
  function Candidates(dirs: seq<Directory>, name: string): seq<Id> {
    IdsOf(SortBy(Named(AllTags(dirs), name), TagLeq))
  }

  function Global(dirs: seq<Directory>, wanted: string): Resolution {
    Humbled(ResolveAgainst(Candidates(dirs, wanted)), AllDefined(dirs), wanted)
  }

  /** A socket with the resolution all directories together give it. */
  function Globally(dirs: seq<Directory>, s: Socket): Socket {
    if s.direction == Requires then s.(resolution := Global(dirs, MatchName(s.shape.name))) else s
  }

  // ---- Harvest ----

  lemma SlotsAppend(path: string, owner: Id, sockets: seq<Socket>, j: nat)
    requires j < |sockets|
    ensures EntitySlots(path, owner, sockets[..j + 1]) == EntitySlots(path, owner, sockets[..j]) + [Slot(path, owner, sockets[j])]
  {
    assert sockets[..j + 1][..j] == sockets[..j];
  }

  lemma OneMoreSlot(slots: seq<Slot>, s: Slot)
    ensures Tags(slots + [s]) == Tags(slots) +
              (if s.socket.direction == Provides
               then [Tagged(MatchName(s.socket.shape.name), s.path, Count(slots, s.path), s.socket.id)] else [])
    ensures Needs(slots + [s]) == Needs(slots) +
              (if s.socket.direction == Requires
               then [Need(s.owner, s.socket.id, MatchName(s.socket.shape.name), s.socket.resolution)] else [])
    ensures forall path :: Count(slots + [s], path)
              == Count(slots, path) + (if s.path == path && s.socket.direction == Provides then 1 else 0)
  {
    assert (slots + [s])[..|slots|] == slots;
  }

  lemma NamedAppend(tags: seq<Tagged>, t: Tagged, name: string)
    ensures Named(tags + [t], name) == Named(tags, name) + (if t.name == name then [t] else [])
  {
    assert (tags + [t])[..|tags|] == tags;
  }

  /** What the harvest has gathered: providers by name, needs, and each file's directory. */
  datatype Harvest = Harvest(
    offered: map<string, seq<Tagged>>, needs: seq<Need>, planetOf: map<Id, Id>, ranks: map<string, nat>)

  function RankOf(ranks: map<string, nat>, path: string): nat {
    if path in ranks then ranks[path] else 0
  }

  ghost predicate Gathered(h: Harvest, tags: seq<Tagged>, needs: seq<Need>) {
    (forall name :: At(h.offered, name) == Named(tags, name)) && h.needs == needs
  }

  ghost predicate RanksAre(h: Harvest, slots: seq<Slot>) {
    forall path :: RankOf(h.ranks, path) == Count(slots, path)
  }

  /** The files with requires sockets of `slots` are placed in `planet`; the others stay. */
  ghost predicate Placed(before: map<Id, Id>, after: map<Id, Id>, slots: seq<Slot>, planet: Id) {
    forall id ::
      if HasNeed(slots, id) then id in after && after[id] == planet
      else (id in after <==> id in before) && (id in after ==> after[id] == before[id])
  }

  ghost predicate HasNeed(slots: seq<Slot>, owner: Id) {
    exists s :: s in slots && s.owner == owner && s.socket.direction == Requires
  }

  method HarvestSocket(h: Harvest, s: Slot, planet: Id, ghost tags: seq<Tagged>, ghost needs: seq<Need>,
                       ghost slots: seq<Slot>)
    returns (r: Harvest)
    requires Gathered(h, tags + Tags(slots), needs + Needs(slots)) && RanksAre(h, slots)
    ensures Gathered(r, tags + Tags(slots + [s]), needs + Needs(slots + [s])) && RanksAre(r, slots + [s])
    ensures r.planetOf == if s.socket.direction == Requires then h.planetOf[s.owner := planet] else h.planetOf
  {
    hide Named, Tags, Needs, Count, MatchName;
    OneMoreSlot(slots, s);
    var name := MatchName(s.socket.shape.name);
    if s.socket.direction == Provides {
      var rank := RankOf(h.ranks, s.path);
      var t := Tagged(name, s.path, rank, s.socket.id);
      assert tags + Tags(slots + [s]) == (tags + Tags(slots)) + [t];
      assert needs + Needs(slots + [s]) == needs + Needs(slots);
      forall n { NamedAppend(tags + Tags(slots), t, n); }
      r := h.(offered := h.offered[name := At(h.offered, name) + [t]], ranks := h.ranks[s.path := rank + 1]);
    } else {
      var need := Need(s.owner, s.socket.id, name, s.socket.resolution);
      assert needs + Needs(slots + [s]) == (needs + Needs(slots)) + [need];
      assert tags + Tags(slots + [s]) == tags + Tags(slots);
      r := h.(needs := h.needs + [need], planetOf := h.planetOf[s.owner := planet]);
    }
  }

  method HarvestEntity(h: Harvest, path: string, owner: Id, sockets: seq<Socket>, planet: Id,
                       ghost tags: seq<Tagged>, ghost needs: seq<Need>, ghost slots: seq<Slot>)
    returns (r: Harvest)
    requires Gathered(h, tags + Tags(slots), needs + Needs(slots)) && RanksAre(h, slots)
    ensures Gathered(r, tags + Tags(slots + EntitySlots(path, owner, sockets)), needs + Needs(slots + EntitySlots(path, owner, sockets)))
    ensures RanksAre(r, slots + EntitySlots(path, owner, sockets))
    ensures Placed(h.planetOf, r.planetOf, EntitySlots(path, owner, sockets), planet)
  {
    hide Tags, Needs, Count, Gathered, RanksAre;
    r := h;
    assert slots + EntitySlots(path, owner, sockets[..0]) == slots;
    for j := 0 to |sockets|
      invariant Gathered(r, tags + Tags(slots + EntitySlots(path, owner, sockets[..j])), needs + Needs(slots + EntitySlots(path, owner, sockets[..j])))
      invariant RanksAre(r, slots + EntitySlots(path, owner, sockets[..j]))
      invariant Placed(h.planetOf, r.planetOf, EntitySlots(path, owner, sockets[..j]), planet)
    {
      var s := Slot(path, owner, sockets[j]);
      ghost var sofar := EntitySlots(path, owner, sockets[..j]);
      SlotsAppend(path, owner, sockets, j);
      assert slots + (sofar + [s]) == (slots + sofar) + [s];
      ghost var was := r.planetOf;
      r := HarvestSocket(r, s, planet, tags, needs, slots + sofar);
      PlacedStep(h.planetOf, was, r.planetOf, sofar, s, planet);
    }
    assert sockets[..|sockets|] == sockets;
  }

  lemma PlacedStep(before: map<Id, Id>, was: map<Id, Id>, now: map<Id, Id>, slots: seq<Slot>, s: Slot, planet: Id)
    requires Placed(before, was, slots, planet)
    requires now == if s.socket.direction == Requires then was[s.owner := planet] else was
    ensures Placed(before, now, slots + [s], planet)
  {
    forall id ensures HasNeed(slots + [s], id) <==> HasNeed(slots, id) || (s.owner == id && s.socket.direction == Requires) {
      if HasNeed(slots, id) {
        var t :| t in slots && t.owner == id && t.socket.direction == Requires;
        assert t in slots + [s];
      }
      if s.owner == id && s.socket.direction == Requires {
        assert s in slots + [s];
      }
    }
  }

  lemma PlacedTogether(a: map<Id, Id>, b: map<Id, Id>, c: map<Id, Id>, first: seq<Slot>, second: seq<Slot>, planet: Id)
    requires Placed(a, b, first, planet) && Placed(b, c, second, planet)
    ensures Placed(a, c, first + second, planet)
  {
    forall id ensures HasNeed(first + second, id) <==> HasNeed(first, id) || HasNeed(second, id) {
      if HasNeed(first, id) {
        var t :| t in first && t.owner == id && t.socket.direction == Requires;
        assert t in first + second;
      }
      if HasNeed(second, id) {
        var t :| t in second && t.owner == id && t.socket.direction == Requires;
        assert t in first + second;
      }
    }
  }

  method HarvestDirectory(h: Harvest, d: Directory, ghost tags: seq<Tagged>,
                          ghost needs: seq<Need>) returns (r: Harvest)
    requires Gathered(h, tags, needs)
    ensures Gathered(r, tags + Tags(Slots(d.entities)), needs + Needs(Slots(d.entities)))
    ensures Placed(h.planetOf, r.planetOf, Slots(d.entities), d.planet)
  {
    hide Gathered, EntitySlots;
    r := h.(ranks := map[]);
    assert tags + Tags([]) == tags && needs + Needs([]) == needs;
    assert Gathered(r, tags, needs) by { GatheredIgnoresRanks(h, tags, needs); }
    for i := 0 to |d.entities|
      invariant Gathered(r, tags + Tags(Slots(d.entities[..i])), needs + Needs(Slots(d.entities[..i])))
      invariant RanksAre(r, Slots(d.entities[..i]))
      invariant Placed(h.planetOf, r.planetOf, Slots(d.entities[..i]), d.planet)
    {
      hide Tags, Needs, RanksAre, Placed;
      var e := d.entities[i];
      assert d.entities[..i + 1][..i] == d.entities[..i];
      if e.path.Some? {
        ghost var was := r.planetOf;
        r := HarvestEntity(r, e.path.value, e.id, e.sockets, d.planet, tags, needs, Slots(d.entities[..i]));
        PlacedTogether(h.planetOf, was, r.planetOf, Slots(d.entities[..i]), EntitySlots(e.path.value, e.id, e.sockets), d.planet);
      } else {
        assert Slots(d.entities[..i + 1]) == Slots(d.entities[..i]);
      }
    }
    assert d.entities[..|d.entities|] == d.entities;
  }

  lemma GatheredIgnoresRanks(h: Harvest, tags: seq<Tagged>, needs: seq<Need>)
    requires Gathered(h, tags, needs)
    ensures Gathered(h.(ranks := map[]), tags, needs)
  {
  }

  // ---- Resolve and patch ----

  predicate SameRole(s: Socket, t: Socket) {
    s.direction == t.direction && MatchName(s.shape.name) == MatchName(t.shape.name)
  }

  /** Sockets with one id are one shape in one direction, files are in one directory each, and
      directories have distinct planets: ids are hashes of exactly these. */
  ghost predicate Identified(dirs: seq<Directory>) {
    && (forall i, j, s, t | 0 <= i < |dirs| && 0 <= j < |dirs| && s in Slots(dirs[i].entities) && t in Slots(dirs[j].entities) ::
          (s.owner == t.owner ==> i == j) && (s.socket.id == t.socket.id ==> SameRole(s.socket, t.socket)))
    && (forall i, j :: 0 <= i < j < |dirs| ==> dirs[i].planet != dirs[j].planet)
  }

  /** The decisions of the stitch, over the needs seen so far. */
  ghost predicate Decided(dirs: seq<Directory>, needs: seq<Need>, planetOf: map<Id, Id>,
                          fixes: map<Id, Resolution>, affected: set<Id>) {
    && (forall id :: id in fixes ==> exists n :: n in needs && n.socket == id && fixes[id] == Global(dirs, n.wanted))
    && (forall n :: n in needs && Global(dirs, n.wanted) != n.local ==>
          n.socket in fixes && (n.file in planetOf ==> planetOf[n.file] in affected))
  }

  method Decide(needs: seq<Need>, candidates: map<string, seq<Id>>, defined: set<string>, planetOf: map<Id, Id>,
                ghost dirs: seq<Directory>)
    returns (fixes: map<Id, Resolution>, affected: set<Id>)
    requires forall name :: At(candidates, name) == Candidates(dirs, name)
    requires defined == AllDefined(dirs)
    ensures Decided(dirs, needs, planetOf, fixes, affected)
  {
    hide Candidates, AllDefined, ResolveAgainst;
    fixes, affected := map[], {};
    for i := 0 to |needs|
      invariant Decided(dirs, needs[..i], planetOf, fixes, affected)
    {
      var n := needs[i];
      assert forall k :: k in needs[..i + 1] <==> k in needs[..i] || k == n;
      var global := Humbled(ResolveAgainst(At(candidates, n.wanted)), defined, n.wanted);
      assert global == Global(dirs, n.wanted);
      if global != n.local {
        fixes := fixes[n.socket := global];
        if n.file in planetOf {
          affected := affected + {planetOf[n.file]};
        }
      }
    }
    assert needs[..|needs|] == needs;
  }

  /** Sorts every name's providers into the scan's order and keeps their ids. */
  method Freeze(offered: map<string, seq<Tagged>>) returns (candidates: map<string, seq<Id>>)
    ensures forall name :: At(candidates, name) == IdsOf(SortBy(At(offered, name), TagLeq))
  {
    candidates := map name | name in offered :: IdsOf(SortBy(offered[name], TagLeq));
  }

  function PatchAll(sockets: seq<Socket>, fixes: map<Id, Resolution>): (r: seq<Socket>)
    ensures |r| == |sockets|
    ensures forall i :: 0 <= i < |r| ==>
      r[i] == if sockets[i].id in fixes then sockets[i].(resolution := fixes[sockets[i].id]) else sockets[i]
  {
    seq(|sockets|, i requires 0 <= i < |sockets| =>
      if sockets[i].id in fixes then sockets[i].(resolution := fixes[sockets[i].id]) else sockets[i])
  }

  function GloballyAll(dirs: seq<Directory>, sockets: seq<Socket>): (r: seq<Socket>)
    ensures |r| == |sockets| && forall i :: 0 <= i < |r| ==> r[i] == Globally(dirs, sockets[i])
  {
    seq(|sockets|, i requires 0 <= i < |sockets| => Globally(dirs, sockets[i]))
  }

  /** The entities of a directory with every socket of a file resolved globally. */
  function Stitched(dirs: seq<Directory>, entities: seq<Entity>): (r: seq<Entity>)
    ensures |r| == |entities|
    ensures forall i :: 0 <= i < |r| ==>
      r[i] == if entities[i].path.Some? then entities[i].(sockets := GloballyAll(dirs, entities[i].sockets)) else entities[i]
  {
    seq(|entities|, i requires 0 <= i < |entities| =>
      if entities[i].path.Some? then entities[i].(sockets := GloballyAll(dirs, entities[i].sockets)) else entities[i])
  }

  method HarvestAll(dirs: seq<Directory>) returns (h: Harvest, defined: set<string>)
    ensures Gathered(h, AllTags(dirs), AllNeeds(dirs)) && defined == AllDefined(dirs)
    ensures Identified(dirs) ==> PlanetsKnown(dirs, |dirs|, h.planetOf)
  {
    h, defined := Harvest(map[], [], map[], map[]), {};
    for i := 0 to |dirs|
      invariant Gathered(h, AllTags(dirs[..i]), AllNeeds(dirs[..i])) && defined == AllDefined(dirs[..i])
      invariant Identified(dirs) ==> PlanetsKnown(dirs, i, h.planetOf)
    {
      hide Gathered, Placed, Identified, PlanetsKnown;
      assert dirs[..i + 1][..i] == dirs[..i];
      ghost var was := h.planetOf;
      h := HarvestDirectory(h, dirs[i], AllTags(dirs[..i]), AllNeeds(dirs[..i]));
      defined := defined + dirs[i].defined;
      if Identified(dirs) {
        PlanetsStep(dirs, i, was, h.planetOf);
      }
    }
    assert dirs[..|dirs|] == dirs;
  }

  /** The stitch: whatever each directory decided for itself, afterwards every required socket
      carries the resolution of all directories together.  Untouched directories are the ones
      where nothing differs. */
  method StitchSockets(dirs: seq<Directory>) returns (final: seq<seq<Entity>>)
    requires forall i, e :: 0 <= i < |dirs| && e in dirs[i].entities && e.path == None ==> e.sockets == []
    ensures |final| == |dirs|
    ensures Identified(dirs) ==> forall i :: 0 <= i < |dirs| ==> final[i] == Stitched(dirs, dirs[i].entities)
  {
    var h, defined := HarvestAll(dirs);
    var candidates := Freeze(h.offered);
    var fixes, affected := Decide(h.needs, candidates, defined, h.planetOf, dirs);
    final := [];
    for i := 0 to |dirs|
      invariant |final| == i
      invariant Identified(dirs) ==> forall k :: 0 <= k < i ==> final[k] == Stitched(dirs, dirs[k].entities)
    {
      hide Gathered, Placed, Identified, PlanetsKnown, Decided, Stitched, AllNeeds, PatchAll;
      var es := dirs[i].entities;
      if dirs[i].planet in affected {
        es := seq(|es|, k requires 0 <= k < |es| => es[k].(sockets := PatchAll(es[k].sockets, fixes)));
      }
      if Identified(dirs) {
        PatchIsStitch(dirs, i, h.planetOf, fixes, affected, es);
      }
      final := final + [es];
    }
  }

  /** The first `n` directories' files with needs are mapped to their own planets. */
  ghost predicate PlanetsKnown(dirs: seq<Directory>, n: nat, planetOf: map<Id, Id>)
    requires n <= |dirs|
  {
    forall i, s :: 0 <= i < n && s in Slots(dirs[i].entities) && s.socket.direction == Requires ==>
      s.owner in planetOf && planetOf[s.owner] == dirs[i].planet
  }

  lemma PlanetsStep(dirs: seq<Directory>, n: nat, was: map<Id, Id>, now: map<Id, Id>)
    requires n < |dirs| && Identified(dirs) && PlanetsKnown(dirs, n, was)
    requires Placed(was, now, Slots(dirs[n].entities), dirs[n].planet)
    ensures PlanetsKnown(dirs, n + 1, now)
  {
    hide Slots;
    forall i, s | 0 <= i < n + 1 && s in Slots(dirs[i].entities) && s.socket.direction == Requires
      ensures s.owner in now && now[s.owner] == dirs[i].planet
    {
      if i == n {
        assert HasNeed(Slots(dirs[n].entities), s.owner);
      } else {
        assert !HasNeed(Slots(dirs[n].entities), s.owner);
      }
    }
  }

  function NeedOf(s: Slot): Need {
    Need(s.owner, s.socket.id, MatchName(s.socket.shape.name), s.socket.resolution)
  }

  lemma {:induction false} NeedsMembers(slots: seq<Slot>)
    ensures forall n :: n in Needs(slots) <==> exists s :: s in slots && s.socket.direction == Requires && n == NeedOf(s)
  {
    if slots != [] {
      var k := |slots| - 1;
      NeedsMembers(slots[..k]);
      assert slots == slots[..k] + [slots[k]];
    }
  }

  lemma {:induction false} AllNeedsMembers(dirs: seq<Directory>)
    ensures forall n :: n in AllNeeds(dirs) <==> exists i :: 0 <= i < |dirs| && n in Needs(Slots(dirs[i].entities))
  {
    hide Needs, Slots;
    if dirs != [] {
      var k := |dirs| - 1;
      AllNeedsMembers(dirs[..k]);
      assert forall i :: 0 <= i < k ==> dirs[..k][i] == dirs[i];
    }
  }

  lemma {:induction false} EntitySlotsMembers(path: string, owner: Id, sockets: seq<Socket>)
    ensures forall i :: 0 <= i < |sockets| ==> Slot(path, owner, sockets[i]) in EntitySlots(path, owner, sockets)
  {
    if sockets != [] {
      EntitySlotsMembers(path, owner, sockets[..|sockets| - 1]);
    }
  }

  lemma {:induction false} SlotsMembers(entities: seq<Entity>, e: Entity, i: nat)
    requires e in entities && e.path.Some? && i < |e.sockets|
    ensures Slot(e.path.value, e.id, e.sockets[i]) in Slots(entities)
  {
    var k := |entities| - 1;
    if entities[k] == e {
      EntitySlotsMembers(e.path.value, e.id, e.sockets);
    } else {
      assert e in entities[..k];
      SlotsMembers(entities[..k], e, i);
    }
  }

  /** Every fix is the global resolution of whatever socket bears its id. */
  lemma FixIsGlobal(dirs: seq<Directory>, i: nat, planetOf: map<Id, Id>, fixes: map<Id, Resolution>,
                    affected: set<Id>, s: Slot)
    requires i < |dirs| && Identified(dirs) && s in Slots(dirs[i].entities)
    requires Decided(dirs, AllNeeds(dirs), planetOf, fixes, affected) && s.socket.id in fixes
    ensures s.socket.direction == Requires && fixes[s.socket.id] == Global(dirs, MatchName(s.socket.shape.name))
  {
    hide Slots, Global, AllNeeds, MatchName, Needs;
    AllNeedsMembers(dirs);
    var n :| n in AllNeeds(dirs) && n.socket == s.socket.id && fixes[s.socket.id] == Global(dirs, n.wanted);
    var j :| 0 <= j < |dirs| && n in Needs(Slots(dirs[j].entities));
    NeedsMembers(Slots(dirs[j].entities));
    var t :| t in Slots(dirs[j].entities) && t.socket.direction == Requires && n == NeedOf(t);
    assert SameRole(s.socket, t.socket);
  }

  /** A required socket in an untouched directory, or without a fix, was right already. */
  lemma UnfixedIsGlobal(dirs: seq<Directory>, i: nat, planetOf: map<Id, Id>, fixes: map<Id, Resolution>,
                        affected: set<Id>, s: Slot)
    requires i < |dirs| && PlanetsKnown(dirs, |dirs|, planetOf)
    requires Decided(dirs, AllNeeds(dirs), planetOf, fixes, affected)
    requires s in Slots(dirs[i].entities) && s.socket.direction == Requires
    requires dirs[i].planet !in affected || s.socket.id !in fixes
    ensures s.socket.resolution == Global(dirs, MatchName(s.socket.shape.name))
  {
    hide Slots, Global, AllNeeds, MatchName, Needs;
    NeedsMembers(Slots(dirs[i].entities));
    AllNeedsMembers(dirs);
    assert NeedOf(s) in Needs(Slots(dirs[i].entities));
    assert NeedOf(s) in AllNeeds(dirs);
  }

  lemma SocketIsStitched(dirs: seq<Directory>, i: nat, planetOf: map<Id, Id>, fixes: map<Id, Resolution>,
                         affected: set<Id>, s: Slot)
    requires i < |dirs| && Identified(dirs) && PlanetsKnown(dirs, |dirs|, planetOf)
    requires Decided(dirs, AllNeeds(dirs), planetOf, fixes, affected)
    requires s in Slots(dirs[i].entities)
    ensures Globally(dirs, s.socket) ==
            if dirs[i].planet in affected && s.socket.id in fixes then s.socket.(resolution := fixes[s.socket.id]) else s.socket
  {
    hide Slots, Global, AllNeeds, MatchName, Identified, Decided, PlanetsKnown;
    if dirs[i].planet in affected && s.socket.id in fixes {
      FixIsGlobal(dirs, i, planetOf, fixes, affected, s);
    } else if s.socket.direction == Requires {
      UnfixedIsGlobal(dirs, i, planetOf, fixes, affected, s);
    }
  }

  lemma PatchIsStitch(dirs: seq<Directory>, i: nat, planetOf: map<Id, Id>, fixes: map<Id, Resolution>,
                      affected: set<Id>, es: seq<Entity>)
    requires i < |dirs| && Identified(dirs) && PlanetsKnown(dirs, |dirs|, planetOf)
    requires Decided(dirs, AllNeeds(dirs), planetOf, fixes, affected)
    requires forall e :: e in dirs[i].entities && e.path == None ==> e.sockets == []
    requires |es| == |dirs[i].entities|
    requires forall k :: 0 <= k < |es| ==>
      es[k] == if dirs[i].planet in affected then dirs[i].entities[k].(sockets := PatchAll(dirs[i].entities[k].sockets, fixes))
               else dirs[i].entities[k]
    ensures es == Stitched(dirs, dirs[i].entities)
  {
    hide Slots, Globally, AllNeeds, Identified, Decided, PlanetsKnown;
    forall k | 0 <= k < |es| ensures es[k] == Stitched(dirs, dirs[i].entities)[k] {
      var e := dirs[i].entities[k];
      assert e in dirs[i].entities;
      if e.path.Some? {
        forall j | 0 <= j < |e.sockets| ensures es[k].sockets[j] == Globally(dirs, e.sockets[j]) {
          SlotsMembers(dirs[i].entities, e, j);
          SocketIsStitched(dirs, i, planetOf, fixes, affected, Slot(e.path.value, e.id, e.sockets[j]));
        }
        assert es[k].sockets == GloballyAll(dirs, e.sockets);
      } else {
        assert es[k].sockets == e.sockets;
      }
    }
  }
}
