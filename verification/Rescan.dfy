/** The rescan as a whole: `reconcile_identity` over every file, the relabelling it applies, and
    why a directory at a time gives the same ids. */
module Rescan {
  import opened Atlas
  import opened Sorting
  import opened Identity
  import opened Ambiguities

  function At(groups: map<string, seq<Symbol>>, file: string): seq<Symbol> {
    if file in groups then groups[file] else []
  }

  method GroupByFile(symbols: seq<Symbol>) returns (groups: map<string, seq<Symbol>>)
    ensures forall file :: At(groups, file) == InFile(symbols, file)
    ensures forall file :: file in groups <==> exists s :: s in symbols && s.file == file
  {
    groups := map[];
    for i := 0 to |symbols|
      invariant forall file :: At(groups, file) == InFile(symbols[..i], file)
      invariant forall file :: file in groups <==> exists s :: s in symbols[..i] && s.file == file
    {
      assert symbols[..i + 1][..i] == symbols[..i];
      assert forall s :: s in symbols[..i + 1] <==> s in symbols[..i] || s == symbols[i];
      groups := groups[symbols[i].file := At(groups, symbols[i].file) + [symbols[i]]];
    }
    assert symbols[..|symbols|] == symbols;
  }

  /** The files matched so far have carried their ids; no other file has. */
  ghost predicate CarriedFrom(remap: map<Id, Id>, prevs: seq<Symbol>, nexts: seq<Symbol>, done: set<string>) {
    && (forall s :: s in nexts && s.file in done ==> CarriedAs(remap, FileRemap(prevs, nexts, s.file), s.id))
    && (forall id :: id in remap ==> exists s :: s in nexts && s.file in done && s.id == id)
  }

  lemma CarryFile(remap: map<Id, Id>, prevs: seq<Symbol>, nexts: seq<Symbol>, done: set<string>, file: string)
    requires CarriedFrom(remap, prevs, nexts, done) && DistinctSymbols(nexts) && file !in done
    ensures CarriedFrom(remap + FileRemap(prevs, nexts, file), prevs, nexts, done + {file})
  {
    hide MatchOf, InFile;
    var own := FileRemap(prevs, nexts, file);
    var all := remap + own;
    MatchIsSound(InFile(prevs, file), InFile(nexts, file));
    InFileMembers(nexts, file);
    forall s | s in nexts && s.file in done + {file} ensures CarriedAs(all, FileRemap(prevs, nexts, s.file), s.id) {
      if s.file == file {
        if s.id in remap {
          var t :| t in nexts && t.file in done && t.id == s.id;
          SymbolsById(nexts, s, t);
        }
      } else if s.id in own {
        var t :| t in InFile(nexts, file) && t.id == s.id;
        SymbolsById(nexts, s, t);
      }
    }
    forall id | id in all ensures exists s :: s in nexts && s.file in done + {file} && s.id == id {
      if id in own {
        var t :| t in InFile(nexts, file) && t.id == id;
      }
    }
  }

  /** One more file's ids and counts. */
  lemma CountFile(remap: map<Id, Id>, prevs: seq<Symbol>, nexts: seq<Symbol>, done: set<string>, file: string)
    requires CarriedFrom(remap, prevs, nexts, done) && DistinctSymbols(nexts) && file !in done
    ensures var m := MatchOf(InFile(prevs, file), InFile(nexts, file));
            |remap + m.remap| == |remap| + m.tally.preserved + m.tally.renamed
  {
    hide MatchOf, InFile;
    var mine := InFile(nexts, file);
    var m := MatchOf(InFile(prevs, file), mine);
    InFileMembers(nexts, file);
    MatchIsCounted(InFile(prevs, file), mine);
    MatchIsSound(InFile(prevs, file), mine);
    forall id | id in remap && id in m.remap ensures false {
      var s :| s in nexts && s.file in done && s.id == id;
      var t :| t in mine && t.id == id;
      SymbolsById(nexts, s, t);
    }
    ApartCount(remap, m.remap);
  }

  lemma ApartCount(a: map<Id, Id>, b: map<Id, Id>)
    requires a.Keys !! b.Keys
    ensures |a + b| == |a| + |b|
  {
    assert (a + b).Keys == a.Keys + b.Keys;
  }

  /** One file of the match; a file with no prior version carries nothing. */
  method ReconcileFile(byFile: map<string, seq<Symbol>>, file: string, fileNexts: seq<Symbol>, remap: map<Id, Id>,
                       tally: Tally,
                       ghost prevs: seq<Symbol>, ghost nexts: seq<Symbol>, ghost done: set<string>)
    returns (all: map<Id, Id>, counts: Tally)
    requires DistinctSymbols(prevs) && DistinctSymbols(nexts) && file !in done
    requires At(byFile, file) == InFile(prevs, file) && fileNexts == InFile(nexts, file)
    requires CarriedFrom(remap, prevs, nexts, done) && tally.preserved + tally.renamed == |remap|
    ensures CarriedFrom(all, prevs, nexts, done + {file}) && counts.preserved + counts.renamed == |all|
    ensures counts.ambiguous == tally.ambiguous + MatchOf(InFile(prevs, file), InFile(nexts, file)).tally.ambiguous
  {
    hide MatchOf, InFile, DistinctSymbols, CarriedAs, CarriedFrom, FileRemap;
    CarryFile(remap, prevs, nexts, done, file);
    CountFile(remap, prevs, nexts, done, file);
    OwnFile(prevs, nexts, file);
    if file in byFile {
      all, counts := MatchFile(byFile[file], fileNexts, remap, tally);
    } else {
      NothingPrior(fileNexts);
      assert remap + map[] == remap;
      all, counts := remap, tally;
    }
  }

  /** `reconcile_identity` up to the relabelling: the files are matched in whatever order the
      hash map yields them, and the order does not show. Every carried id is counted once. */
  method Reconcile(prev: seq<Entity>, next: seq<Entity>) returns (remap: map<Id, Id>, tally: Tally)
    requires DistinctSymbols(Symbols(prev)) && DistinctSymbols(Symbols(next))
    ensures FileByFile(remap, Symbols(prev), Symbols(next))
    ensures tally.preserved + tally.renamed == |remap|
    ensures tally.ambiguous == |UndecidedIn(Symbols(prev), Symbols(next))|
  {
    hide InFile, DistinctSymbols, CarriedFrom, Symbols, FileByFile, UndecidedOf, UndecidedIn, MatchOf;
    var prevs, nexts := Symbols(prev), Symbols(next);
    var byFile := GroupByFile(prevs);
    var nextByFile := GroupByFile(nexts);
    remap, tally := map[], Tally(0, 0, 0);
    var files, done := nextByFile.Keys, {};
    NoneCarried(prevs, nexts);
    NoneUndecided(prevs, nexts);
    while files != {}
      invariant files !! done && files + done == nextByFile.Keys
      invariant CarriedFrom(remap, prevs, nexts, done)
      invariant tally.preserved + tally.renamed == |remap|
      invariant tally.ambiguous == |UndecidedOf(prevs, nexts, done)|
    {
      var file :| file in files;
      files := files - {file};
      assert At(nextByFile, file) == InFile(nexts, file) && At(byFile, file) == InFile(prevs, file);
      UndecidedNext(prevs, nexts, done, file);
      remap, tally := ReconcileFile(byFile, file, nextByFile[file], remap, tally, prevs, nexts, done);
      done := done + {file};
    }
    AllCarried(remap, prevs, nexts, done);
    AllUndecided(prevs, nexts, done);
  }

  /** The declarations of the files in `done` with several priors to choose from. */
  ghost function UndecidedOf(prevs: seq<Symbol>, nexts: seq<Symbol>, done: set<string>): set<Symbol> {
    set s | s in nexts && s.file in done && Undecided(InFile(prevs, s.file), InFile(nexts, s.file), s)
  }

  ghost function UndecidedIn(prevs: seq<Symbol>, nexts: seq<Symbol>): set<Symbol> {
    set s | s in nexts && Undecided(InFile(prevs, s.file), InFile(nexts, s.file), s)
  }

  lemma NoneUndecided(prevs: seq<Symbol>, nexts: seq<Symbol>)
    ensures |UndecidedOf(prevs, nexts, {})| == 0
  {
    assert UndecidedOf(prevs, nexts, {}) == {};
  }

  lemma AllUndecided(prevs: seq<Symbol>, nexts: seq<Symbol>, done: set<string>)
    requires forall s :: s in nexts ==> s.file in done
    ensures UndecidedOf(prevs, nexts, done) == UndecidedIn(prevs, nexts)
  {
    hide Undecided, InFile;
  }

  /** One more file's ambiguities. */
  lemma UndecidedNext(prevs: seq<Symbol>, nexts: seq<Symbol>, done: set<string>, file: string)
    requires DistinctSymbols(prevs) && DistinctSymbols(nexts) && file !in done
    ensures |UndecidedOf(prevs, nexts, done + {file})| ==
            |UndecidedOf(prevs, nexts, done)| + MatchOf(InFile(prevs, file), InFile(nexts, file)).tally.ambiguous
  {
    hide Undecided, InFile, MatchOf, DistinctSymbols;
    InFileMembers(prevs, file);
    InFileMembers(nexts, file);
    var mine := set s | s in InFile(nexts, file) && Undecided(InFile(prevs, file), InFile(nexts, file), s);
    AmbiguousIsUndecided(InFile(prevs, file), InFile(nexts, file));
    assert UndecidedOf(prevs, nexts, done + {file}) == UndecidedOf(prevs, nexts, done) + mine;
    assert UndecidedOf(prevs, nexts, done) !! mine;
  }

  lemma NoneCarried(prevs: seq<Symbol>, nexts: seq<Symbol>)
    ensures CarriedFrom(map[], prevs, nexts, {})
  {
  }

  lemma AllCarried(remap: map<Id, Id>, prevs: seq<Symbol>, nexts: seq<Symbol>, done: set<string>)
    requires CarriedFrom(remap, prevs, nexts, done) && forall s :: s in nexts ==> s.file in done
    ensures FileByFile(remap, prevs, nexts)
  {
    hide FileRemap, CarriedAs;
  }

  lemma OwnFile(prevs: seq<Symbol>, nexts: seq<Symbol>, file: string)
    ensures FileRemap(prevs, nexts, file) == MatchOf(InFile(prevs, file), InFile(nexts, file)).remap
    ensures DistinctSymbols(prevs) ==> DistinctSymbols(InFile(prevs, file))
    ensures DistinctSymbols(nexts) ==> DistinctSymbols(InFile(nexts, file))
  {
    hide MatchOf;
    InFileMembers(prevs, file);
    InFileMembers(nexts, file);
  }

  /** A file with no prior version carries nothing. */
  lemma NothingPrior(nexts: seq<Symbol>)
    requires DistinctSymbols(nexts)
    ensures MatchOf([], nexts).remap == map[] && MatchOf([], nexts).tally.ambiguous == 0
  {
    hide MatchOf, FirstPhase;
    MatchIsSound([], nexts);
    assert MatchOf([], nexts).remap.Keys == {};
    AmbiguousIsUndecided([], nexts);
    assert (set s | s in nexts && Undecided([], nexts, s)) == {};
  }

  // ---- The relabelling ----

  function Relabel(remap: map<Id, Id>, id: Id): Id {
    if id in remap then remap[id] else id
  }

  function RelabelSockets(remap: map<Id, Id>, sockets: seq<Socket>): (r: seq<Socket>)
    ensures |r| == |sockets|
    ensures forall i :: 0 <= i < |r| ==> r[i] == sockets[i].(owner := Relabel(remap, sockets[i].owner))
  {
    seq(|sockets|, i requires 0 <= i < |sockets| => sockets[i].(owner := Relabel(remap, sockets[i].owner)))
  }

  function RelabelEntity(remap: map<Id, Id>, e: Entity): Entity {
    e.(id := Relabel(remap, e.id),
       parent := if e.parent.Some? then Some(Relabel(remap, e.parent.value)) else None,
       sockets := RelabelSockets(remap, e.sockets))
  }

  function RelabelEdge(remap: map<Id, Id>, e: Edge): Edge {
    e.(source := Relabel(remap, e.source), target := Relabel(remap, e.target))
  }

  lemma NoRelabelling(e: Entity)
    ensures RelabelEntity(map[], e) == e
  {
    assert RelabelSockets(map[], e.sockets) == e.sockets;
  }

  lemma NoEdgeRelabelling(e: Edge)
    ensures RelabelEdge(map[], e) == e
  {
  }

  /** `apply_remap`: every reference to a carried id is rewritten, in place. */
  method ApplyRemap(entities: array<Entity>, edges: array<Edge>, remap: map<Id, Id>)
    modifies entities, edges
    ensures forall i :: 0 <= i < entities.Length ==> entities[i] == RelabelEntity(remap, old(entities[i]))
    ensures forall i :: 0 <= i < edges.Length ==> edges[i] == RelabelEdge(remap, old(edges[i]))
  {
    hide RelabelEntity, RelabelEdge;
    if remap == map[] {
      forall i | 0 <= i < entities.Length { NoRelabelling(entities[i]); }
      forall i | 0 <= i < edges.Length { NoEdgeRelabelling(edges[i]); }
      return;
    }
    for i := 0 to entities.Length
      invariant forall k :: 0 <= k < i ==> entities[k] == RelabelEntity(remap, old(entities[k]))
      invariant forall k :: i <= k < entities.Length ==> entities[k] == old(entities[k])
      invariant forall k :: 0 <= k < edges.Length ==> edges[k] == old(edges[k])
    {
      entities[i] := RelabelEntity(remap, entities[i]);
    }
    for i := 0 to edges.Length
      invariant forall k :: 0 <= k < entities.Length ==> entities[k] == RelabelEntity(remap, old(entities[k]))
      invariant forall k :: 0 <= k < i ==> edges[k] == RelabelEdge(remap, old(edges[k]))
      invariant forall k :: i <= k < edges.Length ==> edges[k] == old(edges[k])
    {
      edges[i] := RelabelEdge(remap, edges[i]);
    }
  }

  function RelabelAll(remap: map<Id, Id>, entities: seq<Entity>): (r: seq<Entity>)
    ensures |r| == |entities| && forall i :: 0 <= i < |r| ==> r[i] == RelabelEntity(remap, entities[i])
  {
    seq(|entities|, i requires 0 <= i < |entities| => RelabelEntity(remap, entities[i]))
  }

  /** An entity that keeps its fresh id bears one that was carried to another declaration. */
  ghost predicate Collides(remap: map<Id, Id>, entities: seq<Entity>) {
    exists e :: e in entities && e.id !in remap && e.id in remap.Values
  }

  /** The exact condition for the relabelled ids to stay distinct: no entity that keeps its
      fresh id already bears a carried one. */
  lemma DistinctIffNoCollision(remap: map<Id, Id>, prevs: seq<Symbol>, entities: seq<Entity>)
    requires FileByFile(remap, prevs, Symbols(entities)) && DistinctSymbols(prevs) && DistinctIds(entities)
    ensures DistinctIds(RelabelAll(remap, entities)) <==> !Collides(remap, entities)
  {
    hide FileByFile, Symbols, RelabelEntity;
    var r := RelabelAll(remap, entities);
    forall i { RelabelledId(remap, entities, i); }
    if Collides(remap, entities) {
      var e :| e in entities && e.id !in remap && e.id in remap.Values;
      var i :| 0 <= i < |entities| && entities[i] == e;
      var id :| id in remap && remap[id] == e.id;
      CarriedAreEntities(remap, prevs, entities, id);
      var j :| 0 <= j < |entities| && entities[j].id == id;
      assert r[i].id == r[j].id && i != j;
    } else {
      forall i, j | 0 <= i < j < |r| ensures r[i].id != r[j].id {
        var a, b := entities[i].id, entities[j].id;
        assert a != b && entities[i] in entities && entities[j] in entities;
        if a in remap && b in remap && remap[a] == remap[b] {
          NoIdCarriedTwice(remap, prevs, Symbols(entities), a, b);
        }
      }
    }
  }

  lemma RelabelledId(remap: map<Id, Id>, entities: seq<Entity>, i: int)
    ensures 0 <= i < |entities| ==> RelabelAll(remap, entities)[i].id == Relabel(remap, entities[i].id)
  {
  }

  lemma {:induction false} SymbolsAreEntities(entities: seq<Entity>, files: set<Id>)
    ensures forall s :: s in SymbolsUnder(entities, files) ==> exists e :: e in entities && s == SymbolOf(e)
  {
    if entities != [] {
      var n := |entities| - 1;
      SymbolsAreEntities(entities[..n], files);
      assert entities == entities[..n] + [entities[n]];
    }
  }

  lemma CarriedAreEntities(remap: map<Id, Id>, prevs: seq<Symbol>, entities: seq<Entity>, id: Id)
    requires FileByFile(remap, prevs, Symbols(entities)) && id in remap
    ensures exists j :: 0 <= j < |entities| && entities[j].id == id
  {
    SymbolsAreEntities(entities, FileIds(entities));
    var s :| s in Symbols(entities) && s.id == id;
    var e :| e in entities && s == SymbolOf(e);
    var j :| 0 <= j < |entities| && entities[j] == e;
  }

  /** With no collision the relabelled graph is the same graph: containment, edges and socket
      ownership hold between relabelled entities exactly where they held before. */
  lemma RelabellingIsIsomorphism(remap: map<Id, Id>, prevs: seq<Symbol>, entities: seq<Entity>, a: Entity, b: Entity,
                                 edge: Edge)
    requires FileByFile(remap, prevs, Symbols(entities)) && DistinctSymbols(prevs) && DistinctIds(entities)
    requires !Collides(remap, entities) && a in entities && b in entities
    requires forall e :: e in entities && e.parent.Some? ==> exists p :: p in entities && p.id == e.parent.value
    requires (exists e :: e in entities && e.id == edge.source) && (exists e :: e in entities && e.id == edge.target)
    ensures RelabelEntity(remap, b).parent == Some(RelabelEntity(remap, a).id) <==> b.parent == Some(a.id)
    ensures RelabelEdge(remap, edge).source == RelabelEntity(remap, a).id <==> edge.source == a.id
    ensures RelabelEdge(remap, edge).target == RelabelEntity(remap, a).id <==> edge.target == a.id
    ensures (forall s :: s in b.sockets ==> s.owner == b.id) ==>
              forall s :: s in RelabelEntity(remap, b).sockets ==> s.owner == RelabelEntity(remap, b).id
  {
    hide FileByFile, Symbols, DistinctSymbols, DistinctIds, Collides, RelabelSockets;
    if b.parent.Some? {
      SameLabelSameEntity(remap, prevs, entities, b.parent.value, a.id);
    }
    SameLabelSameEntity(remap, prevs, entities, edge.source, a.id);
    SameLabelSameEntity(remap, prevs, entities, edge.target, a.id);
    if forall s :: s in b.sockets ==> s.owner == b.id {
      OwnersFollow(remap, b);
    }
  }

  lemma OwnersFollow(remap: map<Id, Id>, e: Entity)
    requires forall s :: s in e.sockets ==> s.owner == e.id
    ensures forall s :: s in RelabelSockets(remap, e.sockets) ==> s.owner == Relabel(remap, e.id)
  {
    var r := RelabelSockets(remap, e.sockets);
    forall s | s in r ensures s.owner == Relabel(remap, e.id) {
      var i :| 0 <= i < |r| && r[i] == s;
      assert e.sockets[i] in e.sockets;
    }
  }

  lemma SameLabelSameEntity(remap: map<Id, Id>, prevs: seq<Symbol>, entities: seq<Entity>, x: Id, y: Id)
    requires FileByFile(remap, prevs, Symbols(entities)) && DistinctSymbols(prevs) && !Collides(remap, entities)
    requires (exists e :: e in entities && e.id == x) && (exists e :: e in entities && e.id == y)
    ensures Relabel(remap, x) == Relabel(remap, y) ==> x == y
  {
    hide FileByFile, Symbols;
    if x in remap && y in remap && remap[x] == remap[y] {
      NoIdCarriedTwice(remap, prevs, Symbols(entities), x, y);
    }
  }

  // ---- One directory at a time ----

  function SameAs(prevs: seq<Symbol>, n: Symbol): seq<Symbol> {
    if prevs == [] then []
    else (if Same(prevs[0], n) then [prevs[0]] else []) + SameAs(prevs[1..], n)
  }

  /** Two orders of one set of prior declarations that agree among those of one name and kind. */
  ghost predicate Compatible(a: seq<Symbol>, b: seq<Symbol>) {
    && DistinctSymbols(a) && DistinctSymbols(b)
    && (forall s :: s in a <==> s in b)
    && (forall n :: SameAs(a, n) == SameAs(b, n))
  }

  lemma {:induction false} FirstAmongSame(prevs: seq<Symbol>, consumed: set<Id>, n: Symbol)
    ensures FirstSame(prevs, consumed, n) == FirstSame(SameAs(prevs, n), consumed, n)
  {
    if prevs != [] {
      FirstAmongSame(prevs[1..], consumed, n);
      var rest := SameAs(prevs[1..], n);
      assert [] + rest == rest && ([prevs[0]] + rest)[1..] == rest;
    }
  }

  lemma {:induction false} LookalikesDistinct(prevs: seq<Symbol>, consumed: set<Id>, n: Symbol)
    requires DistinctSymbols(prevs)
    ensures DistinctSymbols(Lookalikes(prevs, consumed, n))
  {
    if prevs != [] {
      LookalikesDistinct(prevs[1..], consumed, n);
      LookalikesAreFree(prevs[1..], consumed, n);
      assert forall s :: s in prevs[1..] ==> s.id != prevs[0].id;
    }
  }

  lemma {:induction false} DistinctCount(s: seq<Symbol>)
    requires DistinctSymbols(s)
    ensures |set x | x in s| == |s|
  {
    if s != [] {
      var n := |s| - 1;
      DistinctCount(s[..n]);
      assert s == s[..n] + [s[n]];
      assert (set x | x in s) == (set x | x in s[..n]) + {s[n]};
      assert s[n] !in s[..n];
    }
  }

  lemma SameLookalikes(a: seq<Symbol>, b: seq<Symbol>, consumed: set<Id>, n: Symbol)
    requires Compatible(a, b)
    ensures var la, lb := Lookalikes(a, consumed, n), Lookalikes(b, consumed, n);
            |la| == |lb| && (|la| == 1 ==> la[0] == lb[0])
  {
    hide Lookalikes, SameAs;
    var la, lb := Lookalikes(a, consumed, n), Lookalikes(b, consumed, n);
    LookalikesAreFree(a, consumed, n);
    LookalikesAreFree(b, consumed, n);
    LookalikesDistinct(a, consumed, n);
    LookalikesDistinct(b, consumed, n);
    DistinctCount(la);
    DistinctCount(lb);
    assert (set x | x in la) == (set x | x in lb);
    if |la| == 1 {
      assert la[0] in la && la[0] in lb;
    }
  }

  lemma SameMoved(a: seq<Symbol>, b: seq<Symbol>, m: Match, n: Symbol)
    requires Compatible(a, b)
    ensures Moved(a, m, n) == Moved(b, m, n)
  {
    hide FirstSame, SameAs;
    FirstAmongSame(a, m.consumed, n);
    FirstAmongSame(b, m.consumed, n);
  }

  lemma SameRenamed(a: seq<Symbol>, b: seq<Symbol>, m: Match, n: Symbol)
    requires Compatible(a, b)
    ensures Renamed(a, m, n) == Renamed(b, m, n)
  {
    SameLookalikes(a, b, m.consumed, n);
    hide Lookalikes, Compatible, Carry;
  }

  lemma {:induction false} SameFirstPhase(a: seq<Symbol>, b: seq<Symbol>, nexts: seq<Symbol>, k: nat)
    requires Compatible(a, b) && k <= |nexts|
    ensures FirstPhase(a, nexts[..k]) == FirstPhase(b, nexts[..k])
    decreases k
  {
    assert FirstPhase(a, nexts[..0]) == FirstPhase(b, nexts[..0]);
    hide FirstPhase, Compatible, Moved;
    if k > 0 {
      SameFirstPhase(a, b, nexts, k - 1);
      MovedStep(a, nexts, k - 1);
      MovedStep(b, nexts, k - 1);
      SameMoved(a, b, FirstPhase(a, nexts[..k - 1]), nexts[k - 1]);
    }
  }

  lemma {:induction false} SameSecondPhase(a: seq<Symbol>, b: seq<Symbol>, m: Match, left: seq<Symbol>, k: nat)
    requires Compatible(a, b) && k <= |left|
    ensures SecondPhase(a, m, left[..k]) == SecondPhase(b, m, left[..k])
    decreases k
  {
    hide SecondPhase, Compatible, Renamed;
    if k == 0 {
      NothingRenamed(a, m, left);
      NothingRenamed(b, m, left);
    } else {
      SameSecondPhase(a, b, m, left, k - 1);
      RenamedStep(a, m, left, k - 1);
      RenamedStep(b, m, left, k - 1);
      SameRenamed(a, b, SecondPhase(a, m, left[..k - 1]), left[k - 1]);
    }
  }

  /** The order in which the store hands back unrelated prior declarations does not matter. */
  lemma MatchIgnoresOrder(a: seq<Symbol>, b: seq<Symbol>, nexts: seq<Symbol>)
    requires Compatible(a, b)
    ensures MatchOf(a, nexts) == MatchOf(b, nexts)
  {
    hide FirstPhase, SecondPhase, Compatible;
    SameFirstPhase(a, b, nexts, |nexts|);
    assert nexts[..|nexts|] == nexts;
    var left := FirstPhase(a, nexts).unmatched;
    SameSecondPhase(a, b, FirstPhase(a, nexts), left, |left|);
    assert left[..|left|] == left;
  }

  // ---- The two orders of the store ----

  /** A whole snapshot is loaded by name, then id; one directory's subtree by id alone. */
  predicate ByNameThenId(a: Symbol, b: Symbol) {
    if a.name == b.name then a.id <= b.id else TextLeq(a.name, b.name)
  }

  predicate ById(a: Symbol, b: Symbol) {
    a.id <= b.id
  }

  lemma {:induction false} SameAsSorted(prevs: seq<Symbol>, n: Symbol, leq: (Symbol, Symbol) -> bool)
    requires Sorted(prevs, leq)
    requires forall x: Symbol, y: Symbol :: x.name == y.name && leq(x, y) ==> ById(x, y)
    ensures Sorted(SameAs(prevs, n), ById)
    ensures forall s :: s in SameAs(prevs, n) ==> s in prevs && Same(s, n)
  {
    if prevs != [] {
      SameAsSorted(prevs[1..], n, leq);
      var rest := SameAs(prevs[1..], n);
      forall s | s in rest && Same(prevs[0], n) ensures ById(prevs[0], s) {
        var i :| 0 < i < |prevs| && prevs[i] == s;
        assert leq(prevs[0], prevs[i]);
      }
    }
  }

  lemma {:induction false} SameAsCount(prevs: seq<Symbol>, n: Symbol, s: Symbol)
    ensures multiset(SameAs(prevs, n))[s] == if Same(s, n) then multiset(prevs)[s] else 0
  {
    if prevs != [] {
      SameAsCount(prevs[1..], n, s);
      assert prevs == [prevs[0]] + prevs[1..];
    }
  }

  lemma StoreOrdersCompatible(whole: seq<Symbol>, subtree: seq<Symbol>)
    requires DistinctSymbols(whole) && DistinctSymbols(subtree) && multiset(whole) == multiset(subtree)
    requires Sorted(whole, ByNameThenId) && Sorted(subtree, ById)
    ensures Compatible(whole, subtree)
  {
    forall s ensures s in whole <==> s in subtree {
      assert s in multiset(whole) <==> s in multiset(subtree);
    }
    forall n ensures SameAs(whole, n) == SameAs(subtree, n) {
      SameAsSorted(whole, n, ByNameThenId);
      SameAsSorted(subtree, n, ById);
      var a, b := SameAs(whole, n), SameAs(subtree, n);
      forall s ensures multiset(a)[s] == multiset(b)[s] {
        SameAsCount(whole, n, s);
        SameAsCount(subtree, n, s);
      }
      forall x, y | x in a && y in a && ById(x, y) && ById(y, x) ensures x == y {
        SymbolsById(whole, x, y);
      }
      hide SameAs;
      assert multiset(a) == multiset(b);
      SortedIsUnique(a, b, ById);
    }
  }

  /** What a directory's own reconciliation carries for a declaration is what the whole
      snapshot's carries: same files, and prior declarations loaded in the store's two orders. */
  lemma DirectoryCarriesTheSame(whole: map<Id, Id>, part: map<Id, Id>,
                                prevs: seq<Symbol>, nexts: seq<Symbol>, partPrevs: seq<Symbol>, partNexts: seq<Symbol>, s: Symbol)
    requires FileByFile(whole, prevs, nexts) && FileByFile(part, partPrevs, partNexts)
    requires s in nexts && s in partNexts && InFile(nexts, s.file) == InFile(partNexts, s.file)
    requires DistinctSymbols(prevs) && DistinctSymbols(partPrevs)
    requires multiset(InFile(prevs, s.file)) == multiset(InFile(partPrevs, s.file))
    requires Sorted(InFile(prevs, s.file), ByNameThenId) && Sorted(InFile(partPrevs, s.file), ById)
    ensures Relabel(whole, s.id) == Relabel(part, s.id)
  {
    hide MatchOf, InFile, Compatible, Sorted;
    InFileMembers(prevs, s.file);
    InFileMembers(partPrevs, s.file);
    StoreOrdersCompatible(InFile(prevs, s.file), InFile(partPrevs, s.file));
    MatchIgnoresOrder(InFile(prevs, s.file), InFile(partPrevs, s.file), InFile(nexts, s.file));
  }

  // ---- Where uniqueness fails ----

  /** A second declaration of the same name put above the first, in place of other lines: the
      added one is matched to the earlier declaration and takes its id, which the earlier
      declaration, still on its line, bears as its fresh id. */
  lemma NewNamesakeAboveCollides(earlier: Entity, added: Entity, file: Entity)
    requires file.kind == File && file.parent != Some(file.id) && earlier.parent == Some(file.id)
    requires added.parent == Some(file.id)
    requires added.id != earlier.id && file.id != earlier.id && file.id != added.id
    requires earlier.kind == Function && added.kind == Function && earlier.name == added.name
    requires earlier.path == added.path
    ensures DistinctIds([file, added, earlier])
    ensures MatchOf(Symbols([file, earlier]), Symbols([file, added, earlier])).remap == map[added.id := earlier.id]
    ensures !DistinctIds(RelabelAll(map[added.id := earlier.id], [file, added, earlier]))
  {
    var p, a := SymbolOf(earlier), SymbolOf(added);
    TwoSymbols(file, earlier, added);
    AddedTakesTheId(p, a);
    var next := [file, added, earlier];
    var r := RelabelAll(map[a.id := p.id], next);
    hide RelabelEntity;
    RelabelledId(map[a.id := p.id], next, 1);
    RelabelledId(map[a.id := p.id], next, 2);
    assert r[1].id == r[2].id;
  }

  lemma AddedTakesTheId(p: Symbol, a: Symbol)
    requires p.id != a.id && Same(p, a)
    ensures MatchOf([p], [a, p]).remap == map[a.id := p.id]
  {
    var m := Carry(NOTHING, a, p).(tally := Tally(1, 0, 0));
    assert Moved([p], NOTHING, a) == m && m.consumed == {p.id};
    assert [p][1..] == [];
    assert FirstSame([p], {p.id}, p) == FirstSame([], {p.id}, p);
    assert Lookalikes([p], {p.id}, p) == [] + Lookalikes([], {p.id}, p);
    assert Moved([p], m, p) == m.(unmatched := [p]);
    MovedStep([p], [a, p], 0);
    MovedStep([p], [a, p], 1);
    assert [a, p][..0] == [] && [a, p][..2] == [a, p] && [p][..0] == [];
    assert Renamed([p], m.(unmatched := [p]), p) == m.(unmatched := [p]);
    assert SecondPhase([p], m.(unmatched := [p]), []) == m.(unmatched := [p]);
  }

  lemma TwoSymbols(file: Entity, earlier: Entity, added: Entity)
    requires file.kind == File && file.parent != Some(file.id) && earlier.parent == Some(file.id)
    requires added.parent == Some(file.id)
    requires earlier.kind == Function && added.kind == Function
    ensures Symbols([file, earlier]) == [SymbolOf(earlier)]
    ensures Symbols([file, added, earlier]) == [SymbolOf(added), SymbolOf(earlier)]
  {
    assert FileIds([file, earlier]) == {file.id} && FileIds([file, added, earlier]) == {file.id};
    assert [file, earlier][..1] == [file] && [file][..0] == [];
    assert [file, added, earlier][..2] == [file, added] && [file, added][..1] == [file];
    assert SymbolsUnder([file], {file.id}) == [];
    assert SymbolsUnder([file, added], {file.id}) == [SymbolOf(added)];
  }
}
