/** Stable identity across rescans (`identity.rs`): which fresh declaration is which prior one,
    and the relabelling that follows. */
module Identity {
  import opened Atlas

  datatype Symbol = Symbol(id: Id, name: string, kind: Kind, fingerprint: string, file: string)

  datatype Tally = Tally(preserved: nat, renamed: nat, ambiguous: nat)

  /** The state of matching one file: the prior ids used up, the relabelling so far, the
      declarations left for the second phase, and what was counted. */
  datatype Match = Match(consumed: set<Id>, remap: map<Id, Id>, unmatched: seq<Symbol>, tally: Tally)

  const NOTHING := Match({}, map[], [], Tally(0, 0, 0))

  // ---- Declarations ----

  function FileIds(entities: seq<Entity>): set<Id> {
    set e | e in entities && e.kind == File :: e.id
  }

  function SymbolOf(e: Entity): Symbol {
    Symbol(e.id, e.name, e.kind, e.fingerprint, if e.path.Some? then e.path.value else "")
  }

  function SymbolsUnder(entities: seq<Entity>, files: set<Id>): seq<Symbol> {
    if entities == [] then []
    else
      var last := entities[|entities| - 1];
      SymbolsUnder(entities[..|entities| - 1], files)
      + (if last.parent.Some? && last.parent.value in files then [SymbolOf(last)] else [])
  }

  /** The declarations of a snapshot: the entities placed directly under a file. */
  function Symbols(entities: seq<Entity>): seq<Symbol> {
    SymbolsUnder(entities, FileIds(entities))
  }

  function InFile(symbols: seq<Symbol>, file: string): seq<Symbol> {
    if symbols == [] then []
    else
      var last := symbols[|symbols| - 1];
      InFile(symbols[..|symbols| - 1], file) + (if last.file == file then [last] else [])
  }

  ghost predicate DistinctSymbols(symbols: seq<Symbol>) {
    forall i, j :: 0 <= i < j < |symbols| ==> symbols[i].id != symbols[j].id
  }

  // ---- What matching one file means ----

  /** Same name and kind: only the line moved. */
  predicate Same(p: Symbol, n: Symbol) {
    p.name == n.name && p.kind == n.kind
  }

  /** Same kind and structure under a new name. */
  predicate Alike(p: Symbol, n: Symbol) {
    p.kind == n.kind && p.fingerprint == n.fingerprint
  }

  /** The first prior declaration with the same name and kind that is still free. */
  function FirstSame(prevs: seq<Symbol>, consumed: set<Id>, n: Symbol): Option<Symbol> {
    if prevs == [] then None
    else if prevs[0].id !in consumed && Same(prevs[0], n) then Some(prevs[0])
    else FirstSame(prevs[1..], consumed, n)
  }

  /** The free prior declarations a renamed one could be. */
  function Lookalikes(prevs: seq<Symbol>, consumed: set<Id>, n: Symbol): seq<Symbol> {
    if prevs == [] then []
    else (if prevs[0].id !in consumed && Alike(prevs[0], n) then [prevs[0]] else []) + Lookalikes(prevs[1..], consumed, n)
  }

  /** Gives the prior id of `p` to `n`, and uses it up. */
  function Carry(m: Match, n: Symbol, p: Symbol): Match {
    m.(consumed := m.consumed + {p.id}, remap := if p.id != n.id then m.remap[n.id := p.id] else m.remap)
  }

  function Moved(prevs: seq<Symbol>, m: Match, n: Symbol): Match {
    var p := FirstSame(prevs, m.consumed, n);
    if p == None then m.(unmatched := m.unmatched + [n])
    else Carry(m, n, p.value).(tally := if p.value.id != n.id then m.tally.(preserved := m.tally.preserved + 1) else m.tally)
  }

  function Renamed(prevs: seq<Symbol>, m: Match, n: Symbol): Match {
    var ps := Lookalikes(prevs, m.consumed, n);
    if |ps| == 0 then m
    else if |ps| == 1 then
      Carry(m, n, ps[0]).(tally := if ps[0].id != n.id then m.tally.(renamed := m.tally.renamed + 1) else m.tally)
    else m.(tally := m.tally.(ambiguous := m.tally.ambiguous + 1))
  }

  function FirstPhase(prevs: seq<Symbol>, nexts: seq<Symbol>): Match {
    if nexts == [] then NOTHING
    else Moved(prevs, FirstPhase(prevs, nexts[..|nexts| - 1]), nexts[|nexts| - 1])
  }

  function SecondPhase(prevs: seq<Symbol>, m: Match, nexts: seq<Symbol>): Match {
    if nexts == [] then m
    else Renamed(prevs, SecondPhase(prevs, m, nexts[..|nexts| - 1]), nexts[|nexts| - 1])
  }

  function MatchOf(prevs: seq<Symbol>, nexts: seq<Symbol>): Match {
    var m := FirstPhase(prevs, nexts);
    SecondPhase(prevs, m, m.unmatched)
  }

  // ---- The matching loops ----

  /** The prior ids whose flags are up. */
  ghost function Flagged(prevs: seq<Symbol>, consumed: seq<bool>): set<Id>
    requires |consumed| == |prevs|
  {
    set i | 0 <= i < |prevs| && consumed[i] :: prevs[i].id
  }

  lemma FlagIsMembership(prevs: seq<Symbol>, consumed: seq<bool>)
    requires |consumed| == |prevs| && DistinctSymbols(prevs)
    ensures forall i :: 0 <= i < |prevs| ==> (consumed[i] <==> prevs[i].id in Flagged(prevs, consumed))
  {
    forall i | 0 <= i < |prevs| && prevs[i].id in Flagged(prevs, consumed) ensures consumed[i] {
      var j :| 0 <= j < |prevs| && consumed[j] && prevs[j].id == prevs[i].id;
    }
  }

  lemma RaiseFlag(prevs: seq<Symbol>, consumed: seq<bool>, i: nat)
    requires |consumed| == |prevs| && i < |prevs|
    ensures Flagged(prevs, consumed[i := true]) == Flagged(prevs, consumed) + {prevs[i].id}
  {
    var up := consumed[i := true];
    forall id | id in Flagged(prevs, consumed) + {prevs[i].id} ensures id in Flagged(prevs, up) {
      if id == prevs[i].id {
        assert up[i];
      } else {
        var j :| 0 <= j < |prevs| && consumed[j] && prevs[j].id == id;
        assert up[j];
      }
    }
  }

  method FindSame(prevs: seq<Symbol>, consumed: seq<bool>, n: Symbol) returns (hit: Option<nat>)
    requires |consumed| == |prevs| && DistinctSymbols(prevs)
    ensures hit.Some? ==> hit.value < |prevs|
    ensures FirstSame(prevs, Flagged(prevs, consumed), n) == if hit.Some? then Some(prevs[hit.value]) else None
  {
    FlagIsMembership(prevs, consumed);
    hide Flagged;
    for i := 0 to |prevs|
      invariant FirstSame(prevs, Flagged(prevs, consumed), n) == FirstSame(prevs[i..], Flagged(prevs, consumed), n)
    {
      if !consumed[i] && Same(prevs[i], n) {
        return Some(i);
      }
    }
    return None;
  }

  /** `hits` are the indices of `found`, in order. */
  ghost predicate Points(prevs: seq<Symbol>, hits: seq<nat>, found: seq<Symbol>) {
    |hits| == |found| && forall k :: 0 <= k < |hits| ==> hits[k] < |prevs| && prevs[hits[k]] == found[k]
  }

  lemma PointsMore(prevs: seq<Symbol>, hits: seq<nat>, found: seq<Symbol>, i: nat)
    requires Points(prevs, hits, found) && i < |prevs|
    ensures Points(prevs, hits + [i], found + [prevs[i]])
  {
  }

  method FindAlike(prevs: seq<Symbol>, consumed: seq<bool>, n: Symbol) returns (hits: seq<nat>)
    requires |consumed| == |prevs| && DistinctSymbols(prevs)
    ensures Points(prevs, hits, Lookalikes(prevs, Flagged(prevs, consumed), n))
  {
    FlagIsMembership(prevs, consumed);
    ghost var used := Flagged(prevs, consumed);
    hits := [];
    ghost var found: seq<Symbol> := [];
    assert Points(prevs, hits, found);
    assert prevs[0..] == prevs && found + Lookalikes(prevs, used, n) == Lookalikes(prevs, used, n);
    hide Flagged, Lookalikes, Points, DistinctSymbols, Alike;
    for i := 0 to |prevs|
      invariant Points(prevs, hits, found)
      invariant found + Lookalikes(prevs[i..], used, n) == Lookalikes(prevs, used, n)
    {
      LookalikesStep(prevs, i, used, n, found);
      if !consumed[i] && Alike(prevs[i], n) {
        PointsMore(prevs, hits, found, i);
        hits := hits + [i];
        found := found + [prevs[i]];
      }
    }
    LookalikesEnd(prevs, used, n, found);
  }

  lemma LookalikesStep(prevs: seq<Symbol>, i: nat, used: set<Id>, n: Symbol, found: seq<Symbol>)
    requires i < |prevs|
    ensures (if prevs[i].id !in used && Alike(prevs[i], n) then found + [prevs[i]] else found) + Lookalikes(prevs[i + 1..], used, n)
         == found + Lookalikes(prevs[i..], used, n)
  {
    assert prevs[i..][1..] == prevs[i + 1..];
    var rest := Lookalikes(prevs[i + 1..], used, n);
    assert found + ([prevs[i]] + rest) == found + [prevs[i]] + rest;
  }

  lemma LookalikesEnd(prevs: seq<Symbol>, used: set<Id>, n: Symbol, found: seq<Symbol>)
    ensures found + Lookalikes(prevs[|prevs|..], used, n) == found
  {
  }

  /** The loop variables hold match `m` on top of what other files contributed. */
  ghost predicate Holds(m: Match, prevs: seq<Symbol>, consumed: seq<bool>, all: map<Id, Id>, counts: Tally,
                        remap: map<Id, Id>, tally: Tally) {
    |consumed| == |prevs| && Flagged(prevs, consumed) == m.consumed && all == remap + m.remap && counts == Add(tally, m.tally)
  }

  lemma MovedStep(prevs: seq<Symbol>, s: seq<Symbol>, k: nat)
    requires k < |s|
    ensures FirstPhase(prevs, s[..k + 1]) == Moved(prevs, FirstPhase(prevs, s[..k]), s[k])
  {
    assert s[..k + 1][..k] == s[..k];
  }

  lemma RenamedStep(prevs: seq<Symbol>, m: Match, s: seq<Symbol>, k: nat)
    requires k < |s|
    ensures SecondPhase(prevs, m, s[..k + 1]) == Renamed(prevs, SecondPhase(prevs, m, s[..k]), s[k])
  {
    assert s[..k + 1][..k] == s[..k];
  }

  function Bump(all: map<Id, Id>, n: Symbol, p: Symbol): map<Id, Id> {
    if p.id != n.id then all[n.id := p.id] else all
  }

  lemma CarryHolds(m: Match, prevs: seq<Symbol>, consumed: seq<bool>, all: map<Id, Id>, counts: Tally,
                   remap: map<Id, Id>, tally: Tally, i: nat, n: Symbol, now: Tally)
    requires Holds(m, prevs, consumed, all, counts, remap, tally) && i < |prevs|
    ensures Holds(Carry(m, n, prevs[i]).(tally := now), prevs, consumed[i := true],
                  Bump(all, n, prevs[i]), Add(tally, now), remap, tally)
  {
    RaiseFlag(prevs, consumed, i);
    hide Flagged;
  }

  lemma MovedHit(m: Match, prevs: seq<Symbol>, consumed: seq<bool>, all: map<Id, Id>, counts: Tally,
                 remap: map<Id, Id>, tally: Tally, i: nat, n: Symbol)
    requires Holds(m, prevs, consumed, all, counts, remap, tally) && i < |prevs|
    requires FirstSame(prevs, Flagged(prevs, consumed), n) == Some(prevs[i])
    ensures Moved(prevs, m, n).unmatched == m.unmatched
    ensures Holds(Moved(prevs, m, n), prevs, consumed[i := true], Bump(all, n, prevs[i]),
                  if prevs[i].id != n.id then counts.(preserved := counts.preserved + 1) else counts, remap, tally)
  {
    hide FirstSame, Flagged;
    CarryHolds(m, prevs, consumed, all, counts, remap, tally, i, n, Moved(prevs, m, n).tally);
  }

  lemma MovedMiss(m: Match, prevs: seq<Symbol>, consumed: seq<bool>, all: map<Id, Id>, counts: Tally,
                  remap: map<Id, Id>, tally: Tally, n: Symbol)
    requires Holds(m, prevs, consumed, all, counts, remap, tally)
    requires FirstSame(prevs, Flagged(prevs, consumed), n) == None
    ensures Moved(prevs, m, n).unmatched == m.unmatched + [n]
    ensures Holds(Moved(prevs, m, n), prevs, consumed, all, counts, remap, tally)
  {
    hide FirstSame, Flagged;
  }

  lemma RenamedHit(m: Match, prevs: seq<Symbol>, consumed: seq<bool>, all: map<Id, Id>, counts: Tally,
                   remap: map<Id, Id>, tally: Tally, i: nat, n: Symbol)
    requires Holds(m, prevs, consumed, all, counts, remap, tally) && i < |prevs|
    requires Lookalikes(prevs, Flagged(prevs, consumed), n) == [prevs[i]]
    ensures Holds(Renamed(prevs, m, n), prevs, consumed[i := true], Bump(all, n, prevs[i]),
                  if prevs[i].id != n.id then counts.(renamed := counts.renamed + 1) else counts, remap, tally)
  {
    hide Lookalikes, Flagged;
    CarryHolds(m, prevs, consumed, all, counts, remap, tally, i, n, Renamed(prevs, m, n).tally);
  }

  lemma RenamedMiss(m: Match, prevs: seq<Symbol>, consumed: seq<bool>, all: map<Id, Id>, counts: Tally,
                    remap: map<Id, Id>, tally: Tally, n: Symbol)
    requires Holds(m, prevs, consumed, all, counts, remap, tally)
    requires |Lookalikes(prevs, Flagged(prevs, consumed), n)| != 1
    ensures Holds(Renamed(prevs, m, n), prevs, consumed, all,
                  if |Lookalikes(prevs, Flagged(prevs, consumed), n)| > 1
                  then counts.(ambiguous := counts.ambiguous + 1) else counts, remap, tally)
  {
    hide Lookalikes, Flagged;
  }

  lemma NothingHolds(prevs: seq<Symbol>, nexts: seq<Symbol>, remap: map<Id, Id>, tally: Tally)
    ensures Holds(FirstPhase(prevs, nexts[..0]), prevs, seq(|prevs|, i => false), remap, tally, remap, tally)
    ensures FirstPhase(prevs, nexts[..0]).unmatched == []
  {
    var consumed := seq(|prevs|, i => false);
    assert Flagged(prevs, consumed) == {};
    assert remap + map[] == remap;
  }

  /** Phase 1: same name and kind. */
  method MatchMoved(prevs: seq<Symbol>, nexts: seq<Symbol>, remap: map<Id, Id>, tally: Tally)
    returns (consumed: seq<bool>, all: map<Id, Id>, counts: Tally, unmatched: seq<Symbol>)
    requires DistinctSymbols(prevs)
    ensures Holds(FirstPhase(prevs, nexts), prevs, consumed, all, counts, remap, tally)
    ensures unmatched == FirstPhase(prevs, nexts).unmatched
  {
    consumed, all, counts, unmatched := seq(|prevs|, i => false), remap, tally, [];
    NothingHolds(prevs, nexts, remap, tally);
    hide FirstSame, Flagged, FirstPhase, DistinctSymbols, Holds, Moved, Bump;
    for k := 0 to |nexts|
      invariant |consumed| == |prevs|
      invariant Holds(FirstPhase(prevs, nexts[..k]), prevs, consumed, all, counts, remap, tally)
      invariant unmatched == FirstPhase(prevs, nexts[..k]).unmatched
    {
      var n := nexts[k];
      ghost var m := FirstPhase(prevs, nexts[..k]);
      MovedStep(prevs, nexts, k);
      var hit := FindSame(prevs, consumed, n);
      if hit.Some? {
        MovedHit(m, prevs, consumed, all, counts, remap, tally, hit.value, n);
        consumed := consumed[hit.value := true];
        var p := prevs[hit.value];
        all := Bump(all, n, p);
        if p.id != n.id {
          counts := counts.(preserved := counts.preserved + 1);
        }
      } else {
        MovedMiss(m, prevs, consumed, all, counts, remap, tally, n);
        unmatched := unmatched + [n];
      }
    }
    assert nexts[..|nexts|] == nexts;
  }

  /** Phase 2: the one structural match of the same kind, if it is the only one. */
  method MatchRenamed(prevs: seq<Symbol>, unmatched: seq<Symbol>, flags: seq<bool>, found: map<Id, Id>, counted: Tally,
                      ghost m: Match, ghost remap: map<Id, Id>, ghost tally: Tally)
    returns (all: map<Id, Id>, counts: Tally)
    requires DistinctSymbols(prevs) && Holds(m, prevs, flags, found, counted, remap, tally)
    ensures all == remap + SecondPhase(prevs, m, unmatched).remap
    ensures counts == Add(tally, SecondPhase(prevs, m, unmatched).tally)
  {
    var consumed := flags;
    all, counts := found, counted;
    assert SecondPhase(prevs, m, unmatched[..0]) == m && |flags| == |prevs|;
    hide Lookalikes, Flagged, SecondPhase, DistinctSymbols, Renamed, Bump;
    for k := 0 to |unmatched|
      invariant |consumed| == |prevs|
      invariant Holds(SecondPhase(prevs, m, unmatched[..k]), prevs, consumed, all, counts, remap, tally)
    {
      hide Holds;
      var n := unmatched[k];
      ghost var now := SecondPhase(prevs, m, unmatched[..k]);
      RenamedStep(prevs, m, unmatched, k);
      var hits := FindAlike(prevs, consumed, n);
      if |hits| == 1 {
        assert Lookalikes(prevs, Flagged(prevs, consumed), n) == [prevs[hits[0]]];
        RenamedHit(now, prevs, consumed, all, counts, remap, tally, hits[0], n);
        consumed := consumed[hits[0] := true];
        var p := prevs[hits[0]];
        all := Bump(all, n, p);
        if p.id != n.id {
          counts := counts.(renamed := counts.renamed + 1);
        }
      } else {
        RenamedMiss(now, prevs, consumed, all, counts, remap, tally, n);
        if |hits| > 1 {
          counts := counts.(ambiguous := counts.ambiguous + 1);
        }
      }
    }
    assert unmatched[..|unmatched|] == unmatched;
  }

  /** The two phases for one file.  Prior ids are distinct because they are keys of the store. */
  method MatchFile(prevs: seq<Symbol>, nexts: seq<Symbol>, remap: map<Id, Id>, tally: Tally)
    returns (all: map<Id, Id>, counts: Tally)
    requires DistinctSymbols(prevs)
    ensures all == remap + MatchOf(prevs, nexts).remap
    ensures counts == Add(tally, MatchOf(prevs, nexts).tally)
  {
    hide FirstPhase, SecondPhase, Holds;
    var consumed, found, counted, unmatched := MatchMoved(prevs, nexts, remap, tally);
    all, counts := MatchRenamed(prevs, unmatched, consumed, found, counted, FirstPhase(prevs, nexts), remap, tally);
  }

  function Add(a: Tally, b: Tally): Tally {
    Tally(a.preserved + b.preserved, a.renamed + b.renamed, a.ambiguous + b.ambiguous)
  }

  // ---- All files ----

  function FileRemap(prevs: seq<Symbol>, nexts: seq<Symbol>, file: string): map<Id, Id> {
    MatchOf(InFile(prevs, file), InFile(nexts, file)).remap
  }

  /** `remap` carries ids file by file: a declaration's new id depends on its own file alone. */
  ghost predicate FileByFile(remap: map<Id, Id>, prevs: seq<Symbol>, nexts: seq<Symbol>) {
    && (forall s :: s in nexts ==> CarriedAs(remap, FileRemap(prevs, nexts, s.file), s.id))
    && (forall id :: id in remap ==> exists s :: s in nexts && s.id == id)
  }

  predicate CarriedAs(remap: map<Id, Id>, own: map<Id, Id>, id: Id) {
    (id in remap <==> id in own) && (id in remap ==> remap[id] == own[id])
  }

  function IdSet(symbols: seq<Symbol>): set<Id> {
    set s | s in symbols :: s.id
  }

  lemma {:induction false} FirstSameIsFree(prevs: seq<Symbol>, consumed: set<Id>, n: Symbol)
    ensures var p := FirstSame(prevs, consumed, n);
            p.Some? ==> p.value in prevs && p.value.id !in consumed && Same(p.value, n)
    ensures FirstSame(prevs, consumed, n) == None ==> forall p :: p in prevs && p.id !in consumed ==> !Same(p, n)
  {
    if prevs != [] {
      FirstSameIsFree(prevs[1..], consumed, n);
      assert prevs == [prevs[0]] + prevs[1..];
    }
  }

  lemma {:induction false} LookalikesAreFree(prevs: seq<Symbol>, consumed: set<Id>, n: Symbol)
    ensures forall p :: p in Lookalikes(prevs, consumed, n) <==> p in prevs && p.id !in consumed && Alike(p, n)
  {
    if prevs != [] {
      LookalikesAreFree(prevs[1..], consumed, n);
      assert prevs == [prevs[0]] + prevs[1..];
    }
  }

  /** A match in progress: carried ids are used up, each goes to one declaration, and only
      declarations of the file receive one. */
  ghost predicate Sound(m: Match, prevs: seq<Symbol>, nexts: seq<Symbol>) {
    && m.consumed <= IdSet(prevs) && m.remap.Keys <= IdSet(nexts)
    && (forall id :: id in m.remap ==> m.remap[id] in m.consumed)
    && (forall a, b :: a in m.remap && b in m.remap && m.remap[a] == m.remap[b] ==> a == b)
    && (forall s :: s in m.unmatched ==> s in nexts)
  }

  lemma CarryIsSound(m: Match, prevs: seq<Symbol>, nexts: seq<Symbol>, n: Symbol, p: Symbol)
    requires Sound(m, prevs, nexts) && n in nexts && p in prevs && p.id !in m.consumed
    ensures Sound(Carry(m, n, p), prevs, nexts)
  {
  }

  lemma {:induction false} FirstPhaseIsSound(prevs: seq<Symbol>, nexts: seq<Symbol>, k: nat)
    requires k <= |nexts|
    ensures Sound(FirstPhase(prevs, nexts[..k]), prevs, nexts)
  {
    hide FirstSame;
    if k > 0 {
      FirstPhaseIsSound(prevs, nexts, k - 1);
      MovedStep(prevs, nexts, k - 1);
      var m, n := FirstPhase(prevs, nexts[..k - 1]), nexts[k - 1];
      hide FirstPhase;
      FirstSameIsFree(prevs, m.consumed, n);
      if FirstSame(prevs, m.consumed, n).Some? {
        CarryIsSound(m, prevs, nexts, n, FirstSame(prevs, m.consumed, n).value);
      }
    }
  }

  lemma {:induction false} SecondPhaseIsSound(prevs: seq<Symbol>, nexts: seq<Symbol>, m: Match, left: seq<Symbol>,
                                              k: nat)
    requires Sound(m, prevs, nexts) && k <= |left| && forall s :: s in left ==> s in nexts
    ensures Sound(SecondPhase(prevs, m, left[..k]), prevs, nexts)
  {
    hide Lookalikes;
    if k > 0 {
      SecondPhaseIsSound(prevs, nexts, m, left, k - 1);
      RenamedStep(prevs, m, left, k - 1);
      var now, n := SecondPhase(prevs, m, left[..k - 1]), left[k - 1];
      hide SecondPhase;
      LookalikesAreFree(prevs, now.consumed, n);
      var ps := Lookalikes(prevs, now.consumed, n);
      if |ps| == 1 {
        assert ps[0] in ps;
        CarryIsSound(now, prevs, nexts, n, ps[0]);
      }
    }
  }

  lemma MatchIsSound(prevs: seq<Symbol>, nexts: seq<Symbol>)
    ensures Sound(MatchOf(prevs, nexts), prevs, nexts)
  {
    hide FirstPhase, SecondPhase;
    FirstPhaseIsSound(prevs, nexts, |nexts|);
    assert nexts[..|nexts|] == nexts;
    var m := FirstPhase(prevs, nexts);
    SecondPhaseIsSound(prevs, nexts, m, m.unmatched, |m.unmatched|);
    assert m.unmatched[..|m.unmatched|] == m.unmatched;
  }

  lemma {:induction false} InFileMembers(symbols: seq<Symbol>, file: string)
    ensures forall s :: s in InFile(symbols, file) <==> s in symbols && s.file == file
    ensures DistinctSymbols(symbols) ==> DistinctSymbols(InFile(symbols, file))
  {
    if symbols != [] {
      var n := |symbols| - 1;
      InFileMembers(symbols[..n], file);
      assert symbols == symbols[..n] + [symbols[n]];
      assert DistinctSymbols(symbols) ==> forall s :: s in symbols[..n] ==> s.id != symbols[n].id;
    }
  }

  lemma SymbolsById(symbols: seq<Symbol>, s: Symbol, t: Symbol)
    requires DistinctSymbols(symbols) && s in symbols && t in symbols && s.id == t.id
    ensures s == t
  {
    var i :| 0 <= i < |symbols| && symbols[i] == s;
    var j :| 0 <= j < |symbols| && symbols[j] == t;
  }

  /** No prior id is given to two declarations, of one file or of different ones. */
  lemma NoIdCarriedTwice(remap: map<Id, Id>, prevs: seq<Symbol>, nexts: seq<Symbol>, a: Id, b: Id)
    requires FileByFile(remap, prevs, nexts) && DistinctSymbols(prevs)
    requires a in remap && b in remap && remap[a] == remap[b]
    ensures a == b
  {
    hide MatchOf, InFile;
    var s :| s in nexts && s.id == a;
    var t :| t in nexts && t.id == b;
    InFileMembers(prevs, s.file);
    InFileMembers(prevs, t.file);
    MatchIsSound(InFile(prevs, s.file), InFile(nexts, s.file));
    MatchIsSound(InFile(prevs, t.file), InFile(nexts, t.file));
    var p :| p in InFile(prevs, s.file) && p.id == remap[a];
    var q :| q in InFile(prevs, t.file) && q.id == remap[b];
    SymbolsById(prevs, p, q);
  }

  // ---- The counts ----

  /** Every id carried is counted once, as preserved or as renamed. */
  predicate Counted(m: Match) {
    m.tally.preserved + m.tally.renamed == |m.remap|
  }

  lemma OneMoreCarried(m: Match, n: Symbol, p: Symbol)
    requires n.id !in m.remap
    ensures Carry(m, n, p).remap.Keys <= m.remap.Keys + {n.id}
    ensures |Carry(m, n, p).remap| == |m.remap| + if p.id != n.id then 1 else 0
    ensures Carry(m, n, p).unmatched == m.unmatched
  {
    assert m.remap[n.id := p.id].Keys == m.remap.Keys + {n.id};
  }

  /** After some declarations: those left unmatched are among them and carry nothing. */
  ghost predicate CountedFrom(m: Match, seen: seq<Symbol>) {
    && Counted(m) && m.remap.Keys <= IdSet(seen) && DistinctSymbols(m.unmatched)
    && forall s :: s in m.unmatched ==> s.id !in m.remap && s.id in IdSet(seen)
  }

  lemma LeftUnmatched(m: Match, seen: seq<Symbol>, n: Symbol)
    requires CountedFrom(m, seen) && n.id !in IdSet(seen)
    ensures CountedFrom(m.(unmatched := m.unmatched + [n]), seen + [n])
  {
    hide IdSet;
    OneMoreId(seen, n);
    assert forall s :: s in m.unmatched ==> s.id != n.id;
    assert forall i :: 0 <= i < |m.unmatched| ==> m.unmatched[i] in m.unmatched;
  }

  lemma MovedOver(m: Match, seen: seq<Symbol>, n: Symbol, p: Symbol, now: Tally)
    requires CountedFrom(m, seen) && n.id !in IdSet(seen)
    requires now.preserved + now.renamed == m.tally.preserved + m.tally.renamed + if p.id != n.id then 1 else 0
    ensures CountedFrom(Carry(m, n, p).(tally := now), seen + [n])
  {
    hide IdSet, DistinctSymbols, Carry;
    OneMoreId(seen, n);
    OneMoreCarried(m, n, p);
    assert forall s :: s in m.unmatched ==> s.id != n.id;
  }

  lemma OneMoreId(seen: seq<Symbol>, n: Symbol)
    ensures IdSet(seen + [n]) == IdSet(seen) + {n.id}
  {
  }

  lemma MovedCounts(prevs: seq<Symbol>, m: Match, seen: seq<Symbol>, n: Symbol)
    requires CountedFrom(m, seen) && n.id !in IdSet(seen)
    ensures CountedFrom(Moved(prevs, m, n), seen + [n])
  {
    hide FirstSame, Carry, IdSet, CountedFrom;
    var p := FirstSame(prevs, m.consumed, n);
    if p == None {
      LeftUnmatched(m, seen, n);
    } else {
      MovedOver(m, seen, n, p.value, Moved(prevs, m, n).tally);
    }
  }

  lemma {:induction false} FirstPhaseCounts(prevs: seq<Symbol>, nexts: seq<Symbol>, k: nat)
    requires DistinctSymbols(nexts) && k <= |nexts|
    ensures CountedFrom(FirstPhase(prevs, nexts[..k]), nexts[..k])
  {
    hide FirstPhase, Moved, CountedFrom, IdSet, DistinctSymbols;
    if k == 0 {
      NothingCounted(prevs, nexts);
    } else {
      FirstPhaseCounts(prevs, nexts, k - 1);
      MovedStep(prevs, nexts, k - 1);
      IdIsNew(nexts, k - 1);
      MovedCounts(prevs, FirstPhase(prevs, nexts[..k - 1]), nexts[..k - 1], nexts[k - 1]);
      assert nexts[..k] == nexts[..k - 1] + [nexts[k - 1]];
    }
  }

  lemma NothingCounted(prevs: seq<Symbol>, nexts: seq<Symbol>)
    ensures CountedFrom(FirstPhase(prevs, nexts[..0]), nexts[..0])
  {
  }

  lemma IdIsNew(symbols: seq<Symbol>, i: nat)
    requires DistinctSymbols(symbols) && i < |symbols|
    ensures symbols[i].id !in IdSet(symbols[..i])
  {
  }

  lemma {:induction false} SecondPhaseCounts(prevs: seq<Symbol>, m: Match, left: seq<Symbol>, k: nat)
    requires Counted(m) && DistinctSymbols(left) && k <= |left| && forall s :: s in left ==> s.id !in m.remap
    ensures var now := SecondPhase(prevs, m, left[..k]);
            Counted(now) && forall i :: k <= i < |left| ==> left[i].id !in now.remap
  {
    hide Lookalikes;
    if k > 0 {
      SecondPhaseCounts(prevs, m, left, k - 1);
      RenamedStep(prevs, m, left, k - 1);
      var now, n := SecondPhase(prevs, m, left[..k - 1]), left[k - 1];
      hide SecondPhase;
      var ps := Lookalikes(prevs, now.consumed, n);
      if |ps| == 1 {
        OneMoreCarried(now, n, ps[0]);
      }
    }
  }

  /** The counts of a file's match add up to the ids it carries. */
  lemma MatchIsCounted(prevs: seq<Symbol>, nexts: seq<Symbol>)
    requires DistinctSymbols(nexts)
    ensures Counted(MatchOf(prevs, nexts))
  {
    var m := FirstPhase(prevs, nexts);
    FirstPhaseCounts(prevs, nexts, |nexts|);
    assert nexts[..|nexts|] == nexts;
    SecondPhaseCounts(prevs, m, m.unmatched, |m.unmatched|);
    assert m.unmatched[..|m.unmatched|] == m.unmatched;
  }
}
