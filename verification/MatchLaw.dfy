/** The law of matching one file, told from the two versions alone: the i-th declaration of a name
    and kind is the i-th prior one, and of those left over, only the first of its structure is
    taken for a prior declaration, and only when exactly one of that structure is free. */
module MatchLaws {
  import opened Atlas
  import opened Identity
  import opened Ambiguities
  import opened Rescan

  // ---- The law ----

  /** How many declarations before `s[i]` share its name and kind. */
  function Turn(s: seq<Symbol>, i: nat): nat
    requires i < |s|
  {
    |SameAs(s[..i], s[i])|
  }

  /** The new declaration `j` comes after all prior ones of its name and kind were given away. */
  predicate Left(prevs: seq<Symbol>, nexts: seq<Symbol>, j: nat)
    requires j < |nexts|
  {
    Turn(nexts, j) >= |SameAs(prevs, nexts[j])|
  }

  /** The prior declaration `i` is reached by no new one of its name and kind. */
  predicate Free(prevs: seq<Symbol>, nexts: seq<Symbol>, i: nat)
    requires i < |prevs|
  {
    Turn(prevs, i) >= |SameAs(nexts, prevs[i])|
  }

  /** The free prior declarations of the structure of `n`, in order. */
  function FreeAlike(prevs: seq<Symbol>, nexts: seq<Symbol>, n: Symbol, k: nat): seq<Symbol>
    requires k <= |prevs|
  {
    if k == 0 then []
    else
      FreeAlike(prevs, nexts, n, k - 1)
      + (if Free(prevs, nexts, k - 1) && Alike(prevs[k - 1], n) then [prevs[k - 1]] else [])
  }

  /** Another left-over declaration of the structure of `n` stands among the first `k`. */
  predicate Preceded(prevs: seq<Symbol>, nexts: seq<Symbol>, n: Symbol, k: nat)
    requires k <= |nexts|
  {
    exists i :: 0 <= i < k && Left(prevs, nexts, i) && Alike(nexts[i], n)
  }

  /** The prior declaration that the new one at `j` is taken for. */
  function Heir(prevs: seq<Symbol>, nexts: seq<Symbol>, j: nat): Option<Symbol>
    requires j < |nexts|
  {
    var n := nexts[j];
    if !Left(prevs, nexts, j) then Some(SameAs(prevs, n)[Turn(nexts, j)])
    else
      var free := FreeAlike(prevs, nexts, n, |prevs|);
      if |free| == 1 && !Preceded(prevs, nexts, n, j) then Some(free[0]) else None
  }

  // ---- Declarations of one name and kind ----

  lemma {:induction false} SameAsConcat(a: seq<Symbol>, b: seq<Symbol>, n: Symbol)
    ensures SameAs(a + b, n) == SameAs(a, n) + SameAs(b, n)
  {
    if a == [] {
      assert a + b == b;
    } else {
      assert (a + b)[1..] == a[1..] + b;
      SameAsConcat(a[1..], b, n);
    }
  }

  lemma SameAsMore(s: seq<Symbol>, k: nat, n: Symbol)
    requires k < |s|
    ensures SameAs(s[..k + 1], n) == SameAs(s[..k], n) + (if Same(s[k], n) then [s[k]] else [])
  {
    assert s[..k + 1] == s[..k] + [s[k]];
    SameAsConcat(s[..k], [s[k]], n);
    assert [s[k]][1..] == [];
  }

  lemma {:induction false} SameAsMembers(s: seq<Symbol>, n: Symbol)
    ensures forall x :: x in SameAs(s, n) <==> x in s && Same(x, n)
  {
    if s != [] {
      SameAsMembers(s[1..], n);
      assert s == [s[0]] + s[1..];
    }
  }

  lemma {:induction false} SameAsDistinct(s: seq<Symbol>, n: Symbol)
    requires DistinctSymbols(s)
    ensures DistinctSymbols(SameAs(s, n))
  {
    if s != [] {
      SameAsDistinct(s[1..], n);
      SameAsMembers(s[1..], n);
      assert forall x :: x in s[1..] ==> x.id != s[0].id;
    }
  }

  lemma {:induction false} SameClass(s: seq<Symbol>, a: Symbol, b: Symbol)
    requires Same(a, b)
    ensures SameAs(s, a) == SameAs(s, b)
  {
    if s != [] {
      SameClass(s[1..], a, b);
    }
  }

  /** A declaration stands among its namesakes at its turn. */
  lemma AtItsTurn(s: seq<Symbol>, i: nat)
    requires i < |s|
    ensures Turn(s, i) < |SameAs(s, s[i])| && SameAs(s, s[i])[Turn(s, i)] == s[i]
  {
    SameAsConcat(s[..i + 1], s[i + 1..], s[i]);
    assert s[..i + 1] + s[i + 1..] == s;
    SameAsMore(s, i, s[i]);
  }

  // ---- The first phase takes turns ----

  lemma {:induction false} FirstAvailable(s: seq<Symbol>, consumed: set<Id>, n: Symbol, c: nat)
    requires forall x :: x in s ==> Same(x, n)
    requires forall i :: 0 <= i < |s| ==> (s[i].id in consumed <==> i < c)
    ensures FirstSame(s, consumed, n) == if c < |s| then Some(s[c]) else None
  {
    if s != [] && c > 0 {
      FirstAvailable(s[1..], consumed, n, c - 1);
    }
  }

  /** After `k` declarations, the prior ones used up of a name and kind are as many of the first. */
  ghost predicate TurnsTaken(prevs: seq<Symbol>, nexts: seq<Symbol>, k: nat, n: Symbol)
    requires k <= |nexts|
  {
    forall i :: 0 <= i < |SameAs(prevs, n)| ==>
      (SameAs(prevs, n)[i].id in FirstPhase(prevs, nexts[..k]).consumed <==> i < |SameAs(nexts[..k], n)|)
  }

  lemma NextInTurn(prevs: seq<Symbol>, nexts: seq<Symbol>, k: nat)
    requires k < |nexts| && TurnsTaken(prevs, nexts, k, nexts[k])
    ensures FirstSame(prevs, FirstPhase(prevs, nexts[..k]).consumed, nexts[k]) ==
            if Left(prevs, nexts, k) then None else Some(SameAs(prevs, nexts[k])[Turn(nexts, k)])
  {
    hide FirstPhase, FirstSame, SameAs;
    var consumed := FirstPhase(prevs, nexts[..k]).consumed;
    SameAsMembers(prevs, nexts[k]);
    FirstAmongSame(prevs, consumed, nexts[k]);
    FirstAvailable(SameAs(prevs, nexts[k]), consumed, nexts[k], Turn(nexts, k));
  }

  lemma {:induction false} FirstPhaseTakesTurns(prevs: seq<Symbol>, nexts: seq<Symbol>, k: nat, n: Symbol)
    requires DistinctSymbols(prevs) && k <= |nexts|
    ensures TurnsTaken(prevs, nexts, k, n)
  {
    hide FirstPhase, FirstSame, SameAs, DistinctSymbols;
    if k == 0 {
      NobodyYet(prevs, nexts, n);
    } else {
      FirstPhaseTakesTurns(prevs, nexts, k - 1, n);
      FirstPhaseTakesTurns(prevs, nexts, k - 1, nexts[k - 1]);
      NextInTurn(prevs, nexts, k - 1);
      MovedStep(prevs, nexts, k - 1);
      SameAsMore(nexts, k - 1, n);
      TurnTaken(prevs, nexts, k - 1, n);
    }
  }

  lemma NobodyYet(prevs: seq<Symbol>, nexts: seq<Symbol>, n: Symbol)
    ensures TurnsTaken(prevs, nexts, 0, n)
  {
    assert nexts[..0] == [];
  }

  lemma TurnTaken(prevs: seq<Symbol>, nexts: seq<Symbol>, k: nat, n: Symbol)
    requires DistinctSymbols(prevs) && k < |nexts|
    requires TurnsTaken(prevs, nexts, k, n) && TurnsTaken(prevs, nexts, k, nexts[k])
    requires FirstSame(prevs, FirstPhase(prevs, nexts[..k]).consumed, nexts[k]) ==
             if Left(prevs, nexts, k) then None else Some(SameAs(prevs, nexts[k])[Turn(nexts, k)])
    requires FirstPhase(prevs, nexts[..k + 1]) == Moved(prevs, FirstPhase(prevs, nexts[..k]), nexts[k])
    requires SameAs(nexts[..k + 1], n) == SameAs(nexts[..k], n) + (if Same(nexts[k], n) then [nexts[k]] else [])
    ensures TurnsTaken(prevs, nexts, k + 1, n)
  {
    hide FirstPhase, FirstSame, SameAs;
    var last := nexts[k];
    SameAsMembers(prevs, n);
    SameAsMembers(prevs, last);
    SameAsDistinct(prevs, n);
    var s := SameAs(prevs, n);
    assert forall i :: 0 <= i < |s| ==> s[i] in s;
    if Same(last, n) {
      SameClass(prevs, last, n);
      SameClass(nexts[..k], last, n);
    } else if !Left(prevs, nexts, k) {
      var p := SameAs(prevs, last)[Turn(nexts, k)];
      assert p in SameAs(prevs, last);
      forall i | 0 <= i < |s| ensures s[i].id != p.id {
        if s[i].id == p.id { SymbolsById(prevs, s[i], p); }
      }
    }
  }

  /** The declarations left over among the first `k`, in order. */
  function Leftovers(prevs: seq<Symbol>, nexts: seq<Symbol>, k: nat): seq<Symbol>
    requires k <= |nexts|
  {
    if k == 0 then []
    else Leftovers(prevs, nexts, k - 1) + (if Left(prevs, nexts, k - 1) then [nexts[k - 1]] else [])
  }

  /** Each declaration so far has the id its turn gives it. */
  ghost predicate TurnsGiven(prevs: seq<Symbol>, nexts: seq<Symbol>, k: nat, m: Match)
    requires k <= |nexts|
  {
    && m.unmatched == Leftovers(prevs, nexts, k) && m.remap.Keys <= IdSet(nexts[..k])
    && forall j :: 0 <= j < k ==>
         if Left(prevs, nexts, j) then nexts[j].id !in m.remap
         else
           var p := SameAs(prevs, nexts[j])[Turn(nexts, j)];
           Relabel(m.remap, nexts[j].id) == p.id && (nexts[j].id in m.remap <==> p.id != nexts[j].id)
  }

  lemma {:induction false} FirstPhaseLaw(prevs: seq<Symbol>, nexts: seq<Symbol>, k: nat)
    requires DistinctSymbols(prevs) && DistinctSymbols(nexts) && k <= |nexts|
    ensures TurnsGiven(prevs, nexts, k, FirstPhase(prevs, nexts[..k]))
  {
    hide FirstPhase, FirstSame, SameAs, DistinctSymbols, TurnsTaken, Moved, TurnsGiven, Left, Turn;
    if k == 0 {
      NothingGiven(prevs, nexts);
    } else {
      FirstPhaseLaw(prevs, nexts, k - 1);
      FirstPhaseTakesTurns(prevs, nexts, k - 1, nexts[k - 1]);
      NextInTurn(prevs, nexts, k - 1);
      MovedStep(prevs, nexts, k - 1);
      TurnGiven(prevs, nexts, k - 1, FirstPhase(prevs, nexts[..k - 1]));
    }
  }

  lemma NothingGiven(prevs: seq<Symbol>, nexts: seq<Symbol>)
    ensures TurnsGiven(prevs, nexts, 0, FirstPhase(prevs, nexts[..0]))
  {
  }

  lemma TurnGiven(prevs: seq<Symbol>, nexts: seq<Symbol>, k: nat, m: Match)
    requires DistinctSymbols(nexts) && k < |nexts| && TurnsGiven(prevs, nexts, k, m)
    requires FirstSame(prevs, m.consumed, nexts[k]) ==
             if Left(prevs, nexts, k) then None else Some(SameAs(prevs, nexts[k])[Turn(nexts, k)])
    ensures TurnsGiven(prevs, nexts, k + 1, Moved(prevs, m, nexts[k]))
  {
    hide FirstSame, SameAs, DistinctSymbols, IdSet;
    IdIsNew(nexts, k);
    assert nexts[..k + 1] == nexts[..k] + [nexts[k]];
    OneMoreId(nexts[..k], nexts[k]);
    forall j | 0 <= j < k ensures nexts[j].id != nexts[k].id {
      assert nexts[j] in nexts[..k];
      IdAmong(nexts[..k], nexts[j]);
    }
  }

  lemma IdAmong(symbols: seq<Symbol>, s: Symbol)
    requires s in symbols
    ensures s.id in IdSet(symbols)
  {
  }

  // ---- What the first phase leaves free ----

  lemma {:induction false} LookalikesMore(s: seq<Symbol>, x: Symbol, consumed: set<Id>, n: Symbol)
    ensures Lookalikes(s + [x], consumed, n) ==
            Lookalikes(s, consumed, n) + (if x.id !in consumed && Alike(x, n) then [x] else [])
  {
    if s == [] {
      assert s + [x] == [x] && [x][1..] == [];
    } else {
      assert (s + [x])[1..] == s[1..] + [x];
      LookalikesMore(s[1..], x, consumed, n);
    }
  }

  lemma UsedUnlessFree(prevs: seq<Symbol>, nexts: seq<Symbol>, i: nat)
    requires DistinctSymbols(prevs) && i < |prevs|
    ensures prevs[i].id in FirstPhase(prevs, nexts).consumed <==> !Free(prevs, nexts, i)
  {
    hide FirstPhase, SameAs;
    FirstPhaseTakesTurns(prevs, nexts, |nexts|, prevs[i]);
    AtItsTurn(prevs, i);
    assert nexts[..|nexts|] == nexts;
  }

  lemma {:induction false} FreeLookalikes(prevs: seq<Symbol>, nexts: seq<Symbol>, n: Symbol, k: nat)
    requires DistinctSymbols(prevs) && k <= |prevs|
    ensures Lookalikes(prevs[..k], FirstPhase(prevs, nexts).consumed, n) == FreeAlike(prevs, nexts, n, k)
  {
    hide FirstPhase, Free, Alike;
    if k > 0 {
      FreeLookalikes(prevs, nexts, n, k - 1);
      UsedUnlessFree(prevs, nexts, k - 1);
      assert prevs[..k] == prevs[..k - 1] + [prevs[k - 1]];
      LookalikesMore(prevs[..k - 1], prevs[k - 1], FirstPhase(prevs, nexts).consumed, n);
    }
  }

  // ---- The second phase ----

  lemma RenamedKeeps(prevs: seq<Symbol>, m: Match, n: Symbol, id: Id)
    requires n.id != id
    ensures Relabel(Renamed(prevs, m, n).remap, id) == Relabel(m.remap, id)
    ensures id in Renamed(prevs, m, n).remap <==> id in m.remap
  {
    hide Lookalikes;
  }

  /** The second phase touches only the ids of the declarations it is given. */
  lemma {:induction false} SecondPhaseKeeps(prevs: seq<Symbol>, m: Match, left: seq<Symbol>, j: nat, k: nat, id: Id)
    requires j <= k <= |left| && forall i :: j <= i < k ==> left[i].id != id
    ensures Relabel(SecondPhase(prevs, m, left[..k]).remap, id) == Relabel(SecondPhase(prevs, m, left[..j]).remap, id)
    ensures id in SecondPhase(prevs, m, left[..k]).remap <==> id in SecondPhase(prevs, m, left[..j]).remap
    decreases k
  {
    hide SecondPhase, Renamed, Relabel;
    if k > j {
      SecondPhaseKeeps(prevs, m, left, j, k - 1, id);
      RenamedStep(prevs, m, left, k - 1);
      RenamedKeeps(prevs, SecondPhase(prevs, m, left[..k - 1]), left[k - 1], id);
    }
  }

  lemma RenamedGives(prevs: seq<Symbol>, m: Match, n: Symbol)
    requires n.id !in m.remap
    ensures var candidates := Lookalikes(prevs, m.consumed, n);
            && Relabel(Renamed(prevs, m, n).remap, n.id) == (if |candidates| == 1 then candidates[0].id else n.id)
            && (n.id in Renamed(prevs, m, n).remap <==> |candidates| == 1 && candidates[0].id != n.id)
  {
    hide Lookalikes;
  }

  /** What the second phase gives the declaration at `at`. */
  lemma SecondPhaseGives(prevs: seq<Symbol>, m: Match, left: seq<Symbol>, at: nat)
    requires DistinctSymbols(prevs) && DistinctSymbols(left) && at < |left| && left[at].id !in m.remap
    ensures var n, candidates, after := left[at], Lookalikes(prevs, m.consumed, left[at]), SecondPhase(prevs, m, left);
            var taken := |candidates| == 1 && !AlikeAmong(left[..at], n);
            && Relabel(after.remap, n.id) == (if taken then candidates[0].id else n.id)
            && (n.id in after.remap <==> taken && candidates[0].id != n.id)
  {
    hide SecondPhase, Lookalikes, AlikeAmong, Renamed, Relabel;
    var n := left[at];
    SecondPhaseKeeps(prevs, m, left, 0, at, n.id);
    NothingRenamed(prevs, m, left);
    SecondPhaseLaw(prevs, m, left, at, n);
    RenamedStep(prevs, m, left, at);
    NotCarried(m.remap, n.id);
    RenamedGives(prevs, SecondPhase(prevs, m, left[..at]), n);
    SecondPhaseKeeps(prevs, m, left, at + 1, |left|, n.id);
    assert left[..|left|] == left;
  }

  lemma NotCarried(remap: map<Id, Id>, id: Id)
    requires id !in remap
    ensures Relabel(remap, id) == id
  {
  }

  // ---- The two phases together ----

  lemma {:induction false} LeftoversAre(prevs: seq<Symbol>, nexts: seq<Symbol>, k: nat)
    requires k <= |nexts|
    ensures forall x :: x in Leftovers(prevs, nexts, k) <==> exists i :: 0 <= i < k && Left(prevs, nexts, i) && nexts[i] == x
  {
    hide Left;
    if k > 0 {
      LeftoversAre(prevs, nexts, k - 1);
    }
  }

  lemma {:induction false} LeftoversSplit(prevs: seq<Symbol>, nexts: seq<Symbol>, j: nat, k: nat)
    requires j < k <= |nexts| && Left(prevs, nexts, j)
    ensures var at := |Leftovers(prevs, nexts, j)|;
            && at < |Leftovers(prevs, nexts, k)| && Leftovers(prevs, nexts, k)[at] == nexts[j]
            && Leftovers(prevs, nexts, k)[..at] == Leftovers(prevs, nexts, j)
    decreases k
  {
    hide Left;
    if k > j + 1 {
      LeftoversSplit(prevs, nexts, j, k - 1);
    }
  }

  lemma PrecededIs(prevs: seq<Symbol>, nexts: seq<Symbol>, n: Symbol, j: nat)
    requires j <= |nexts|
    ensures AlikeAmong(Leftovers(prevs, nexts, j), n) <==> Preceded(prevs, nexts, n, j)
  {
    hide Left, Alike, Leftovers;
    LeftoversAre(prevs, nexts, j);
  }

  lemma LeftHeir(prevs: seq<Symbol>, nexts: seq<Symbol>, j: nat)
    requires DistinctSymbols(prevs) && DistinctSymbols(nexts) && j < |nexts| && Left(prevs, nexts, j)
    ensures var remap, heir, id := MatchOf(prevs, nexts).remap, Heir(prevs, nexts, j), nexts[j].id;
            && Relabel(remap, id) == (if heir.Some? then heir.value.id else id)
            && (id in remap <==> heir.Some? && heir.value.id != id)
  {
    hide FirstPhase, SecondPhase, Left, AlikeAmong, Lookalikes, Relabel, Leftovers, FreeAlike, Preceded, DistinctSymbols;
    var m, at := FirstPhase(prevs, nexts), |Leftovers(prevs, nexts, j)|;
    assert nexts[..|nexts|] == nexts && prevs[..|prevs|] == prevs;
    FirstPhaseLaw(prevs, nexts, |nexts|);
    FirstPhaseCounts(prevs, nexts, |nexts|);
    LeftoversSplit(prevs, nexts, j, |nexts|);
    assert m.unmatched[at] in m.unmatched;
    SecondPhaseGives(prevs, m, m.unmatched, at);
    FreeLookalikes(prevs, nexts, nexts[j], |prevs|);
    PrecededIs(prevs, nexts, nexts[j], j);
  }

  lemma NamedHeir(prevs: seq<Symbol>, nexts: seq<Symbol>, j: nat)
    requires DistinctSymbols(prevs) && DistinctSymbols(nexts) && j < |nexts| && !Left(prevs, nexts, j)
    ensures var remap, heir, id := MatchOf(prevs, nexts).remap, Heir(prevs, nexts, j), nexts[j].id;
            heir.Some? && Relabel(remap, id) == heir.value.id && (id in remap <==> heir.value.id != id)
  {
    hide FirstPhase, SecondPhase, Left, SameAs, Turn, Leftovers;
    var m := FirstPhase(prevs, nexts);
    assert nexts[..|nexts|] == nexts && m.unmatched[..|m.unmatched|] == m.unmatched;
    FirstPhaseLaw(prevs, nexts, |nexts|);
    LeftoversAre(prevs, nexts, |nexts|);
    forall i | 0 <= i < |m.unmatched| ensures m.unmatched[i].id != nexts[j].id {
      assert m.unmatched[i] in m.unmatched;
      var k :| 0 <= k < |nexts| && Left(prevs, nexts, k) && nexts[k] == m.unmatched[i];
    }
    NothingRenamed(prevs, m, m.unmatched);
    SecondPhaseKeeps(prevs, m, m.unmatched, 0, |m.unmatched|, nexts[j].id);
  }

  /** The whole match in one sentence: each declaration ends with its heir's id, or with its own
      when it has no heir. */
  lemma HeirIsMatch(prevs: seq<Symbol>, nexts: seq<Symbol>, j: nat)
    requires DistinctSymbols(prevs) && DistinctSymbols(nexts) && j < |nexts|
    ensures var remap, heir, id := MatchOf(prevs, nexts).remap, Heir(prevs, nexts, j), nexts[j].id;
            && Relabel(remap, id) == (if heir.Some? then heir.value.id else id)
            && (id in remap <==> heir.Some? && heir.value.id != id)
  {
    hide MatchOf, Heir, Left, DistinctSymbols;
    if Left(prevs, nexts, j) {
      LeftHeir(prevs, nexts, j);
    } else {
      NamedHeir(prevs, nexts, j);
    }
  }

  /** Which declarations are counted ambiguous: the left-over ones of whose structure several prior
      declarations are free. */
  lemma UndecidedIff(prevs: seq<Symbol>, nexts: seq<Symbol>, j: nat)
    requires DistinctSymbols(prevs) && DistinctSymbols(nexts) && j < |nexts|
    ensures Undecided(prevs, nexts, nexts[j]) <==>
            Left(prevs, nexts, j) && |FreeAlike(prevs, nexts, nexts[j], |prevs|)| > 1
  {
    hide FirstPhase, Left, Lookalikes, FreeAlike, Leftovers, SameAs;
    assert nexts[..|nexts|] == nexts && prevs[..|prevs|] == prevs;
    FirstPhaseLaw(prevs, nexts, |nexts|);
    LeftoversAre(prevs, nexts, |nexts|);
    FreeLookalikes(prevs, nexts, nexts[j], |prevs|);
    if nexts[j] in FirstPhase(prevs, nexts).unmatched {
      var k :| 0 <= k < |nexts| && Left(prevs, nexts, k) && nexts[k] == nexts[j];
    }
  }
}
