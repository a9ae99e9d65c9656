/** Ambiguity in matching one file: several free prior declarations of one structure stay free to
    the end of the phase, and exactly the declarations facing several are counted. */
module Ambiguities {
  import opened Atlas
  import opened Identity

  lemma {:induction false} LookalikesOfClass(prevs: seq<Symbol>, consumed: set<Id>, a: Symbol, b: Symbol)
    requires Alike(a, b)
    ensures Lookalikes(prevs, consumed, a) == Lookalikes(prevs, consumed, b)
  {
    if prevs != [] {
      LookalikesOfClass(prevs[1..], consumed, a, b);
    }
  }

  lemma {:induction false} OtherStructure(prevs: seq<Symbol>, consumed: set<Id>, id: Id, n: Symbol)
    requires forall q :: q in prevs && q.id == id ==> !Alike(q, n)
    ensures Lookalikes(prevs, consumed + {id}, n) == Lookalikes(prevs, consumed, n)
  {
    if prevs != [] {
      OtherStructure(prevs[1..], consumed, id, n);
    }
  }

  lemma OnlyOneUsed(prevs: seq<Symbol>, consumed: set<Id>, n: Symbol, p: Symbol)
    requires Lookalikes(prevs, consumed, n) == [p]
    ensures p in prevs && Alike(p, n) && Lookalikes(prevs, consumed + {p.id}, n) == []
  {
    LookalikesAreFree(prevs, consumed, n);
    LookalikesAreFree(prevs, consumed + {p.id}, n);
    hide Lookalikes;
    assert p in [p];
    NoMembers(Lookalikes(prevs, consumed + {p.id}, n));
  }

  lemma NoMembers(s: seq<Symbol>)
    requires forall q :: q !in s
    ensures s == []
  {
    NoMembersFrom(s, 0);
  }

  lemma NoMembersFrom(s: seq<Symbol>, i: nat)
    requires i >= |s| || s[i] !in s
    ensures i >= |s|
  {
  }

  predicate AlikeAmong(left: seq<Symbol>, n: Symbol) {
    exists x :: x in left && Alike(x, n)
  }

  /** The candidates of `n` as the phase proceeds: a single one is gone once a declaration of its
      structure has come by, and several are never used. */
  lemma {:induction false} SecondPhaseLaw(prevs: seq<Symbol>, m: Match, left: seq<Symbol>, k: nat, n: Symbol)
    requires DistinctSymbols(prevs) && k <= |left|
    ensures var candidates := Lookalikes(prevs, m.consumed, n);
            Lookalikes(prevs, SecondPhase(prevs, m, left[..k]).consumed, n) ==
            if |candidates| == 1 && AlikeAmong(left[..k], n) then [] else candidates
    decreases k
  {
    hide Lookalikes, Alike, SecondPhase, DistinctSymbols, AlikeAmong;
    if k == 0 {
      NothingRenamed(prevs, m, left);
      NoneAmong(left, n);
    } else {
      SecondPhaseLaw(prevs, m, left, k - 1, n);
      SecondPhaseLaw(prevs, m, left, k - 1, left[k - 1]);
      RenamedStep(prevs, m, left, k - 1);
      OneMoreAmong(left, k - 1, n);
      if Alike(left[k - 1], n) {
        LookalikesOfClass(prevs, m.consumed, left[k - 1], n);
        LookalikesOfClass(prevs, SecondPhase(prevs, m, left[..k - 1]).consumed, left[k - 1], n);
        AlikeStep(prevs, SecondPhase(prevs, m, left[..k - 1]), left[k - 1], n);
      } else {
        UnlikeStep(prevs, SecondPhase(prevs, m, left[..k - 1]), left[k - 1], n);
      }
    }
  }

  lemma NoneAmong(left: seq<Symbol>, n: Symbol)
    ensures !AlikeAmong(left[..0], n)
  {
  }

  lemma OneMoreAmong(left: seq<Symbol>, k: nat, n: Symbol)
    requires k < |left|
    ensures AlikeAmong(left[..k + 1], n) <==> AlikeAmong(left[..k], n) || Alike(left[k], n)
  {
    assert left[..k + 1] == left[..k] + [left[k]];
    assert left[k] in left[..k + 1];
  }

  lemma AlikeStep(prevs: seq<Symbol>, m: Match, x: Symbol, n: Symbol)
    requires Alike(x, n)
    ensures var candidates := Lookalikes(prevs, m.consumed, n);
            Lookalikes(prevs, Renamed(prevs, m, x).consumed, n) == if |candidates| == 1 then [] else candidates
  {
    LookalikesOfClass(prevs, m.consumed, x, n);
    hide Lookalikes;
    var candidates := Lookalikes(prevs, m.consumed, n);
    if |candidates| == 1 {
      OnlyOneUsed(prevs, m.consumed, n, candidates[0]);
    }
  }

  lemma UnlikeStep(prevs: seq<Symbol>, m: Match, x: Symbol, n: Symbol)
    requires DistinctSymbols(prevs) && !Alike(x, n)
    ensures Lookalikes(prevs, Renamed(prevs, m, x).consumed, n) == Lookalikes(prevs, m.consumed, n)
  {
    hide Lookalikes, DistinctSymbols;
    var candidates := Lookalikes(prevs, m.consumed, x);
    if |candidates| == 1 {
      var p := candidates[0];
      OnlyOneUsed(prevs, m.consumed, x, p);
      forall q | q in prevs && q.id == p.id ensures !Alike(q, n) { SymbolsById(prevs, q, p); }
      OtherStructure(prevs, m.consumed, p.id, n);
    }
  }

  lemma NothingRenamed(prevs: seq<Symbol>, m: Match, left: seq<Symbol>)
    ensures SecondPhase(prevs, m, left[..0]) == m
  {
  }

  // ---- What is counted ambiguous ----

  /** Left over by name, with several free prior declarations of its structure. */
  predicate Undecided(prevs: seq<Symbol>, nexts: seq<Symbol>, s: Symbol) {
    var m := FirstPhase(prevs, nexts);
    s in m.unmatched && |Lookalikes(prevs, m.consumed, s)| > 1
  }

  lemma {:induction false} FirstPhaseIsSure(prevs: seq<Symbol>, nexts: seq<Symbol>)
    ensures FirstPhase(prevs, nexts).tally.ambiguous == 0
  {
    hide FirstSame;
    if nexts != [] {
      FirstPhaseIsSure(prevs, nexts[..|nexts| - 1]);
    }
  }

  /** Those of the first `k` that face several priors at the start of the phase. */
  ghost function Facing(prevs: seq<Symbol>, m: Match, left: seq<Symbol>, k: nat): set<Symbol>
    requires k <= |left|
  {
    set s | s in left[..k] && |Lookalikes(prevs, m.consumed, s)| > 1
  }

  lemma FacingNext(prevs: seq<Symbol>, m: Match, left: seq<Symbol>, k: nat)
    requires k < |left| && DistinctSymbols(left)
    ensures |Facing(prevs, m, left, k + 1)| ==
            |Facing(prevs, m, left, k)| + if |Lookalikes(prevs, m.consumed, left[k])| > 1 then 1 else 0
  {
    hide Lookalikes;
    assert left[..k + 1] == left[..k] + [left[k]];
    assert left[k] !in left[..k];
    if |Lookalikes(prevs, m.consumed, left[k])| > 1 {
      assert Facing(prevs, m, left, k + 1) == Facing(prevs, m, left, k) + {left[k]};
    } else {
      assert Facing(prevs, m, left, k + 1) == Facing(prevs, m, left, k);
    }
  }

  lemma {:induction false} SecondPhaseCountsFacing(prevs: seq<Symbol>, m: Match, left: seq<Symbol>, k: nat)
    requires DistinctSymbols(prevs) && DistinctSymbols(left) && k <= |left|
    ensures SecondPhase(prevs, m, left[..k]).tally.ambiguous == m.tally.ambiguous + |Facing(prevs, m, left, k)|
    decreases k
  {
    hide Lookalikes, SecondPhase, DistinctSymbols, Facing, AlikeAmong;
    if k == 0 {
      NothingRenamed(prevs, m, left);
      NobodyFacing(prevs, m, left);
    } else {
      SecondPhaseCountsFacing(prevs, m, left, k - 1);
      RenamedStep(prevs, m, left, k - 1);
      SecondPhaseLaw(prevs, m, left, k - 1, left[k - 1]);
      FacingNext(prevs, m, left, k - 1);
    }
  }

  lemma NobodyFacing(prevs: seq<Symbol>, m: Match, left: seq<Symbol>)
    ensures |Facing(prevs, m, left, 0)| == 0
  {
    assert Facing(prevs, m, left, 0) == {};
  }

  /** The ambiguous count of a file: its declarations that several priors could equally be. */
  lemma AmbiguousIsUndecided(prevs: seq<Symbol>, nexts: seq<Symbol>)
    requires DistinctSymbols(prevs) && DistinctSymbols(nexts)
    ensures MatchOf(prevs, nexts).tally.ambiguous == |set s | s in nexts && Undecided(prevs, nexts, s)|
  {
    hide FirstPhase, SecondPhase, Lookalikes, DistinctSymbols;
    var m := FirstPhase(prevs, nexts);
    assert nexts[..|nexts|] == nexts && m.unmatched[..|m.unmatched|] == m.unmatched;
    FirstPhaseIsSure(prevs, nexts);
    FirstPhaseIsSound(prevs, nexts, |nexts|);
    FirstPhaseCounts(prevs, nexts, |nexts|);
    SecondPhaseCountsFacing(prevs, m, m.unmatched, |m.unmatched|);
    assert Facing(prevs, m, m.unmatched, |m.unmatched|) == set s | s in nexts && Undecided(prevs, nexts, s);
  }
}
