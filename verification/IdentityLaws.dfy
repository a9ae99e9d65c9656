/** What identity across rescans promises one declaration: a move keeps its id, a rename keeps its id
    when nothing is ambiguous, several candidates never merge; and where two entities end with one
    id after all. */
module IdentityLaws {
  import opened Atlas
  import opened Identity
  import opened Ambiguities
  import opened Rescan
  import opened MatchLaws

  // ---- Moves ----

  /** A move keeps its id: the i-th declaration of a name and kind is the i-th prior one, wherever
      their lines went. */
  lemma MoveKeepsId(prevs: seq<Symbol>, nexts: seq<Symbol>, i: nat, j: nat)
    requires DistinctSymbols(prevs) && DistinctSymbols(nexts) && i < |prevs| && j < |nexts|
    requires Same(prevs[i], nexts[j]) && Turn(prevs, i) == Turn(nexts, j)
    ensures Relabel(MatchOf(prevs, nexts).remap, nexts[j].id) == prevs[i].id
  {
    hide MatchOf, SameAs;
    AtItsTurn(prevs, i);
    SameClass(prevs, prevs[i], nexts[j]);
    HeirIsMatch(prevs, nexts, j);
  }

  // ---- Renames ----

  lemma {:induction false} FreeAlikeAre(prevs: seq<Symbol>, nexts: seq<Symbol>, n: Symbol, k: nat)
    requires k <= |prevs|
    ensures forall x :: x in FreeAlike(prevs, nexts, n, k) <==>
              exists i :: 0 <= i < k && Free(prevs, nexts, i) && Alike(prevs[i], n) && prevs[i] == x
  {
    hide Free, Alike;
    if k > 0 {
      FreeAlikeAre(prevs, nexts, n, k - 1);
    }
  }

  lemma FreeAlikeDistinct(prevs: seq<Symbol>, nexts: seq<Symbol>, n: Symbol)
    requires DistinctSymbols(prevs)
    ensures DistinctSymbols(FreeAlike(prevs, nexts, n, |prevs|))
  {
    hide FreeAlike, Lookalikes, FirstPhase;
    FreeLookalikes(prevs, nexts, n, |prevs|);
    assert prevs[..|prevs|] == prevs;
    LookalikesDistinct(prevs, FirstPhase(prevs, nexts).consumed, n);
  }

  lemma SoleIff(s: seq<Symbol>, p: Symbol)
    requires DistinctSymbols(s) && p in s
    ensures (|s| == 1 && s[0] == p) <==> forall x :: x in s ==> x == p
  {
    DistinctCount(s);
    if forall x :: x in s ==> x == p {
      assert (set x | x in s) == {p};
      assert s[0] in s;
    }
  }

  /** Only one free prior declaration has the structure of `n`: the one at `i`. */
  ghost predicate OnlyCandidate(prevs: seq<Symbol>, nexts: seq<Symbol>, n: Symbol, i: nat)
    requires i < |prevs|
  {
    forall k :: 0 <= k < |prevs| && Free(prevs, nexts, k) && Alike(prevs[k], n) ==> k == i
  }

  /** When a rename keeps its id: exactly when the prior declaration is the only free one of that
      structure and the new one is the first left over of it. */
  lemma RenameKeepsId(prevs: seq<Symbol>, nexts: seq<Symbol>, i: nat, j: nat)
    requires DistinctSymbols(prevs) && DistinctSymbols(nexts) && i < |prevs| && j < |nexts|
    requires Free(prevs, nexts, i) && Left(prevs, nexts, j) && Alike(prevs[i], nexts[j])
    ensures Heir(prevs, nexts, j) == Some(prevs[i]) <==>
            OnlyCandidate(prevs, nexts, nexts[j], i) && !Preceded(prevs, nexts, nexts[j], j)
    ensures OnlyCandidate(prevs, nexts, nexts[j], i) && !Preceded(prevs, nexts, nexts[j], j) ==>
              Relabel(MatchOf(prevs, nexts).remap, nexts[j].id) == prevs[i].id
  {
    hide MatchOf, Free, Left, Alike, FreeAlike, Preceded, DistinctSymbols;
    var n := nexts[j];
    var free := FreeAlike(prevs, nexts, n, |prevs|);
    FreeAlikeAre(prevs, nexts, n, |prevs|);
    FreeAlikeDistinct(prevs, nexts, n);
    SoleIff(free, prevs[i]);
    if forall x :: x in free ==> x == prevs[i] {
      forall k | 0 <= k < |prevs| && Free(prevs, nexts, k) && Alike(prevs[k], n) ensures k == i {
        assert prevs[k] in free;
        SamePlace(prevs, k, i);
      }
    }
    HeirIsMatch(prevs, nexts, j);
  }

  lemma SamePlace(s: seq<Symbol>, i: nat, j: nat)
    requires DistinctSymbols(s) && i < |s| && j < |s| && s[i].id == s[j].id
    ensures i == j
  {
  }

  /** Several free prior declarations of one structure are never taken, however many new ones
      resemble them: ambiguity never merges. */
  lemma AmbiguityNeverMerges(prevs: seq<Symbol>, nexts: seq<Symbol>, a: nat, b: nat, j: nat)
    requires DistinctSymbols(prevs) && DistinctSymbols(nexts) && a < b < |prevs| && j < |nexts|
    requires Free(prevs, nexts, a) && Free(prevs, nexts, b) && Left(prevs, nexts, j)
    requires Alike(prevs[a], nexts[j]) && Alike(prevs[b], nexts[j])
    ensures nexts[j].id !in MatchOf(prevs, nexts).remap
  {
    hide MatchOf, Free, Left, Alike, FreeAlike, Preceded, DistinctSymbols;
    var free := FreeAlike(prevs, nexts, nexts[j], |prevs|);
    FreeAlikeAre(prevs, nexts, nexts[j], |prevs|);
    DistinctPlaces(prevs, a, b);
    TwoMembers(free, prevs[a], prevs[b]);
    HeirIsMatch(prevs, nexts, j);
  }

  lemma TwoMembers(s: seq<Symbol>, p: Symbol, q: Symbol)
    requires p in s && q in s && p != q
    ensures |s| != 1
  {
  }

  lemma DistinctPlaces(s: seq<Symbol>, a: nat, b: nat)
    requires DistinctSymbols(s) && a < b < |s|
    ensures s[a] != s[b]
  {
  }

  /** A prior declaration whose name is gone is free, and a new one with no prior namesake is left. */
  lemma GoneIsFree(prevs: seq<Symbol>, nexts: seq<Symbol>, i: nat, j: nat)
    requires i < |prevs| && j < |nexts|
    ensures (forall m :: m in nexts ==> !Same(prevs[i], m)) ==> Free(prevs, nexts, i)
    ensures (forall q :: q in prevs ==> !Same(q, nexts[j])) ==> Left(prevs, nexts, j)
  {
    SameAsMembers(nexts, prevs[i]);
    SameAsMembers(prevs, nexts[j]);
    hide SameAs;
    if forall m :: m in nexts ==> !Same(prevs[i], m) { NoMembers(SameAs(nexts, prevs[i])); }
    if forall q :: q in prevs ==> !Same(q, nexts[j]) { NoMembers(SameAs(prevs, nexts[j])); }
  }

  /** The documented rename: an old name is gone, a new one appears, the two are alike, no other prior
      declaration of that structure is free and no left-over one comes first. Then the id is kept. */
  lemma UnambiguousRenameKeepsId(prevs: seq<Symbol>, nexts: seq<Symbol>, i: nat, j: nat)
    requires DistinctSymbols(prevs) && DistinctSymbols(nexts) && i < |prevs| && j < |nexts|
    requires (forall m :: m in nexts ==> !Same(prevs[i], m)) && (forall q :: q in prevs ==> !Same(q, nexts[j]))
    requires Alike(prevs[i], nexts[j])
    ensures Heir(prevs, nexts, j) == Some(prevs[i]) <==>
            OnlyCandidate(prevs, nexts, nexts[j], i) && !Preceded(prevs, nexts, nexts[j], j)
    ensures OnlyCandidate(prevs, nexts, nexts[j], i) && !Preceded(prevs, nexts, nexts[j], j) ==>
              Relabel(MatchOf(prevs, nexts).remap, nexts[j].id) == prevs[i].id
  {
    hide MatchOf, Free, Left, Heir, OnlyCandidate, Preceded, DistinctSymbols;
    GoneIsFree(prevs, nexts, i, j);
    RenameKeepsId(prevs, nexts, i, j);
  }

  /** The other ambiguity does merge: of several new declarations that could each be the one gone, the
      first takes its id without being counted ambiguous, and the rest get none. */
  lemma FirstLookalikeTakesTheId(prevs: seq<Symbol>, nexts: seq<Symbol>, i: nat, j: nat, k: nat)
    requires DistinctSymbols(prevs) && DistinctSymbols(nexts) && i < |prevs| && j < k < |nexts|
    requires Free(prevs, nexts, i) && OnlyCandidate(prevs, nexts, nexts[j], i)
    requires Left(prevs, nexts, j) && Left(prevs, nexts, k) && !Preceded(prevs, nexts, nexts[j], j)
    requires Alike(prevs[i], nexts[j]) && Alike(prevs[i], nexts[k])
    ensures Relabel(MatchOf(prevs, nexts).remap, nexts[j].id) == prevs[i].id
    ensures nexts[k].id !in MatchOf(prevs, nexts).remap
  {
    RenameKeepsId(prevs, nexts, i, j);
    HeirIsMatch(prevs, nexts, k);
    hide MatchOf, Free, Left, FreeAlike;
    assert Preceded(prevs, nexts, nexts[k], k);
  }

  // ---- No prior declaration has two heirs ----

  /** A free prior declaration is nobody's by name, one given by turn is not free. */
  lemma NamedIsNotFree(prevs: seq<Symbol>, nexts: seq<Symbol>, i: nat, j: nat)
    requires i < |prevs| && j < |nexts| && !Left(prevs, nexts, j)
    requires DistinctSymbols(prevs) && SameAs(prevs, nexts[j])[Turn(nexts, j)] == prevs[i]
    ensures !Free(prevs, nexts, i) && Turn(prevs, i) == Turn(nexts, j) && Same(prevs[i], nexts[j])
  {
    AtItsTurn(prevs, i);
    AtItsTurn(nexts, j);
    SameAsMembers(prevs, nexts[j]);
    SameAsDistinct(prevs, nexts[j]);
    hide SameAs;
    var s := SameAs(prevs, nexts[j]);
    assert s[Turn(nexts, j)] in s;
    SameClass(prevs, prevs[i], nexts[j]);
    SameClass(nexts, prevs[i], nexts[j]);
    SamePlace(s, Turn(prevs, i), Turn(nexts, j));
  }

  lemma HeirOfLeft(prevs: seq<Symbol>, nexts: seq<Symbol>, j: nat) returns (i: nat)
    requires j < |nexts| && Left(prevs, nexts, j) && Heir(prevs, nexts, j).Some?
    ensures i < |prevs| && Heir(prevs, nexts, j) == Some(prevs[i]) && Free(prevs, nexts, i)
    ensures Alike(prevs[i], nexts[j]) && !Preceded(prevs, nexts, nexts[j], j)
  {
    hide Left, Free, Alike, FreeAlike, Preceded;
    FreeAlikeAre(prevs, nexts, nexts[j], |prevs|);
    var free := FreeAlike(prevs, nexts, nexts[j], |prevs|);
    assert free[0] in free;
    i :| 0 <= i < |prevs| && Free(prevs, nexts, i) && Alike(prevs[i], nexts[j]) && prevs[i] == free[0];
  }

  lemma HeirOfNamed(prevs: seq<Symbol>, nexts: seq<Symbol>, j: nat) returns (i: nat)
    requires DistinctSymbols(prevs) && j < |nexts| && !Left(prevs, nexts, j)
    ensures i < |prevs| && Heir(prevs, nexts, j) == Some(prevs[i]) && !Free(prevs, nexts, i)
    ensures Turn(prevs, i) == Turn(nexts, j) && Same(prevs[i], nexts[j])
  {
    SameAsMembers(prevs, nexts[j]);
    hide SameAs, Free;
    var p := SameAs(prevs, nexts[j])[Turn(nexts, j)];
    assert p in SameAs(prevs, nexts[j]);
    i :| 0 <= i < |prevs| && prevs[i] == p;
    NamedIsNotFree(prevs, nexts, i, j);
  }

  lemma SameHeirSamePlace(prevs: seq<Symbol>, nexts: seq<Symbol>, j: nat, k: nat)
    requires DistinctSymbols(prevs) && DistinctSymbols(nexts) && j < |nexts| && k < |nexts|
    requires Heir(prevs, nexts, j).Some?
    requires Heir(prevs, nexts, j) == Heir(prevs, nexts, k)
    ensures j == k
  {
    hide Left, Free, Heir, Preceded, SameAs, Turn, DistinctSymbols;
    var a, b;
    if Left(prevs, nexts, j) {
      a := HeirOfLeft(prevs, nexts, j);
    } else {
      a := HeirOfNamed(prevs, nexts, j);
    }
    if Left(prevs, nexts, k) {
      b := HeirOfLeft(prevs, nexts, k);
    } else {
      b := HeirOfNamed(prevs, nexts, k);
    }
    SamePlace(prevs, a, b);
    if Left(prevs, nexts, j) {
      NotPreceded(prevs, nexts, j, k);
      NotPreceded(prevs, nexts, k, j);
    } else {
      SameTurnSamePlace(nexts, j, k);
      SamePlace(nexts, j, k);
    }
  }

  lemma NotPreceded(prevs: seq<Symbol>, nexts: seq<Symbol>, j: nat, k: nat)
    requires j < |nexts| && k < |nexts| && Left(prevs, nexts, j) && Alike(nexts[j], nexts[k])
    requires !Preceded(prevs, nexts, nexts[k], k)
    ensures j >= k
  {
  }

  lemma SameTurnSamePlace(s: seq<Symbol>, j: nat, k: nat)
    requires j < |s| && k < |s| && Same(s[j], s[k]) && Turn(s, j) == Turn(s, k)
    ensures s[j] == s[k]
  {
    AtItsTurn(s, j);
    AtItsTurn(s, k);
    SameClass(s, s[j], s[k]);
  }
}
