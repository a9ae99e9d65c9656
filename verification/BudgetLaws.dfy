/** What trimming a packet to its budget guarantees, over every packet, cost function and budget. */
module BudgetLaws {
  import opened Atlas
  import opened Sorting
  import opened Budgets

  // ---- Items without their estimates ----

  function Plain(s: Selected): Selected {
    s.(tokens := 0)
  }

  function PlainAll(s: seq<Selected>): (r: seq<Selected>)
    ensures |r| == |s| && forall i :: 0 <= i < |s| ==> r[i] == Plain(s[i])
  {
    seq(|s|, i requires 0 <= i < |s| => Plain(s[i]))
  }

  function EdgesOf(s: seq<Related>): (r: seq<Edge>)
    ensures |r| == |s| && forall i :: 0 <= i < |s| ==> r[i] == s[i].edge
  {
    seq(|s|, i requires 0 <= i < |s| => s[i].edge)
  }

  lemma PricingKeeps(c: Contents, costs: Costs)
    ensures PlainAll(Settled(c, costs).selected) == PlainAll(c.selected)
    ensures EdgesOf(Settled(c, costs).relationships) == EdgesOf(c.relationships)
    ensures Settled(c, costs).spine == c.spine && Settled(c, costs).omitted == c.omitted
  {
    hide Sum;
  }

  // ---- What a round removes ----

  /** The next trim takes a selected entity rather than one of the spine. */
  predicate TakesSelected(c: Contents) {
    LeastOptional(c) >= 0 || c.spine == []
  }

  function Victim(c: Contents): int
    requires !Irreducible(c) && TakesSelected(c)
  {
    if LeastOptional(c) >= 0 then LeastOptional(c) else FirstLeast(c.selected, Anything, Lower)
  }

  function SpineVictim(c: Contents): int {
    FirstLeast(c.spine, Anything, Coarser)
  }

  lemma VictimIsLeast(c: Contents)
    requires !Irreducible(c) && TakesSelected(c)
    ensures 0 <= Victim(c) < |c.selected|
    ensures c.selected[Victim(c)].mandatory ==> c.spine == [] && forall s :: s in c.selected ==> s.mandatory
    ensures forall s :: s in c.selected && s.mandatory == c.selected[Victim(c)].mandatory ==> Lower(c.selected[Victim(c)], s)
  {
    if LeastOptional(c) < 0 {
      SomeLeast(c.selected, Lower);
      assert forall k :: 0 <= k < |c.selected| ==> !Optional(c.selected[k]);
    }
    forall s | s in c.selected && s.mandatory == c.selected[Victim(c)].mandatory ensures Lower(c.selected[Victim(c)], s) {
      var k :| 0 <= k < |c.selected| && c.selected[k] == s;
      assert Anything(c.selected[k]) && (Optional(c.selected[k]) <==> !s.mandatory);
    }
  }

  lemma SpineVictimIsCoarsest(c: Contents)
    requires !TakesSelected(c)
    ensures 0 <= SpineVictim(c) < |c.spine| && !Irreducible(c)
    ensures forall s :: s in c.selected ==> s.mandatory
    ensures forall e :: e in c.spine ==> Coarser(c.spine[SpineVictim(c)], e)
  {
    Orders();
    SomeLeast(c.spine, Coarser);
    assert forall k :: 0 <= k < |c.selected| ==> !Optional(c.selected[k]);
    forall e | e in c.spine ensures Coarser(c.spine[SpineVictim(c)], e) {
      var k :| 0 <= k < |c.spine| && c.spine[k] == e;
      assert Anything(c.spine[k]);
    }
  }

  /** `t` is `c` without its selected entity `i`, estimates aside. */
  ghost predicate TookSelected(c: Contents, t: Contents, i: int) {
    && 0 <= i < |c.selected| && PlainAll(t.selected) == Remove(PlainAll(c.selected), i) && t.spine == c.spine
    && t.omitted == Counted(c.omitted, CategoryOf(c.selected[i]))
  }

  /** `t` is `c` without its spine entity `i`, estimates aside. */
  ghost predicate TookSpine(c: Contents, t: Contents, i: int) {
    && 0 <= i < |c.spine| && PlainAll(t.selected) == PlainAll(c.selected) && t.spine == Remove(c.spine, i)
    && t.omitted == Counted(c.omitted, "spine")
  }

  lemma SelectedTaken(c: Contents, costs: Costs, i: int)
    requires 0 <= i < |c.selected|
    ensures TookSelected(c, Settled(Detached(DropSelected(c, i)), costs), i)
  {
    hide Settled, Within, Retained, Counted, CategoryOf;
    PricingKeeps(Detached(DropSelected(c, i)), costs);
    assert PlainAll(Remove(c.selected, i)) == Remove(PlainAll(c.selected), i);
  }

  lemma SpineTaken(c: Contents, costs: Costs, i: int)
    requires 0 <= i < |c.spine|
    ensures TookSpine(c, Settled(Detached(DropSpine(c, i)), costs), i)
  {
    hide Settled, Within, Retained, Counted;
    PricingKeeps(Detached(DropSpine(c, i)), costs);
  }

  lemma RoundSelected(c: Contents, costs: Costs)
    requires !Irreducible(c) && TakesSelected(c)
    ensures TookSelected(c, Trimmed(c, costs), Victim(c))
  {
    VictimIsLeast(c);
    assert Dropped(c) == DropSelected(c, Victim(c));
    hide Dropped, Irreducible, TakesSelected, Victim, DropSelected, Settled, Detached, TookSelected;
    SelectedTaken(c, costs, Victim(c));
  }

  lemma RoundSpine(c: Contents, costs: Costs)
    requires !TakesSelected(c)
    ensures !Irreducible(c) && TookSpine(c, Trimmed(c, costs), SpineVictim(c))
  {
    SpineVictimIsCoarsest(c);
    assert Dropped(c) == DropSpine(c, SpineVictim(c));
    hide Dropped, Irreducible, TakesSelected, SpineVictim, DropSpine, Settled, Detached, TookSpine;
    SpineTaken(c, costs, SpineVictim(c));
  }

  lemma SameRetained(a: seq<Selected>, b: seq<Selected>, spine: seq<Entity>)
    requires PlainAll(a) == PlainAll(b)
    ensures Retained(a, spine) == Retained(b, spine)
  {
    forall i | 0 <= i < |a| ensures a[i].entity == b[i].entity {
      assert PlainAll(a)[i] == PlainAll(b)[i];
    }
    forall s | s in a ensures s.entity.id in Retained(b, spine) {
      var i :| 0 <= i < |a| && a[i] == s;
      assert b[i] in b;
    }
    forall s | s in b ensures s.entity.id in Retained(a, spine) {
      var i :| 0 <= i < |b| && b[i] == s;
      assert a[i] in a;
    }
  }

  // ---- The budget is met, or nothing is left to trim ----

  lemma {:induction false} EndsWithinBudget(c: Contents, costs: Costs, budget: int)
    ensures var f := Enforced(c, costs, budget);
            f.total <= budget || (f.spine == [] && (f.selected == [] || (|f.selected| == 1 && f.selected[0].mandatory)))
    decreases Size(c)
  {
    hide Trimmed;
    if !Stops(c, budget) {
      EndsWithinBudget(Trimmed(c, costs), costs, budget);
    } else if c.total > budget {
      assert forall k :: 0 <= k < |c.selected| ==> !Optional(c.selected[k]);
    }
  }

  /** Nothing is trimmed in vain: the packet before the last trim was over budget. */
  lemma {:induction false} LastTrimWasNeeded(c: Contents, costs: Costs, budget: int) returns (before: Contents)
    requires !Stops(c, budget)
    ensures before.total > budget && !Irreducible(before) && Enforced(c, costs, budget) == Trimmed(before, costs)
    decreases Size(c)
  {
    hide Trimmed, Irreducible;
    var t := Trimmed(c, costs);
    if Stops(t, budget) {
      before := c;
    } else {
      before := LastTrimWasNeeded(t, costs, budget);
    }
  }

  // ---- Conservation ----

  function CategoryCount(s: seq<Selected>, category: string): int {
    if s == [] then 0
    else CategoryCount(s[..|s| - 1], category) + (if CategoryOf(s[|s| - 1]) == category then 1 else 0)
  }

  /** The items of a category that are in the packet or counted as omitted. */
  function Held(c: Contents, category: string): int {
    CategoryCount(c.selected, category) + (if category == "spine" then |c.spine| else 0) + CountOf(c.omitted, category)
  }

  lemma {:induction false} CountIgnoresEstimates(s: seq<Selected>, category: string)
    ensures CategoryCount(PlainAll(s), category) == CategoryCount(s, category)
  {
    if s != [] {
      var n := |s| - 1;
      CountIgnoresEstimates(s[..n], category);
      assert PlainAll(s)[..n] == PlainAll(s[..n]);
    }
  }

  lemma {:induction false} CountRemoved(s: seq<Selected>, i: int, category: string)
    requires 0 <= i < |s|
    ensures CategoryCount(Remove(s, i), category) == CategoryCount(s, category) - (if CategoryOf(s[i]) == category then 1 else 0)
    decreases |s|
  {
    hide CategoryOf;
    var n := |s| - 1;
    if i == n {
      assert Remove(s, i) == s[..n];
    } else {
      CountRemoved(s[..n], i, category);
      assert Remove(s, i)[..n - 1] == Remove(s[..n], i);
      assert Remove(s, i)[n - 1] == s[n];
    }
  }

  lemma RoundConserves(c: Contents, costs: Costs, category: string)
    requires !Irreducible(c)
    ensures Held(Trimmed(c, costs), category) == Held(c, category)
  {
    hide CategoryCount, CategoryOf, Irreducible, Trimmed, Victim, SpineVictim, TakesSelected;
    var t := Trimmed(c, costs);
    CountIgnoresEstimates(c.selected, category);
    CountIgnoresEstimates(t.selected, category);
    if TakesSelected(c) {
      RoundSelected(c, costs);
      CountRemoved(PlainAll(c.selected), Victim(c), category);
      PlainCategory(c.selected[Victim(c)]);
    } else {
      RoundSpine(c, costs);
    }
  }

  lemma PlainCategory(s: Selected)
    ensures CategoryOf(Plain(s)) == CategoryOf(s) && CategoryOf(s) != "spine"
  {
    assert "spine"[0] == 's' && "spine"[1] == 'p' && "system"[1] == 'y';
  }

  /** Kept plus omitted equals given, category by category. */
  lemma {:induction false} NothingIsLost(c: Contents, costs: Costs, budget: int, category: string)
    ensures Held(Enforced(c, costs, budget), category) == Held(c, category)
    decreases Size(c)
  {
    hide Trimmed, Irreducible, Held;
    if !Stops(c, budget) {
      RoundConserves(c, costs, category);
      NothingIsLost(Trimmed(c, costs), costs, budget, category);
    }
  }

  // ---- Priority ----

  /** The selected entities removed, in order of removal. */
  function Removed(c: Contents, costs: Costs, budget: int): seq<Selected>
    decreases Size(c)
  {
    if Stops(c, budget) then []
    else if TakesSelected(c) then
      VictimIsLeast(c);
      [Plain(c.selected[Victim(c)])] + Removed(Trimmed(c, costs), costs, budget)
    else Removed(Trimmed(c, costs), costs, budget)
  }

  function SpineRemoved(c: Contents, costs: Costs, budget: int): seq<Entity>
    decreases Size(c)
  {
    if Stops(c, budget) then []
    else if TakesSelected(c) then SpineRemoved(Trimmed(c, costs), costs, budget)
    else
      SpineVictimIsCoarsest(c);
      [c.spine[SpineVictim(c)]] + SpineRemoved(Trimmed(c, costs), costs, budget)
  }

  lemma RemoveMultiset<T>(s: seq<T>, i: int)
    requires 0 <= i < |s|
    ensures multiset(s) == multiset(Remove(s, i)) + multiset{s[i]}
  {
    assert s == s[..i] + [s[i]] + s[i + 1..];
  }

  /** The removed items and the kept ones are together the items given. */
  lemma {:induction false} RemovedAndKept(c: Contents, costs: Costs, budget: int)
    ensures multiset(PlainAll(c.selected)) == multiset(PlainAll(Enforced(c, costs, budget).selected)) + multiset(Removed(c, costs, budget))
    ensures multiset(c.spine) == multiset(Enforced(c, costs, budget).spine) + multiset(SpineRemoved(c, costs, budget))
    decreases Size(c)
  {
    hide Irreducible, Trimmed, Remove, Victim, SpineVictim, TakesSelected, CategoryOf, Counted;
    if !Stops(c, budget) {
      RemovedAndKept(Trimmed(c, costs), costs, budget);
      if TakesSelected(c) {
        RoundSelected(c, costs);
        RemoveMultiset(PlainAll(c.selected), Victim(c));
      } else {
        RoundSpine(c, costs);
        RemoveMultiset(c.spine, SpineVictim(c));
      }
    }
  }

  lemma KeptWasGiven(c: Contents, costs: Costs, budget: int)
    ensures var f := Enforced(c, costs, budget);
            && (forall k :: k in PlainAll(f.selected) ==> k in PlainAll(c.selected))
            && (forall e :: e in f.spine ==> e in c.spine)
  {
    RemovedAndKept(c, costs, budget);
    hide Enforced, Removed, SpineRemoved;
    var f := Enforced(c, costs, budget);
    forall k | k in PlainAll(f.selected) ensures k in PlainAll(c.selected) {
      assert k in multiset(PlainAll(f.selected));
      assert k in multiset(PlainAll(c.selected));
    }
    forall e | e in f.spine ensures e in c.spine {
      assert e in multiset(f.spine);
      assert e in multiset(c.spine);
    }
  }

  /** What was removed ranks below all that is kept; a mandatory entity goes only when no optional
      one and no spine is left, and the spine only when no optional one is. */
  ghost predicate Prioritised(removed: seq<Selected>, spineRemoved: seq<Entity>, kept: seq<Selected>,
                              spine: seq<Entity>) {
    && (forall d, k :: d in removed && k in kept && d.mandatory == k.mandatory ==> Lower(d, k))
    && (forall d, k :: d in removed && k in kept && d.mandatory ==> k.mandatory)
    && (forall d :: d in removed && d.mandatory ==> spine == [])
    && (forall d, e :: d in spineRemoved && e in spine ==> Coarser(d, e))
    && (spineRemoved != [] ==> forall k :: k in kept ==> k.mandatory)
  }

  lemma PlainVictimIsLeast(c: Contents)
    requires !Irreducible(c) && TakesSelected(c)
    ensures 0 <= Victim(c) < |c.selected|
    ensures Prioritised([Plain(c.selected[Victim(c)])], [], PlainAll(c.selected), c.spine)
  {
    VictimIsLeast(c);
    hide Victim;
    forall k | k in PlainAll(c.selected) ensures exists s :: s in c.selected && Plain(s) == k {
      var i :| 0 <= i < |c.selected| && PlainAll(c.selected)[i] == k;
      assert c.selected[i] in c.selected;
    }
  }

  lemma SpineVictimGoesFirst(c: Contents)
    requires !TakesSelected(c)
    ensures 0 <= SpineVictim(c) < |c.spine| && !Irreducible(c)
    ensures Prioritised([], [c.spine[SpineVictim(c)]], PlainAll(c.selected), c.spine)
  {
    SpineVictimIsCoarsest(c);
    hide SpineVictim;
    forall k | k in PlainAll(c.selected) ensures k.mandatory {
      var i :| 0 <= i < |c.selected| && PlainAll(c.selected)[i] == k;
      assert c.selected[i] in c.selected;
    }
  }

  lemma PrioritisedTogether(a: seq<Selected>, b: seq<Selected>, sa: seq<Entity>, sb: seq<Entity>,
                            given: seq<Selected>, kept: seq<Selected>, spineGiven: seq<Entity>, spine: seq<Entity>)
    requires Prioritised(a, sa, given, spineGiven) && Prioritised(b, sb, kept, spine)
    requires (forall k :: k in kept ==> k in given) && (forall e :: e in spine ==> e in spineGiven)
    ensures Prioritised(a + b, sa + sb, kept, spine)
  {
    hide Lower, Coarser;
    if spine != [] {
      assert spine[0] in spineGiven;
    }
  }

  lemma {:induction false} LeastRelevantGoFirst(c: Contents, costs: Costs, budget: int)
    ensures var f := Enforced(c, costs, budget);
            Prioritised(Removed(c, costs, budget), SpineRemoved(c, costs, budget), PlainAll(f.selected), f.spine)
    decreases Size(c)
  {
    hide Irreducible, Trimmed, Victim, SpineVictim, TakesSelected;
    if !Stops(c, budget) {
      var f := Enforced(c, costs, budget);
      var r, sr := Removed(Trimmed(c, costs), costs, budget), SpineRemoved(Trimmed(c, costs), costs, budget);
      LeastRelevantGoFirst(Trimmed(c, costs), costs, budget);
      KeptWasGiven(c, costs, budget);
      assert [] + r == r && [] + sr == sr;
      if TakesSelected(c) {
        PlainVictimIsLeast(c);
        hide Prioritised;
        PrioritisedTogether([Plain(c.selected[Victim(c)])], r, [], sr, PlainAll(c.selected), PlainAll(f.selected), c.spine, f.spine);
      } else {
        SpineVictimGoesFirst(c);
        hide Prioritised;
        PrioritisedTogether([], r, [c.spine[SpineVictim(c)]], sr, PlainAll(c.selected), PlainAll(f.selected), c.spine, f.spine);
      }
    }
  }

  // ---- Relationships ----

  function Between(edges: seq<Edge>, ids: set<Id>): seq<Edge> {
    if edges == [] then []
    else
      var last := edges[|edges| - 1];
      Between(edges[..|edges| - 1], ids) + (if last.source in ids && last.target in ids then [last] else [])
  }

  lemma {:induction false} EdgesWithin(s: seq<Related>, ids: set<Id>)
    ensures EdgesOf(Within(s, ids)) == Between(EdgesOf(s), ids)
  {
    if s != [] {
      var n := |s| - 1;
      EdgesWithin(s[..n], ids);
      assert EdgesOf(s)[..n] == EdgesOf(s[..n]);
    }
  }

  lemma {:induction false} BetweenTwice(edges: seq<Edge>, ids: set<Id>, fewer: set<Id>)
    requires fewer <= ids
    ensures Between(Between(edges, ids), fewer) == Between(edges, fewer)
  {
    if edges != [] {
      var n := |edges| - 1;
      BetweenTwice(edges[..n], ids, fewer);
      var inner := Between(edges[..n], ids);
      assert inner + [] == inner;
      assert (inner + [edges[n]])[..|inner|] == inner;
    }
  }

  lemma RoundDetaches(c: Contents, costs: Costs)
    requires !Irreducible(c)
    ensures EdgesOf(Trimmed(c, costs).relationships) ==
            Between(EdgesOf(c.relationships), Retained(Trimmed(c, costs).selected, Trimmed(c, costs).spine))
  {
    var d := Dropped(c);
    var cut := Detached(d);
    assert d.relationships == c.relationships;
    hide Settled, Dropped, Irreducible, Retained, Within, Between;
    PricingKeeps(cut, costs);
    SameRetained(d.selected, Settled(cut, costs).selected, d.spine);
    EdgesWithin(c.relationships, Retained(d.selected, d.spine));
  }

  lemma RetainedShrinks(c: Contents, costs: Costs, budget: int)
    ensures Retained(Enforced(c, costs, budget).selected, Enforced(c, costs, budget).spine) <= Retained(c.selected, c.spine)
  {
    KeptWasGiven(c, costs, budget);
    var f := Enforced(c, costs, budget);
    hide Enforced;
    forall s | s in f.selected ensures s.entity.id in Retained(c.selected, c.spine) {
      var i :| 0 <= i < |f.selected| && f.selected[i] == s;
      assert PlainAll(f.selected)[i] in PlainAll(c.selected);
      var j :| 0 <= j < |c.selected| && PlainAll(c.selected)[j] == PlainAll(f.selected)[i];
      assert c.selected[j] in c.selected;
    }
  }

  /** After any trim the relationships are those given whose two ends were both retained. */
  lemma {:induction false} RelationshipsKeepBothEnds(c: Contents, costs: Costs, budget: int)
    requires !Stops(c, budget)
    ensures var f := Enforced(c, costs, budget);
            EdgesOf(f.relationships) == Between(EdgesOf(c.relationships), Retained(f.selected, f.spine))
    decreases Size(c)
  {
    hide Trimmed, Irreducible, Between, Retained;
    var t, f := Trimmed(c, costs), Enforced(c, costs, budget);
    RoundDetaches(c, costs);
    if !Stops(t, budget) {
      RelationshipsKeepBothEnds(t, costs, budget);
      RetainedShrinks(t, costs, budget);
      BetweenTwice(EdgesOf(c.relationships), Retained(t.selected, t.spine), Retained(f.selected, f.spine));
    }
  }

  // ---- Totals and order ----

  function TokensOf(s: Selected): int { s.tokens }

  function EdgeTokensOf(s: Related): int { s.tokens }

  /** The total is what the items carry, the spine and the envelope. */
  predicate AddsUp(c: Contents, costs: Costs) {
    c.total == Sum(c.selected, TokensOf) + Sum(c.relationships, EdgeTokensOf) + Sum(c.spine, costs.ofSpine) + ENVELOPE
  }

  lemma {:induction false} PricedSum(s: seq<Selected>, cost: Selected -> int)
    ensures Sum(Priced(s, cost), TokensOf) == Sum(s, cost)
  {
    if s != [] {
      var n := |s| - 1;
      PricedSum(s[..n], cost);
      assert Priced(s, cost)[..n] == Priced(s[..n], cost);
    }
  }

  lemma {:induction false} PricedEdgesSum(s: seq<Related>, cost: Related -> int)
    ensures Sum(PricedEdges(s, cost), EdgeTokensOf) == Sum(s, cost)
  {
    if s != [] {
      var n := |s| - 1;
      PricedEdgesSum(s[..n], cost);
      assert PricedEdges(s, cost)[..n] == PricedEdges(s[..n], cost);
    }
  }

  lemma SettledAddsUp(c: Contents, costs: Costs)
    ensures AddsUp(Settled(c, costs), costs)
  {
    PricedSum(c.selected, costs.ofSelected);
    PricedEdgesSum(c.relationships, costs.ofRelated);
    hide Sum;
  }

  lemma PrioritySorts()
    ensures TotalPreorder(ByPriority)
  {
  }

  lemma RemoveKeepsSorted(s: seq<Selected>, i: int)
    requires 0 <= i < |s| && Sorted(s, ByPriority)
    ensures Sorted(Remove(s, i), ByPriority)
  {
    hide ByPriority;
    var r := Remove(s, i);
    forall a, b | 0 <= a < b < |r| ensures ByPriority(r[a], r[b]) {
      assert r[a] == s[if a < i then a else a + 1] && r[b] == s[if b < i then b else b + 1];
    }
  }

  lemma {:induction false} PlainSorted(s: seq<Selected>)
    ensures Sorted(PlainAll(s), ByPriority) <==> Sorted(s, ByPriority)
  {
    forall i, j | 0 <= i < j < |s| ensures ByPriority(PlainAll(s)[i], PlainAll(s)[j]) <==> ByPriority(s[i], s[j]) {
    }
    hide ByPriority;
  }

  /** The total the packet ends with adds up, and its entities stay in priority order. */
  lemma {:induction false} StaysSettled(c: Contents, costs: Costs, budget: int)
    requires AddsUp(c, costs) && Sorted(c.selected, ByPriority)
    ensures AddsUp(Enforced(c, costs, budget), costs) && Sorted(Enforced(c, costs, budget).selected, ByPriority)
    decreases Size(c)
  {
    hide AddsUp, Irreducible, Sorted, TakesSelected, Victim, SpineVictim;
    if !Stops(c, budget) {
      var t := Trimmed(c, costs);
      SettledAddsUp(Detached(Dropped(c)), costs);
      PlainSorted(c.selected);
      PlainSorted(t.selected);
      if TakesSelected(c) {
        RoundSelected(c, costs);
        RemoveKeepsSorted(PlainAll(c.selected), Victim(c));
      } else {
        RoundSpine(c, costs);
      }
      StaysSettled(t, costs, budget);
    }
  }

  /** What the enforcement starts from: the packet's own items, in priority order, with a total
      that adds up. */
  lemma StartsSettled(c: Contents, costs: Costs)
    ensures var s := Started(c, costs);
            && AddsUp(s, costs) && Sorted(s.selected, ByPriority)
            && multiset(PlainAll(s.selected)) == multiset(PlainAll(SortBy(c.selected, ByPriority)))
            && multiset(SortBy(c.selected, ByPriority)) == multiset(c.selected)
            && s.spine == c.spine && s.omitted == c.omitted && EdgesOf(s.relationships) == EdgesOf(c.relationships)
  {
    PrioritySorts();
    SortBySorts(c.selected, ByPriority);
    var sorted := c.(selected := SortBy(c.selected, ByPriority));
    PricingKeeps(sorted, costs);
    SettledAddsUp(sorted, costs);
    PlainSorted(sorted.selected);
    PlainSorted(Started(c, costs).selected);
    hide Settled, SortBy, AddsUp, ByPriority, Sorted;
  }

  // ---- When the packet can be emptied ----

  ghost predicate HasMandatory(s: seq<Selected>) {
    exists i :: 0 <= i < |s| && s[i].mandatory
  }

  lemma AnotherMandatory(c: Contents) returns (k: int)
    requires !Irreducible(c) && TakesSelected(c) && HasMandatory(c.selected)
    ensures 0 <= Victim(c) < |c.selected| && 0 <= k < |c.selected| && k != Victim(c) && c.selected[k].mandatory
  {
    VictimIsLeast(c);
    assert LeastOptional(c) >= 0 ==> Optional(c.selected[LeastOptional(c)]);
    hide HasMandatory, Lower;
    if c.selected[Victim(c)].mandatory {
      k := if Victim(c) == 0 then 1 else 0;
      assert c.selected[k] in c.selected;
    } else {
      k := FirstMandatory(c.selected);
    }
  }

  lemma FirstMandatory(s: seq<Selected>) returns (k: int)
    requires HasMandatory(s)
    ensures 0 <= k < |s| && s[k].mandatory
  {
    k :| 0 <= k < |s| && s[k].mandatory;
  }

  lemma RoundKeepsMandatory(c: Contents, costs: Costs)
    requires !Irreducible(c) && HasMandatory(c.selected)
    ensures HasMandatory(Trimmed(c, costs).selected)
  {
    hide Irreducible, Trimmed, TakesSelected, Victim, SpineVictim;
    var t := Trimmed(c, costs);
    if TakesSelected(c) {
      RoundSelected(c, costs);
      var k := AnotherMandatory(c);
      StillThere(c.selected, t.selected, Victim(c), k);
    } else {
      RoundSpine(c, costs);
      var m := FirstMandatory(c.selected);
      assert PlainAll(t.selected)[m] == Plain(t.selected[m]);
    }
  }

  lemma StillThere(s: seq<Selected>, t: seq<Selected>, v: int, k: int)
    requires 0 <= v < |s| && 0 <= k < |s| && k != v && s[k].mandatory
    requires PlainAll(t) == Remove(PlainAll(s), v)
    ensures HasMandatory(t)
  {
    var j := if k < v then k else k - 1;
    assert PlainAll(t)[j] == Plain(s[k]);
    assert t[j].mandatory;
  }

  /** A packet with a mandatory entity is never emptied. */
  lemma {:induction false} MandatoryKeepsOne(c: Contents, costs: Costs, budget: int)
    requires HasMandatory(c.selected)
    ensures HasMandatory(Enforced(c, costs, budget).selected)
    decreases Size(c)
  {
    hide Trimmed, Irreducible, HasMandatory;
    if !Stops(c, budget) {
      RoundKeepsMandatory(c, costs);
      MandatoryKeepsOne(Trimmed(c, costs), costs, budget);
    }
  }

  /** The packet after `k` trims, whatever the budget. */
  function Stage(c: Contents, costs: Costs, k: nat): Contents
    decreases k
  {
    if k == 0 || Irreducible(c) then c else Stage(Trimmed(c, costs), costs, k - 1)
  }

  lemma OptionalNext(c: Contents)
    requires !HasMandatory(c.selected) && c.selected != []
    ensures !Irreducible(c) && TakesSelected(c)
  {
    assert Optional(c.selected[0]);
    hide HasMandatory, Lower;
  }

  lemma OptionalLeft(s: seq<Selected>, t: seq<Selected>, v: int)
    requires !HasMandatory(s) && 0 <= v < |s| && PlainAll(t) == Remove(PlainAll(s), v)
    ensures |t| == |s| - 1 && !HasMandatory(t)
  {
    assert |PlainAll(t)| == |PlainAll(s)| - 1;
    forall i | 0 <= i < |t| ensures !t[i].mandatory {
      var j := if i < v then i else i + 1;
      assert PlainAll(t)[i] == Plain(s[j]);
    }
  }

  lemma OptionalRound(c: Contents, costs: Costs)
    requires !HasMandatory(c.selected) && c.selected != []
    ensures !Irreducible(c) && |Trimmed(c, costs).selected| == |c.selected| - 1
    ensures !HasMandatory(Trimmed(c, costs).selected) && Trimmed(c, costs).spine == c.spine
  {
    hide Trimmed, Irreducible, TakesSelected, HasMandatory, Victim, PlainAll, Remove;
    OptionalNext(c);
    RoundSelected(c, costs);
    OptionalLeft(c.selected, Trimmed(c, costs).selected, Victim(c));
  }

  /** As long as optional entities last, each trim takes one of them and the spine stays whole. */
  lemma {:induction false} StageKeepsSpine(c: Contents, costs: Costs, k: nat)
    requires !HasMandatory(c.selected) && k <= |c.selected|
    ensures Stage(c, costs, k).spine == c.spine && |Stage(c, costs, k).selected| == |c.selected| - k
    decreases k
  {
    hide Trimmed, Irreducible, HasMandatory;
    if k > 0 {
      OptionalRound(c, costs);
      StageKeepsSpine(Trimmed(c, costs), costs, k - 1);
    }
  }

  lemma EmptyRound(c: Contents, costs: Costs)
    requires c.selected == [] && !Irreducible(c)
    ensures Trimmed(c, costs).selected == []
  {
    assert LeastOptional(c) < 0 && c.spine != [];
    RoundSpine(c, costs);
    hide Trimmed;
    assert |PlainAll(Trimmed(c, costs).selected)| == 0;
  }

  lemma {:induction false} EmptiedStaysEmpty(c: Contents, costs: Costs, budget: int)
    requires c.selected == []
    ensures Enforced(c, costs, budget).selected == []
    decreases Size(c)
  {
    hide Trimmed, Irreducible;
    if !Stops(c, budget) {
      EmptyRound(c, costs);
      EmptiedStaysEmpty(Trimmed(c, costs), costs, budget);
    }
  }

  /** The packet fits after fewer trims than it has selected entities, so that one of them is left. */
  ghost predicate FitsBeforeEmpty(c: Contents, costs: Costs, budget: int) {
    exists k :: 0 <= k < |c.selected| && Stage(c, costs, k).total <= budget
  }

  lemma FitsLater(c: Contents, costs: Costs, budget: int)
    requires !HasMandatory(c.selected) && c.selected != [] && c.total > budget
    ensures FitsBeforeEmpty(c, costs, budget) <==> FitsBeforeEmpty(Trimmed(c, costs), costs, budget)
  {
    hide Trimmed, Irreducible, HasMandatory;
    OptionalRound(c, costs);
    var t := Trimmed(c, costs);
    if FitsBeforeEmpty(c, costs, budget) {
      var k :| 0 <= k < |c.selected| && Stage(c, costs, k).total <= budget;
      assert Stage(t, costs, k - 1).total <= budget;
    }
    if FitsBeforeEmpty(t, costs, budget) {
      var k :| 0 <= k < |t.selected| && Stage(t, costs, k).total <= budget;
      assert Stage(c, costs, k + 1).total <= budget;
    }
  }

  /** A packet without a mandatory entity is emptied exactly when even its most relevant entity,
      beside the whole spine, is over budget at every stage. */
  lemma {:induction false} OptionalOnlyCanBeEmptied(c: Contents, costs: Costs, budget: int)
    requires !HasMandatory(c.selected) && c.selected != []
    ensures Enforced(c, costs, budget).selected == [] <==> !FitsBeforeEmpty(c, costs, budget)
    decreases Size(c)
  {
    hide Trimmed, Irreducible, HasMandatory, FitsBeforeEmpty;
    OptionalRound(c, costs);
    if c.total <= budget {
      FitsNow(c, costs, budget);
    } else {
      var t := Trimmed(c, costs);
      FitsLater(c, costs, budget);
      if t.selected == [] {
        EmptiedStaysEmpty(t, costs, budget);
        EmptyFitsNever(t, costs, budget);
      } else {
        OptionalOnlyCanBeEmptied(t, costs, budget);
      }
    }
  }

  lemma FitsNow(c: Contents, costs: Costs, budget: int)
    requires c.selected != [] && c.total <= budget
    ensures FitsBeforeEmpty(c, costs, budget)
  {
    assert Stage(c, costs, 0) == c;
  }

  lemma EmptyFitsNever(c: Contents, costs: Costs, budget: int)
    requires c.selected == []
    ensures !FitsBeforeEmpty(c, costs, budget)
  {
  }

  /** When the promise to keep at least one entity holds: exactly when one is mandatory or the
      packet fits after fewer trims than it has entities, the spine counted in full. */
  lemma SelectionStaysIff(c: Contents, costs: Costs, budget: int)
    requires c.selected != []
    ensures Enforced(c, costs, budget).selected != [] <==>
            HasMandatory(c.selected) || FitsBeforeEmpty(c, costs, budget)
  {
    hide Enforced, FitsBeforeEmpty;
    if HasMandatory(c.selected) {
      MandatoryKeepsOne(c, costs, budget);
    } else {
      OptionalOnlyCanBeEmptied(c, costs, budget);
    }
  }

  /** The single-entity packet, which the source's comment says is returned as it is: over budget,
      an optional entity is dropped, even to keep a spine without which it would fit. */
  lemma LoneEntityStaysIffMandatoryOrFits(c: Contents, costs: Costs, budget: int)
    requires |c.selected| == 1
    ensures Enforced(c, costs, budget).selected != [] <==> c.selected[0].mandatory || c.total <= budget
  {
    hide Enforced;
    SelectionStaysIff(c, costs, budget);
    assert HasMandatory(c.selected) <==> c.selected[0].mandatory;
    assert FitsBeforeEmpty(c, costs, budget) <==> Stage(c, costs, 0).total <= budget;
  }
}
