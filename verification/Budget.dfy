/** Fitting an Orbit packet to its token budget (`budget.rs`). */
module Budgets {
  import opened Atlas
  import opened Sorting

  datatype Selected = Selected(entity: Entity, mandatory: bool, score: int, tokens: int)

  datatype Related = Related(edge: Edge, tokens: int)

  /** The mutable part of a packet. */
  datatype Contents = Contents(spine: seq<Entity>, selected: seq<Selected>, relationships: seq<Related>,
                               omitted: map<string, int>, total: int)

  /** A quarter of each item's serialised length.  An item is serialised with the estimate it
      carried before, so its cost can change from one settling to the next. */
  datatype Costs = Costs(ofSelected: Selected -> int, ofRelated: Related -> int, ofSpine: Entity -> int)

  const ENVELOPE := 120

  // ---- Settling the estimates ----

  function Priced(s: seq<Selected>, cost: Selected -> int): (r: seq<Selected>)
    ensures |r| == |s| && forall i :: 0 <= i < |s| ==> r[i] == s[i].(tokens := cost(s[i]))
  {
    seq(|s|, i requires 0 <= i < |s| => s[i].(tokens := cost(s[i])))
  }

  function PricedEdges(s: seq<Related>, cost: Related -> int): (r: seq<Related>)
    ensures |r| == |s| && forall i :: 0 <= i < |s| ==> r[i] == s[i].(tokens := cost(s[i]))
  {
    seq(|s|, i requires 0 <= i < |s| => s[i].(tokens := cost(s[i])))
  }

  function Sum<T>(s: seq<T>, cost: T -> int): int {
    if s == [] then 0 else Sum(s[..|s| - 1], cost) + cost(s[|s| - 1])
  }

  lemma SumStep<T>(s: seq<T>, cost: T -> int, i: nat)
    requires i < |s|
    ensures Sum(s[..i + 1], cost) == Sum(s[..i], cost) + cost(s[i])
  {
    assert s[..i + 1][..i] == s[..i];
  }

  function Settled(c: Contents, costs: Costs): Contents {
    c.(selected := Priced(c.selected, costs.ofSelected),
       relationships := PricedEdges(c.relationships, costs.ofRelated),
       total := Sum(c.selected, costs.ofSelected) + Sum(c.relationships, costs.ofRelated)
                + Sum(c.spine, costs.ofSpine) + ENVELOPE)
  }

  // ---- One trim ----

  /** Lower score first; equal scores by id. */
  predicate Lower(a: Selected, b: Selected) {
    a.score < b.score || (a.score == b.score && a.entity.id <= b.entity.id)
  }

  /** Coarser scale first; equal scales by id. */
  predicate Coarser(a: Entity, b: Entity) {
    a.scale.Rank() < b.scale.Rank() || (a.scale.Rank() == b.scale.Rank() && a.id <= b.id)
  }

  /** The index of the first least element that passes, or -1. */
  function FirstLeast<T(!new)>(s: seq<T>, pass: T -> bool, leq: (T, T) -> bool): (i: int)
    requires TotalPreorder(leq)
    ensures -1 <= i < |s|
    ensures i == -1 <==> forall k :: 0 <= k < |s| ==> !pass(s[k])
    ensures i >= 0 ==> pass(s[i]) && forall k :: 0 <= k < |s| && pass(s[k]) ==> leq(s[i], s[k])
    ensures i >= 0 ==> forall k :: 0 <= k < i && pass(s[k]) ==> !leq(s[k], s[i])
  {
    if s == [] then -1
    else
      var n := |s| - 1;
      var i := FirstLeast(s[..n], pass, leq);
      assert forall k :: 0 <= k < n ==> s[..n][k] == s[k];
      if pass(s[n]) && (i == -1 || !leq(s[i], s[n])) then n else i
  }

  predicate Optional(s: Selected) {
    !s.mandatory
  }

  predicate Anything<T>(x: T) {
    true
  }

  function Remove<T>(s: seq<T>, i: int): seq<T>
    requires 0 <= i < |s|
  {
    s[..i] + s[i + 1..]
  }

  function CategoryOf(item: Selected): string {
    match item.entity.scale
    case Moon => "moon"
    case Planet => "planet"
    case System => "system"
    case _ => "entity"
  }

  function CountOf(omitted: map<string, int>, category: string): int {
    if category in omitted then omitted[category] else 0
  }

  function Counted(omitted: map<string, int>, category: string): map<string, int> {
    omitted[category := CountOf(omitted, category) + 1]
  }

  function Retained(selected: seq<Selected>, spine: seq<Entity>): set<Id> {
    (set s | s in selected :: s.entity.id) + (set e | e in spine :: e.id)
  }

  function Within(s: seq<Related>, ids: set<Id>): seq<Related> {
    if s == [] then []
    else
      var last := s[|s| - 1];
      Within(s[..|s| - 1], ids) + (if last.edge.source in ids && last.edge.target in ids then [last] else [])
  }

  function DropSelected(c: Contents, i: int): Contents
    requires 0 <= i < |c.selected|
  {
    c.(selected := Remove(c.selected, i), omitted := Counted(c.omitted, CategoryOf(c.selected[i])))
  }

  function DropSpine(c: Contents, i: int): Contents
    requires 0 <= i < |c.spine|
  {
    c.(spine := Remove(c.spine, i), omitted := Counted(c.omitted, "spine"))
  }

  function LeastOptional(c: Contents): int {
    FirstLeast(c.selected, Optional, Lower)
  }

  /** How many items could still be trimmed. */
  function Size(c: Contents): nat {
    |c.selected| + |c.spine|
  }

  /** Nothing may be trimmed any more. */
  predicate Irreducible(c: Contents) {
    LeastOptional(c) == -1 && c.spine == [] && |c.selected| <= 1
  }

  /** What the next trim removes: the least optional entity, else the coarsest of the spine,
      else the least entity left. */
  function Dropped(c: Contents): (d: Contents)
    requires !Irreducible(c)
    ensures Size(d) == Size(c) - 1
  {
    if LeastOptional(c) >= 0 then DropSelected(c, LeastOptional(c))
    else if c.spine != [] then DropSpine(c, FirstLeast(c.spine, Anything, Coarser))
    else DropSelected(c, FirstLeast(c.selected, Anything, Lower))
  }

  /** Only relationships between retained entities stay. */
  function Detached(c: Contents): Contents {
    c.(relationships := Within(c.relationships, Retained(c.selected, c.spine)))
  }

  function Trimmed(c: Contents, costs: Costs): (t: Contents)
    requires !Irreducible(c)
    ensures Size(t) == Size(c) - 1
  {
    Settled(Detached(Dropped(c)), costs)
  }

  // ---- The whole enforcement ----

  predicate Stops(c: Contents, budget: int) {
    c.total <= budget || Irreducible(c)
  }

  function Enforced(c: Contents, costs: Costs, budget: int): Contents
    decreases Size(c)
  {
    if Stops(c, budget) then c else Enforced(Trimmed(c, costs), costs, budget)
  }

  predicate ByPriority(a: Selected, b: Selected) {
    if a.mandatory != b.mandatory then a.mandatory
    else if a.score != b.score then a.score > b.score
    else a.entity.id <= b.entity.id
  }

  function Started(c: Contents, costs: Costs): Contents {
    Settled(c.(selected := SortBy(c.selected, ByPriority)), costs)
  }

  lemma Orders()
    ensures TotalPreorder(Lower) && TotalPreorder(Coarser)
  {
  }

  /** The three kinds of trim, field by field. */
  lemma DroppedCases(c: Contents)
    ensures TotalPreorder(Lower) && TotalPreorder(Coarser)
    ensures var i := FirstLeast(c.selected, Optional, Lower);
            i >= 0 ==>
              !Irreducible(c) && Dropped(c) ==
              Contents(c.spine, Remove(c.selected, i), c.relationships, Counted(c.omitted, CategoryOf(c.selected[i])), c.total)
    ensures FirstLeast(c.selected, Optional, Lower) < 0 && c.spine != [] ==>
              var i := FirstLeast(c.spine, Anything, Coarser);
              0 <= i && !Irreducible(c) && Dropped(c) ==
              Contents(Remove(c.spine, i), c.selected, c.relationships, Counted(c.omitted, "spine"), c.total)
    ensures FirstLeast(c.selected, Optional, Lower) < 0 && c.spine == [] && |c.selected| > 1 ==>
              var i := FirstLeast(c.selected, Anything, Lower);
              0 <= i && !Irreducible(c) && Dropped(c) ==
              Contents(c.spine, Remove(c.selected, i), c.relationships, Counted(c.omitted, CategoryOf(c.selected[i])), c.total)
    ensures FirstLeast(c.selected, Optional, Lower) < 0 && c.spine == [] && |c.selected| <= 1 ==> Irreducible(c)
  {
    Orders();
    if c.spine != [] {
      SomeLeast(c.spine, Coarser);
    }
    if c.selected != [] {
      SomeLeast(c.selected, Lower);
    }
    hide FirstLeast, Retained, Remove, Counted, CategoryOf, TotalPreorder;
  }

  lemma EnforcedStep(c: Contents, costs: Costs, budget: int)
    ensures Stops(c, budget) ==> Enforced(c, costs, budget) == c
    ensures !Stops(c, budget) ==> Enforced(c, costs, budget) == Enforced(Settled(Detached(Dropped(c)), costs), costs, budget)
    ensures !Irreducible(c) ==> Size(Detached(Dropped(c))) == Size(c) - 1
  {
    hide Dropped, Irreducible;
  }

  lemma SomeLeast<T(!new)>(s: seq<T>, leq: (T, T) -> bool)
    requires TotalPreorder(leq) && s != []
    ensures FirstLeast(s, Anything, leq) >= 0
  {
    assert Anything(s[0]);
  }

  class Packet {
    var spine: seq<Entity>
    var selected: seq<Selected>
    var relationships: seq<Related>
    var omitted: map<string, int>
    var total: int
    var minimum: Option<int>
    const budget: int

    function View(): Contents
      reads this
    {
      Contents(spine, selected, relationships, omitted, total)
    }

    constructor (contents: Contents, budget: int)
      ensures View() == contents && this.budget == budget && minimum == None
    {
      spine, selected, relationships := contents.spine, contents.selected, contents.relationships;
      omitted, total, minimum := contents.omitted, contents.total, None;
      this.budget := budget;
    }

    method SettleEstimates(costs: Costs)
      modifies `selected, `relationships, `total
      ensures View() == Settled(old(View()), costs)
      ensures |selected| == |old(selected)|
    {
      total := 0;
      for i := 0 to |selected|
        invariant |selected| == |old(selected)| && relationships == old(relationships)
        invariant forall k :: 0 <= k < i ==> selected[k] == old(selected)[k].(tokens := costs.ofSelected(old(selected)[k]))
        invariant forall k :: i <= k < |selected| ==> selected[k] == old(selected)[k]
        invariant total == Sum(old(selected)[..i], costs.ofSelected)
      {
        SumStep(old(selected), costs.ofSelected, i);
        selected := selected[i := selected[i].(tokens := costs.ofSelected(selected[i]))];
        total := total + selected[i].tokens;
      }
      assert old(selected)[..|selected|] == old(selected);
      assert selected == Priced(old(selected), costs.ofSelected);
      ghost var ofSelected := total;
      for i := 0 to |relationships|
        invariant |relationships| == |old(relationships)| && selected == Priced(old(selected), costs.ofSelected)
        invariant forall k :: 0 <= k < i ==>
                    relationships[k] == old(relationships)[k].(tokens := costs.ofRelated(old(relationships)[k]))
        invariant forall k :: i <= k < |relationships| ==> relationships[k] == old(relationships)[k]
        invariant total == ofSelected + Sum(old(relationships)[..i], costs.ofRelated)
      {
        SumStep(old(relationships), costs.ofRelated, i);
        relationships := relationships[i := relationships[i].(tokens := costs.ofRelated(relationships[i]))];
        total := total + relationships[i].tokens;
      }
      assert old(relationships)[..|relationships|] == old(relationships);
      assert relationships == PricedEdges(old(relationships), costs.ofRelated);
      ghost var soFar := total;
      for i := 0 to |spine|
        invariant selected == Priced(old(selected), costs.ofSelected)
        invariant relationships == PricedEdges(old(relationships), costs.ofRelated)
        invariant total == soFar + Sum(spine[..i], costs.ofSpine)
      {
        SumStep(spine, costs.ofSpine, i);
        total := total + costs.ofSpine(spine[i]);
      }
      assert spine[..|spine|] == spine;
      total := total + ENVELOPE;
    }

    /** One round of the enforcement loop: removes the least relevant item, if any may go. */
    method TrimOne() returns (trimmed: bool)
      modifies `selected, `spine, `omitted, `relationships
      ensures trimmed == !Irreducible(old(View()))
      ensures View() == if trimmed then Detached(Dropped(old(View()))) else old(View())
    {
      ghost var c := View();
      DroppedCases(c);
      hide FirstLeast, Within, Retained, Remove, Counted, CategoryOf, TotalPreorder, Lower, Coarser, Optional, Anything,
           Irreducible, Dropped;
      var optional := FirstLeast(selected, Optional, Lower);
      if optional >= 0 {
        omitted := Counted(omitted, CategoryOf(selected[optional]));
        selected := Remove(selected, optional);
      } else if spine != [] {
        var coarsest := FirstLeast(spine, Anything, Coarser);
        spine := Remove(spine, coarsest);
        omitted := Counted(omitted, "spine");
      } else if |selected| > 1 {
        var least := FirstLeast(selected, Anything, Lower);
        omitted := Counted(omitted, CategoryOf(selected[least]));
        selected := Remove(selected, least);
      } else {
        return false;
      }
      assert View() == Dropped(c);
      var retained := Retained(selected, spine);
      relationships := Within(relationships, retained);
      return true;
    }

    /** `enforce_budget`. */
    method EnforceBudget(costs: Costs)
      modifies this
      ensures View() == Enforced(Started(old(View()), costs), costs, budget)
      ensures minimum == Some(total)
    {
      selected := SortBy(selected, ByPriority);
      SettleEstimates(costs);
      ghost var start := View();
      assert start == Started(old(View()), costs);
      hide Settled, Detached, Irreducible, Dropped, Enforced, Started;
      while total > budget
        invariant Enforced(View(), costs, budget) == Enforced(start, costs, budget)
        decreases |selected| + |spine|
      {
        EnforcedStep(View(), costs, budget);
        var trimmed := TrimOne();
        if !trimmed {
          break;
        }
        SettleEstimates(costs);
      }
      EnforcedStep(View(), costs, budget);
      minimum := Some(total);
    }
  }
}
