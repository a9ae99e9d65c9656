/** The work-list of `green/incremental.rs`: re-assess what changed, and climb to the parent
    only while overall codes move. */
module Reconverging {
  import opened Atlas
  import opened Hierarchy
  import opened Evaluator
  import opened RollUp
  import opened FullPasses

  /** Green was consistent before, except that the `changed` entities may have had their
      evidence, sockets or Green touched since. */
  ghost predicate StaleOnlyAt(ctx: Context, entities: seq<Entity>, changed: seq<Id>) {
    forall e :: e in entities ==> e.id in changed || Current(ctx, entities, e)
  }

  /** `x` is a changed entity or one of its ancestors. */
  ghost predicate AboveChange(m: Index, changed: seq<Id>, x: Id) {
    exists c :: c in changed && Under(m, c, x)
  }

  /** The assessment of `e` once the pending updates are written. */
  function Now(e: Entity, updates: map<Id, Assessment>): Option<Assessment> {
    if e.id in updates then Some(updates[e.id]) else e.green
  }

  /** The `overall` cache agrees with the assessments, and whatever is not queued is current. */
  ghost predicate Settled(ctx: Context, es: seq<Entity>, overall: map<Id, Code>, updates: map<Id, Assessment>,
                          queue: seq<Id>) {
    forall e :: e in es ==>
      e.id in queue || Now(e, updates) == Some(Assess(ctx, e, KnownCodes(overall, ChildIds(es, e.id))))
  }

  ghost predicate Caches(es: seq<Entity>, overall: map<Id, Code>, updates: map<Id, Assessment>) {
    forall e :: e in es ==>
      (e.id in overall <==> Now(e, updates).Some?) && (e.id in overall ==> overall[e.id] == Now(e, updates).value.overall)
  }

  function AfterVisit(rest: seq<Id>, e: Entity, moved: bool): seq<Id> {
    if moved && e.parent.Some? then rest + [e.parent.value] else rest
  }

  /** Visiting the head of the queue keeps the rest settled. */
  lemma VisitKeepsSettled(
      ctx: Context, es: seq<Entity>, overall: map<Id, Code>, updates: map<Id, Assessment>, rest: seq<Id>, e: Entity, a: Assessment)
    requires WellFormed(es) && e in es
    requires Settled(ctx, es, overall, updates, [e.id] + rest)
    requires a == Assess(ctx, e, KnownCodes(overall, ChildIds(es, e.id)))
    ensures var moved := e.id !in overall || overall[e.id] != a.overall;
            Settled(ctx, es, overall[e.id := a.overall], updates[e.id := a], AfterVisit(rest, e, moved))
  {
    hide Assess, IndexOf, Roots;
    var moved := e.id !in overall || overall[e.id] != a.overall;
    var next := overall[e.id := a.overall];
    forall f | f in es && f.id !in AfterVisit(rest, e, moved)
      ensures Now(f, updates[e.id := a]) == Some(Assess(ctx, f, KnownCodes(next, ChildIds(es, f.id))))
    {
      OneCopy(es, e, f);
      assert f.id != e.id ==> f.id !in [e.id] + rest;
      if e.id in ChildIds(es, f.id) {
        ParentOf(es, e, f.id);
        if !moved {
          assert next == overall;
        }
      } else {
        SameKnownCodes(overall, next, ChildIds(es, f.id));
      }
    }
  }

  lemma OneCopy(es: seq<Entity>, e: Entity, f: Entity)
    requires WellFormed(es) && e in es && f in es
    ensures e.id == f.id ==> e == f
  {
    IndexedUnderOwnId(es);
  }

  lemma ParentOf(es: seq<Entity>, e: Entity, p: Id)
    requires WellFormed(es) && e in es && e.id in ChildIds(es, p)
    ensures e.parent == Some(p) && p != e.id
  {
    ChildIdsAreChildren(es, p);
    var f :| f in es && f.id == e.id && f.parent == Some(p);
    OneCopy(es, e, f);
    var i :| 0 <= i < |es| && es[i] == e;
    NotItsOwnParent(es, i);
  }

  // ---- Termination ----

  /** In a containment tree every chain ends, also that of an id it does not hold. */
  lemma AllGrounded(es: seq<Entity>, id: Id)
    requires WellFormed(es)
    ensures Grounded(IndexOf(es), id)
  {
    var m := IndexOf(es);
    if id in m {
      assert m[id] in es && m[id].id == id;
    } else {
      assert Climb(m, id, 0) == Some(id);
      assert Climb(m, id, 1) == None;
    }
  }

  /** The number of visits the queue can still cause: each entity pays for its chain. */
  ghost function Weight(m: Index, queue: seq<Id>): nat
    requires forall id :: id in queue ==> Grounded(m, id)
  {
    if queue == [] then 0
    else
      var n := |queue| - 1;
      assert queue[n] in queue;
      Weight(m, queue[..n]) + Depth(m, queue[n])
  }

  lemma {:induction false} WeightOfHead(m: Index, id: Id, rest: seq<Id>)
    requires Grounded(m, id) && forall x :: x in rest ==> Grounded(m, x)
    ensures Weight(m, [id] + rest) == Depth(m, id) + Weight(m, rest)
  {
    if rest == [] {
      assert [id] + rest == [id] && [id][..0] == [];
    } else {
      var n := |rest| - 1;
      assert ([id] + rest)[..n + 1] == [id] + rest[..n];
      WeightOfHead(m, id, rest[..n]);
    }
  }

  lemma WeightFalls(m: Index, rest: seq<Id>, e: Entity, moved: bool)
    requires e.id in m && m[e.id] == e && Grounded(m, e.id)
    requires forall x :: x in rest ==> Grounded(m, x)
    requires forall x :: x in AfterVisit(rest, e, moved) ==> Grounded(m, x)
    ensures Weight(m, AfterVisit(rest, e, moved)) < Weight(m, [e.id] + rest)
  {
    WeightOfHead(m, e.id, rest);
    if moved && e.parent.Some? {
      var p := e.parent.value;
      DepthOfParent(m, e.id, p);
      assert (rest + [p])[..|rest|] == rest;
    }
  }

  // ---- Frame ----

  lemma ParentAboveChange(m: Index, changed: seq<Id>, id: Id)
    requires AboveChange(m, changed, id) && id in m && m[id].parent.Some?
    ensures AboveChange(m, changed, m[id].parent.value)
  {
    var c :| c in changed && Under(m, c, id);
    ChildIsBelow(m, id, m[id].parent.value);
    UnderTransitive(m, c, id, m[id].parent.value);
  }

  /** The work-list itself, over the ids still to visit. */
  method Drain(es: seq<Entity>, tree: Tree, changed: seq<Id>, ctx: Context)
    returns (updates: map<Id, Assessment>, moved: set<Id>)
    requires WellFormed(es) && IsTreeOf(tree, es)
    ensures forall x :: x in updates || x in moved ==> AboveChange(tree.entities, changed, x)
    ensures forall e :: e in es && e.id !in moved ==> CodeOf(Now(e, updates)) == CodeOf(e.green)
    ensures StaleOnlyAt(ctx, es, changed) ==>
              exists overall :: Caches(es, overall, updates) && Settled(ctx, es, overall, updates, [])
  {
    hide Assess, IndexOf, Roots, ChildIds, WellFormed, Settled, AboveChange, Weight, Grounded;
    ghost var m := tree.entities;
    var required := GroupRequired(ctx.edges);
    var overall := Greens(es);
    updates, moved := map[], {};
    var queue := changed;
    StartsSettled(ctx, es, changed);
    ghost var stale := StaleOnlyAt(ctx, es, changed);
    forall x { AllGrounded(es, x); }
    forall x | x in changed { StartsAboveChange(m, changed, x); }
    while queue != []
      invariant Caches(es, overall, updates)
      invariant stale ==> Settled(ctx, es, overall, updates, queue)
      invariant forall x :: x in updates || x in moved || x in queue ==> AboveChange(m, changed, x)
      invariant forall e :: e in es && e.id !in moved ==> CodeOf(Now(e, updates)) == CodeOf(e.green)
      decreases Weight(m, queue)
    {
      var id, rest := queue[0], queue[1..];
      assert queue == [id] + rest;
      if id !in tree.entities {
        WeightOfHead(m, id, rest);
        UnknownIsNoMatter(ctx, es, overall, updates, rest, id);
        queue := rest;
      } else {
        var e := tree.entities[id];
        ChildrenListed(tree, es, id);
        SameChildren(ctx, e, overall, ListedUnder(tree.children, id), ChildIds(es, id));
        var kids := ChildStates(overall, ListedUnder(tree.children, id));
        var a := EvaluateEntity(e, ctx, kids, if id in required then required[id] else []);
        var movedHere := id !in overall || overall[id] != a.overall;
        TreeEntity(tree, es, id);
        if stale {
          VisitKeepsSettled(ctx, es, overall, updates, rest, e, a);
        }
        VisitKeepsCaches(es, overall, updates, e, a);
        WeightFalls(m, rest, e, movedHere);
        if movedHere && e.parent.Some? {
          ParentAboveChange(m, changed, id);
        }
        overall := overall[id := a.overall];
        updates := updates[id := a];
        queue := rest;
        if movedHere {
          moved := moved + {id};
          if e.parent.Some? {
            queue := queue + [e.parent.value];
          }
        }
        assert queue == AfterVisit(rest, e, movedHere);
      }
    }
  }

  function CodeOf(a: Option<Assessment>): Option<Code> {
    if a.Some? then Some(a.value.overall) else None
  }

  lemma TreeEntity(tree: Tree, es: seq<Entity>, id: Id)
    requires IsTreeOf(tree, es) && id in tree.entities
    ensures tree.entities[id] in es && tree.entities[id].id == id
  {
  }

  lemma StartsSettled(ctx: Context, es: seq<Entity>, changed: seq<Id>)
    requires WellFormed(es)
    ensures Caches(es, Greens(es), map[])
    ensures StaleOnlyAt(ctx, es, changed) ==> Settled(ctx, es, Greens(es), map[], changed)
  {
    GreensAre(es);
  }

  lemma StartsAboveChange(m: Index, changed: seq<Id>, x: Id)
    requires x in changed
    ensures AboveChange(m, changed, x)
  {
    UnderIsSelfOrBelow(m, x, x);
  }

  lemma UnknownIsNoMatter(ctx: Context, es: seq<Entity>, overall: map<Id, Code>, updates: map<Id, Assessment>,
                          rest: seq<Id>, id: Id)
    requires id !in IndexOf(es)
    ensures Settled(ctx, es, overall, updates, [id] + rest) ==> Settled(ctx, es, overall, updates, rest)
  {
    hide Assess;
  }

  lemma VisitKeepsCaches(es: seq<Entity>, overall: map<Id, Code>, updates: map<Id, Assessment>, e: Entity,
                         a: Assessment)
    requires Caches(es, overall, updates)
    ensures Caches(es, overall[e.id := a.overall], updates[e.id := a])
  {
  }

  // ---- The result ----

  function Updated(es: seq<Entity>, updates: map<Id, Assessment>): (r: seq<Entity>)
    ensures SameButGreen(r, es)
  {
    seq(|es|, i requires 0 <= i < |es| => es[i].(green := Now(es[i], updates)))
  }

  lemma CacheIsGreens(es: seq<Entity>, overall: map<Id, Code>, updates: map<Id, Assessment>, id: Id)
    requires DistinctIds(es) && Caches(es, overall, updates)
    requires forall e :: e in es ==> Now(e, updates).Some?
    ensures var g := Greens(Updated(es, updates));
            forall c :: c in ChildIds(es, id) ==> c in overall && c in g && overall[c] == g[c]
  {
    hide Greens, ChildIds;
    var s := Updated(es, updates);
    forall i, j | 0 <= i < j < |s| ensures s[i].id != s[j].id {
      assert es[i].id != es[j].id;
    }
    GreensAre(s);
    ChildIdsAreChildren(es, id);
    forall c | c in ChildIds(es, id) ensures c in overall && c in Greens(s) && overall[c] == Greens(s)[c] {
      var k :| k in es && k.id == c;
      var j :| 0 <= j < |es| && es[j] == k;
      assert s[j] in s;
    }
  }

  /** A drained queue leaves a consistent Green. */
  lemma SettledIsRolledUp(ctx: Context, es: seq<Entity>, overall: map<Id, Code>, updates: map<Id, Assessment>)
    requires DistinctIds(es) && Caches(es, overall, updates) && Settled(ctx, es, overall, updates, [])
    ensures RolledUp(ctx, Updated(es, updates))
  {
    hide Assess, KnownCodes, Greens, ChildIds, Caches;
    var s := Updated(es, updates);
    forall e | e in s ensures Current(ctx, s, e) {
      var i :| 0 <= i < |s| && s[i] == e;
      assert es[i] in es;
      ShapeKeepsChildren(s, es, e.id);
      CacheIsGreens(es, overall, updates, e.id);
      SameKnownCodes(overall, Greens(s), ChildIds(es, e.id));
      AssessIgnoresGreen(ctx, es[i], e.green, KnownCodes(overall, ChildIds(es, e.id)));
    }
  }

  /** The incremental result is the full pass's, assessments and reasons alike. */
  lemma RolledUpIsFullPass(ctx: Context, before: seq<Entity>, after: seq<Entity>)
    requires WellFormed(before) && ChildFirst(before) && SameButGreen(after, before) && RolledUp(ctx, after)
    ensures after == Stamped(before, FullPass(ctx, before))
  {
    hide FullPass, RolledUp, WellFormed;
    var full := Stamped(before, FullPass(ctx, before));
    FullPassRollsUp(ctx, before);
    ShapeKeepsWellFormed(full, before);
    RollUpIsUnique(ctx, after, full);
  }

  /** `reconverge`: if Green was consistent but for the changed entities, afterwards it is
      consistent everywhere, and equals the full pass whenever that one is.  Only changed
      entities and their ancestors are touched, and every entity whose overall code differs
      is reported.  Anything but a containment tree is left alone. */
  method Reconverge(entities: array<Entity>, changed: seq<Id>, ctx: Context) returns (moved: set<Id>)
    modifies entities
    ensures SameButGreen(entities[..], old(entities[..]))
    ensures !WellFormed(old(entities[..])) ==> moved == {} && entities[..] == old(entities[..])
    ensures WellFormed(old(entities[..])) && StaleOnlyAt(ctx, old(entities[..]), changed) ==> RolledUp(ctx, entities[..])
    ensures WellFormed(old(entities[..])) && StaleOnlyAt(ctx, old(entities[..]), changed)
              && ChildFirst(old(entities[..]))
            ==> entities[..] == Stamped(old(entities[..]), FullPass(ctx, old(entities[..])))
    ensures forall x :: x in moved ==> AboveChange(IndexOf(old(entities[..])), changed, x)
    ensures forall i :: 0 <= i < entities.Length && entities[i] != old(entities[i])
              ==> AboveChange(IndexOf(old(entities[..])), changed, entities[i].id)
    ensures forall i :: 0 <= i < entities.Length && CodeOf(entities[i].green) != CodeOf(old(entities[i].green))
              ==> entities[i].id in moved
  {
    hide WellFormed, StaleOnlyAt, RolledUp, ChildFirst, FullPass, Stamped, AboveChange, Settled, Caches, IsTreeOf;
    var es := entities[..];
    var t := FromEntities(es);
    if t.Err? {
      return {};
    }
    TreeIndexes(t.value, es);
    var updates;
    updates, moved := Drain(es, t.value, changed, ctx);
    WriteBack(entities, updates);
    assert forall i :: 0 <= i < |es| ==> es[i] in es;
    if StaleOnlyAt(ctx, es, changed) {
      ghost var overall :| Caches(es, overall, updates) && Settled(ctx, es, overall, updates, []);
      DistinctWhenWellFormed(es);
      SettledIsRolledUp(ctx, es, overall, updates);
      if ChildFirst(es) {
        RolledUpIsFullPass(ctx, es, entities[..]);
      }
    }
  }

  lemma TreeIndexes(tree: Tree, es: seq<Entity>)
    requires IsTreeOf(tree, es)
    ensures tree.entities == IndexOf(es)
  {
  }

  method WriteBack(entities: array<Entity>, updates: map<Id, Assessment>)
    modifies entities
    ensures entities[..] == Updated(old(entities[..]), updates)
    ensures forall i :: 0 <= i < entities.Length && entities[i] != old(entities[i]) ==> entities[i].id in updates
    ensures forall i :: 0 <= i < entities.Length ==> entities[i] == old(entities[i]).(green := Now(old(entities[i]), updates))
  {
    for i := 0 to entities.Length
      invariant forall j :: 0 <= j < i ==> entities[j] == old(entities[j]).(green := Now(old(entities[j]), updates))
      invariant forall j :: i <= j < entities.Length ==> entities[j] == old(entities[j])
    {
      if entities[i].id in updates {
        entities[i] := entities[i].(green := Some(updates[entities[i].id]));
      }
    }
  }
}
