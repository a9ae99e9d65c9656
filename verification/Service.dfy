/** One watched root of the service loop (`service.rs`) as a machine that can crash between any two
    durable writes, and what holds over every run of it. */
module Services {
  import opened Atlas
  import opened Coordinators

  // ---- The machine ----

  /** A durable write, in the order it reached the disk. */
  datatype Write = Journalled(event: Event) | Committed | Applied(id: Id)

  datatype Phase = Opening | Idle | Recorded(event: Event) | Reconciling | Marking(todo: seq<Id>)

  /** The disk, and what the process holds while it is up.  `since` is what this process has
      journalled. */
  datatype Machine = Machine(log: seq<Write>, up: bool, pending: seq<Event>, applied: set<Id>, phase: Phase, since: seq<Event>)

  const FRESH := Machine([], false, [], {}, Idle, [])

  datatype Action =
    | Start | Refresh | RefreshFails | Observe(event: Event) | Enqueue | Settle
    | GiveUp | GiveUpAfterCommit | Commit | Mark | Clear | Crash

  function Entries(log: seq<Write>): seq<Event> {
    if log == [] then []
    else Entries(log[..|log| - 1]) + (if log[|log| - 1].Journalled? then [log[|log| - 1].event] else [])
  }

  function Markers(log: seq<Write>): set<Id> {
    set w | w in log && w.Applied? :: w.id
  }

  function EventIds(events: seq<Event>): set<Id> {
    set e | e in events :: e.id
  }

  /** The journal's entries without a marker. */
  function Pending(log: seq<Write>): seq<Event> {
    Unapplied(Entries(log), Markers(log))
  }

  function IdsIn(events: seq<Event>): (ids: seq<Id>)
    ensures |ids| == |events| && forall i :: 0 <= i < |ids| ==> ids[i] == events[i].id
  {
    seq(|events|, i requires 0 <= i < |events| => events[i].id)
  }

  predicate Enabled(m: Machine, a: Action) {
    match a
    case Start => !m.up
    case Refresh => m.up && m.phase.Opening?
    case RefreshFails => m.up && m.phase.Opening?
    case Observe(e) => m.up && m.phase.Idle?
    case Enqueue => m.up && m.phase.Recorded?
    case Settle => m.up && m.phase.Idle?
    case GiveUp => m.up && m.phase.Reconciling?
    case GiveUpAfterCommit => m.up && m.phase.Reconciling?
    case Commit => m.up && m.phase.Reconciling?
    case Mark => m.up && m.phase.Marking? && m.phase.todo != []
    case Clear => m.up && m.phase.Marking? && m.phase.todo == []
    case Crash => m.up
  }

  function Step(m: Machine, a: Action): Machine
    requires Enabled(m, a)
  {
    match a
    // the applied set is seeded from the markers; journalled events are not queued again
    case Start => Machine(m.log, true, [], Markers(m.log), Opening, [])
    // the reconcile that establishes current truth before serving; its failure is only reported
    case Refresh => m.(log := m.log + [Committed], phase := Idle)
    case RefreshFails => m.(phase := Idle)
    case Observe(e) => m.(log := m.log + [Journalled(e)], phase := Recorded(e), since := m.since + [e])
    case Enqueue => m.(pending := m.pending + [m.phase.event], phase := Idle)
    case Settle =>
      var left := Unapplied(m.pending, m.applied);
      m.(pending := left, phase := if left == [] then Idle else Reconciling)
    // a failed reconcile leaves the events pending, whether or not the snapshot had been replaced
    case GiveUp => m.(phase := Idle)
    case GiveUpAfterCommit => m.(log := m.log + [Committed], phase := Idle)
    case Commit => m.(log := m.log + [Committed], phase := Marking(IdsIn(m.pending)))
    case Mark =>
      var id := m.phase.todo[0];
      m.(log := m.log + [Applied(id)], applied := m.applied + {id}, phase := Marking(m.phase.todo[1..]))
    case Clear => m.(pending := [], phase := Idle)
    case Crash => m.(up := false, pending := [], applied := {}, phase := Idle, since := [])
  }

  predicate Runs(m: Machine, actions: seq<Action>)
    decreases |actions|, 0
  {
    actions == [] || (Runs(m, actions[..|actions| - 1]) && Enabled(After(m, actions[..|actions| - 1]), actions[|actions| - 1]))
  }

  function After(m: Machine, actions: seq<Action>): Machine
    requires Runs(m, actions)
    decreases |actions|, 1
  {
    if actions == [] then m else Step(After(m, actions[..|actions| - 1]), actions[|actions| - 1])
  }

  // ---- What every step keeps ----

  /** An event of this id was journalled, and a reconcile committed after that. */
  ghost predicate Covered(log: seq<Write>, id: Id) {
    exists i, j :: 0 <= i < j < |log| && log[i].Journalled? && log[i].event.id == id && log[j] == Committed
  }

  /** Every marker follows a commit that follows the journal entry it is for. */
  ghost predicate MarkersCovered(log: seq<Write>) {
    forall k :: 0 <= k < |log| && log[k].Applied? ==> Covered(log[..k], log[k].id)
  }

  ghost predicate Sound(m: Machine) {
    && MarkersCovered(m.log)
    && (forall e :: e in m.since ==> Journalled(e) in m.log)
    && (forall e :: e in m.pending ==> e in m.since)
    && (m.phase.Recorded? ==> m.phase.event in m.since)
    && (m.phase.Marking? ==> forall id :: id in m.phase.todo ==> Covered(m.log, id))
    && (m.up ==> m.applied == Markers(m.log))
  }

  /** Nothing this process journalled is lost: it is pending, just journalled, or applied. */
  ghost predicate Lossless(m: Machine) {
    && (forall e :: e in m.since ==> e in m.pending || (m.phase.Recorded? && m.phase.event == e) || e.id in m.applied)
    && (m.phase.Marking? ==> forall e :: e in m.pending ==> e.id in m.phase.todo || e.id in m.applied)
  }

  lemma CoveredLater(log: seq<Write>, w: Write, id: Id)
    requires Covered(log, id)
    ensures Covered(log + [w], id)
  {
    var i, j :| 0 <= i < j < |log| && log[i].Journalled? && log[i].event.id == id && log[j] == Committed;
    assert (log + [w])[i] == log[i] && (log + [w])[j] == log[j];
  }

  lemma MarkersStayCovered(log: seq<Write>, w: Write)
    requires MarkersCovered(log) && (w.Applied? ==> Covered(log, w.id))
    ensures MarkersCovered(log + [w])
  {
    var more := log + [w];
    forall k | 0 <= k < |more| && more[k].Applied? ensures Covered(more[..k], more[k].id) {
      if k < |log| {
        assert more[..k] == log[..k];
      } else {
        assert more[..k] == log;
      }
    }
  }

  lemma CommitCovers(log: seq<Write>, e: Event)
    requires Journalled(e) in log
    ensures Covered(log + [Committed], e.id)
  {
    var i :| 0 <= i < |log| && log[i] == Journalled(e);
    var more := log + [Committed];
    assert more[i] == log[i] && more[|log|] == Committed;
  }

  lemma MarkersGrow(log: seq<Write>, w: Write)
    ensures Markers(log + [w]) == Markers(log) + (if w.Applied? then {w.id} else {})
  {
    forall id | id in Markers(log) + (if w.Applied? then {w.id} else {}) ensures id in Markers(log + [w]) {
      assert w in log + [w];
      assert forall v :: v in log ==> v in log + [w];
    }
  }

  lemma StepIsSound(m: Machine, a: Action)
    requires Enabled(m, a) && Sound(m)
    ensures Sound(Step(m, a))
  {
    hide Covered, MarkersCovered, Markers;
    var t := Step(m, a);
    match a {
      case Observe(e) =>
        MarkersStayCovered(m.log, Journalled(e));
        MarkersGrow(m.log, Journalled(e));
      case Refresh =>
        MarkersStayCovered(m.log, Committed);
        MarkersGrow(m.log, Committed);
      case GiveUpAfterCommit =>
        MarkersStayCovered(m.log, Committed);
        MarkersGrow(m.log, Committed);
      case Commit =>
        MarkersStayCovered(m.log, Committed);
        MarkersGrow(m.log, Committed);
        forall id | id in t.phase.todo ensures Covered(t.log, id) {
          var i :| 0 <= i < |m.pending| && t.phase.todo[i] == id;
          assert m.pending[i] in m.pending;
          CommitCovers(m.log, m.pending[i]);
        }
      case Mark =>
        var id := m.phase.todo[0];
        MarkersStayCovered(m.log, Applied(id));
        MarkersGrow(m.log, Applied(id));
        forall other | other in t.phase.todo ensures Covered(t.log, other) {
          CoveredLater(m.log, Applied(id), other);
        }
      case Settle => UnappliedMembers(m.pending, m.applied);
      case _ =>
    }
  }

  lemma StepIsLossless(m: Machine, a: Action)
    requires Enabled(m, a) && Lossless(m)
    ensures Lossless(Step(m, a))
  {
    hide Markers;
    match a {
      case Settle => UnappliedMembers(m.pending, m.applied);
      case Commit =>
        forall e | e in m.pending ensures e.id in IdsIn(m.pending) {
          var i :| 0 <= i < |m.pending| && m.pending[i] == e;
          assert IdsIn(m.pending)[i] == e.id;
        }
      case Mark =>
        assert forall id :: id in m.phase.todo ==> id == m.phase.todo[0] || id in m.phase.todo[1..];
      case _ =>
    }
  }

  /** At every point of every run, crashes and failed reconciles included. */
  lemma {:induction false} EveryRunIsSound(actions: seq<Action>)
    requires Runs(FRESH, actions)
    ensures Sound(After(FRESH, actions)) && Lossless(After(FRESH, actions))
    decreases |actions|
  {
    hide Sound, Lossless, Step, Enabled;
    if actions == [] {
      FreshIsSound();
    } else {
      var n := |actions| - 1;
      EveryRunIsSound(actions[..n]);
      StepIsSound(After(FRESH, actions[..n]), actions[n]);
      StepIsLossless(After(FRESH, actions[..n]), actions[n]);
    }
  }

  lemma FreshIsSound()
    ensures Sound(FRESH) && Lossless(FRESH)
  {
  }

  lemma {:induction false} EntriesMembers(log: seq<Write>)
    ensures forall e :: e in Entries(log) <==> Journalled(e) in log
  {
    if log != [] {
      var n := |log| - 1;
      EntriesMembers(log[..n]);
      assert log == log[..n] + [log[n]];
    }
  }

  /** Applied ids are journalled ids, and the journal's pending entries are exactly the journalled
      ones without a marker. */
  lemma AppliedWereJournalled(actions: seq<Action>)
    requires Runs(FRESH, actions)
    ensures var log := After(FRESH, actions).log;
            && Markers(log) <= EventIds(Entries(log))
            && forall e :: e in Pending(log) <==> e in Entries(log) && e.id !in Markers(log)
  {
    EveryRunIsSound(actions);
    hide Runs;
    var log := After(FRESH, actions).log;
    hide After;
    EntriesMembers(log);
    UnappliedMembers(Entries(log), Markers(log));
    hide Entries, Unapplied;
    forall id | id in Markers(log) ensures id in EventIds(Entries(log)) {
      var w :| w in log && w.Applied? && w.id == id;
      var k :| 0 <= k < |log| && log[k] == w;
      var i, j :| 0 <= i < j < k && log[..k][i].Journalled? && log[..k][i].event.id == id && log[..k][j] == Committed;
      assert log[i] in log && log[i].event in Entries(log);
    }
  }

  // ---- Events left behind by a crash ----

  predicate Avoids(a: Action, id: Id) {
    a.Observe? ==> a.event.id != id
  }

  /** This process has nothing to do with `id`. */
  ghost predicate Unconcerned(m: Machine, id: Id) {
    && id !in Markers(m.log) && id !in EventIds(m.pending) && (m.phase.Recorded? ==> m.phase.event.id != id)
    && (m.phase.Marking? ==> id !in m.phase.todo)
  }

  lemma StaysUnconcerned(m: Machine, a: Action, id: Id)
    requires Enabled(m, a) && Unconcerned(m, id) && Avoids(a, id)
    ensures Unconcerned(Step(m, a), id)
  {
    match a {
      case Observe(e) => MarkersGrow(m.log, Journalled(e));
      case Refresh => MarkersGrow(m.log, Committed);
      case GiveUpAfterCommit => MarkersGrow(m.log, Committed);
      case Commit => MarkersGrow(m.log, Committed);
      case Mark => MarkersGrow(m.log, Applied(m.phase.todo[0]));
      case Settle => UnappliedMembers(m.pending, m.applied);
      case _ =>
    }
  }

  /** An event journalled but not marked when the process stops is never queued again: unless the
      watcher reports the same id once more, no later run of the service ever marks it, and the
      journal keeps listing it as pending. */
  lemma {:induction false} LeftBehindStaysPending(m: Machine, actions: seq<Action>, e: Event)
    requires !m.up && m.phase.Idle? && m.pending == [] && Journalled(e) in m.log && e.id !in Markers(m.log)
    requires Runs(m, actions) && forall a :: a in actions ==> Avoids(a, e.id)
    ensures Unconcerned(After(m, actions), e.id) && Journalled(e) in After(m, actions).log
    ensures e in Pending(After(m, actions).log)
    decreases |actions|
  {
    hide Step, Enabled, Avoids;
    if actions != [] {
      var n := |actions| - 1;
      LeftBehindStaysPending(m, actions[..n], e);
      assert actions[n] in actions;
      StaysUnconcerned(After(m, actions[..n]), actions[n], e.id);
      LogOnlyGrows(After(m, actions[..n]), actions[n], e);
    }
    hide Runs, After;
    EntriesMembers(After(m, actions).log);
    UnappliedMembers(Entries(After(m, actions).log), Markers(After(m, actions).log));
  }

  lemma LogOnlyGrows(m: Machine, a: Action, e: Event)
    requires Enabled(m, a) && Journalled(e) in m.log
    ensures Journalled(e) in Step(m, a).log
  {
  }

  /** What a restart does make up for: once its first reconcile commits, every event journalled so
      far is covered by a commit, marked or not. */
  lemma RefreshCoversJournal(m: Machine, e: Event)
    requires Enabled(m, Refresh) && e in Entries(m.log)
    ensures Covered(Step(m, Refresh).log, e.id)
  {
    EntriesMembers(m.log);
    CommitCovers(m.log, e);
  }

  // ---- The loop body ----

  datatype Outcome = Failed | FailedAfterCommit | Succeeded

  lemma Extend(m: Machine, actions: seq<Action>, a: Action)
    requires Runs(m, actions) && Enabled(After(m, actions), a)
    ensures Runs(m, actions + [a]) && After(m, actions + [a]) == Step(After(m, actions), a)
  {
    hide Step, Enabled;
    assert (actions + [a])[..|actions|] == actions;
  }

  class WatchedRoot {
    var journal: seq<Event>
    var markers: seq<Id>
    const coordinator: Coordinator
    ghost var log: seq<Write>
    ghost var since: seq<Event>

    /** The machine this root is, between two turns of the loop. */
    ghost function View(phase: Phase): Machine
      reads this, coordinator
    {
      Machine(log, true, coordinator.pending, coordinator.applied, phase, since)
    }

    /** The files hold what the log says, and memory agrees with the markers. */
    ghost predicate Valid()
      reads this, coordinator
    {
      && journal == Entries(log) && Markers(log) == (set id | id in markers)
      && coordinator.applied == set id | id in markers
    }

    /** `WatchedRoot::open` on the files a stopped process left. */
    constructor Open(journal: seq<Event>, markers: seq<Id>, ghost log: seq<Write>)
      requires journal == Entries(log) && Markers(log) == set id | id in markers
      ensures Valid() && fresh(coordinator) && this.log == log
      ensures View(Opening) == Step(Machine(log, false, [], {}, Idle, []), Start)
    {
      var c := new Coordinator();
      for i := 0 to |markers|
        invariant c.pending == [] && c.applied == set id | id in markers[..i]
        invariant fresh(c)
      {
        assert markers[..i + 1] == markers[..i] + [markers[i]];
        c.MarkApplied(markers[i]);
      }
      assert markers[..|markers|] == markers;
      this.journal, this.markers, this.log, this.since, coordinator := journal, markers, log, [], c;
    }

    /** The reconcile before serving, with the way it ends. */
    method FirstReconcile(outcome: Outcome) returns (ghost action: Action)
      requires Valid()
      modifies this`log
      ensures Valid() && action == if outcome == Failed then RefreshFails else Refresh
      ensures Enabled(old(View(Opening)), action) && Step(old(View(Opening)), action) == View(Idle)
    {
      action := if outcome == Failed then RefreshFails else Refresh;
      if outcome != Failed {
        CommitKeepsFiles(log);
        log := log + [Committed];
      }
    }

    /** One turn of the loop for this root, with the events the watcher delivers and the way the
        reconcile ends, is a run of the machine. */
    method Turn(events: seq<Event>, outcome: Outcome) returns (ghost actions: seq<Action>)
      requires Valid()
      modifies this, coordinator
      ensures Valid() && journal == old(journal) + events
      ensures Runs(old(View(Idle)), actions) && After(old(View(Idle)), actions) == View(Idle)
      ensures var left := Unapplied(old(coordinator.pending) + events, old(coordinator.applied));
              if left != [] && outcome == Succeeded
              then coordinator.pending == [] && markers == old(markers) + IdsIn(left)
              else coordinator.pending == left && markers == old(markers)
      ensures outcome == Succeeded ==> forall e :: e in events ==> e.id in markers
    {
      hide Step, Enabled, Unapplied, Entries, Markers, Runs, After;
      ghost var start := View(Idle);
      actions := Collect(events);
      SettleStep(View(Idle));
      Extend(start, actions, Settle);
      NothingLeft(coordinator.pending, coordinator.applied);
      ghost var before := coordinator.pending;
      actions := actions + [Settle];
      var run := coordinator.Settle();
      if !run {
        return;
      }
      match outcome {
        case Failed =>
          FailSteps(View(Reconciling));
          Extend(start, actions, GiveUp);
          actions := actions + [GiveUp];
        case FailedAfterCommit =>
          FailSteps(View(Reconciling));
          Extend(start, actions, GiveUpAfterCommit);
          actions := actions + [GiveUpAfterCommit];
          CommitKeepsFiles(log);
          log := log + [Committed];
        case Succeeded =>
          FailSteps(View(Reconciling));
          Extend(start, actions, Commit);
          actions := actions + [Commit];
          CommitKeepsFiles(log);
          log := log + [Committed];
          actions := MarkAll(start, actions);
          ClearStep(View(Marking([])));
          Extend(start, actions, Clear);
          actions := actions + [Clear];
          AllMarked(before, old(coordinator.applied), coordinator.pending);
          coordinator.ClearPending();
      }
    }

    /** Journal, then queue, every waiting event. */
    method Collect(events: seq<Event>) returns (ghost actions: seq<Action>)
      requires Valid()
      modifies this, coordinator
      ensures Valid() && journal == old(journal) + events && markers == old(markers)
      ensures coordinator.pending == old(coordinator.pending) + events
      ensures coordinator.applied == old(coordinator.applied)
      ensures Runs(old(View(Idle)), actions) && After(old(View(Idle)), actions) == View(Idle)
    {
      ghost var start := View(Idle);
      actions := [];
      NoActions(start);
      hide Step, Enabled, Entries, Markers, Runs, After;
      for i := 0 to |events|
        invariant Valid() && journal == old(journal) + events[..i] && markers == old(markers)
        invariant coordinator.pending == old(coordinator.pending) + events[..i] && coordinator.applied == old(coordinator.applied)
        invariant Runs(start, actions) && After(start, actions) == View(Idle)
      {
        var event := events[i];
        ObserveSteps(View(Idle), event);
        Extend(start, actions, Observe(event));
        Extend(start, actions + [Observe(event)], Enqueue);
        actions := actions + [Observe(event)] + [Enqueue];
        JournalKeepsFiles(log, event);
        journal := journal + [event];
        log, since := log + [Journalled(event)], since + [event];
        coordinator.Enqueue(event);
        assert events[..i + 1] == events[..i] + [event];
      }
      assert events[..|events|] == events;
    }

    /** Marks what was reconciled, on disk and then in memory. */
    method MarkAll(ghost start: Machine, ghost before: seq<Action>) returns (ghost actions: seq<Action>)
      requires Valid() && Runs(start, before) && After(start, before) == View(Marking(IdsIn(coordinator.pending)))
      modifies this`markers, this`log, coordinator`applied
      ensures Valid() && markers == old(markers) + IdsIn(coordinator.pending)
      ensures Runs(start, actions) && After(start, actions) == View(Marking([]))
    {
      hide Step, Enabled, Entries, Markers, Runs, After;
      actions := before;
      var applied := IdsIn(coordinator.pending);
      assert applied[0..] == applied && applied[|applied|..] == [] && applied[..|applied|] == applied;
      for i := 0 to |applied|
        invariant Valid() && markers == old(markers) + applied[..i]
        invariant Runs(start, actions) && After(start, actions) == View(Marking(applied[i..]))
      {
        var id := applied[i];
        assert applied[i..][1..] == applied[i + 1..];
        MarkStep(View(Marking(applied[i..])));
        Extend(start, actions, Mark);
        actions := actions + [Mark];
        MarkKeepsFiles(log, markers, id);
        markers := markers + [id];
        log := log + [Applied(id)];
        coordinator.MarkApplied(id);
        OneMoreId(applied, i);
      }
    }
  }

  lemma AllMarked(events: seq<Event>, applied: set<Id>, left: seq<Event>)
    requires left == Unapplied(events, applied)
    ensures forall e :: e in events ==> e.id in applied || e.id in IdsIn(left)
  {
    UnappliedMembers(events, applied);
    forall e | e in events && e.id !in applied ensures e.id in IdsIn(left) {
      var i :| 0 <= i < |left| && left[i] == e;
      assert IdsIn(left)[i] == e.id;
    }
  }

  lemma NoActions(m: Machine)
    ensures Runs(m, []) && After(m, []) == m
  {
  }

  lemma OneMoreId(ids: seq<Id>, i: nat)
    requires i < |ids|
    ensures ids[..i + 1] == ids[..i] + [ids[i]]
  {
  }

  lemma NothingLeft(events: seq<Event>, applied: set<Id>)
    ensures Unapplied(events, applied) != [] <==> exists e :: e in events && e.id !in applied
  {
    UnappliedMembers(events, applied);
    if Unapplied(events, applied) != [] {
      assert Unapplied(events, applied)[0] in Unapplied(events, applied);
    }
  }

  lemma JournalKeepsFiles(log: seq<Write>, e: Event)
    ensures Entries(log + [Journalled(e)]) == Entries(log) + [e] && Markers(log + [Journalled(e)]) == Markers(log)
  {
    assert (log + [Journalled(e)])[..|log|] == log;
    MarkersGrow(log, Journalled(e));
  }

  lemma CommitKeepsFiles(log: seq<Write>)
    ensures Entries(log + [Committed]) == Entries(log) && Markers(log + [Committed]) == Markers(log)
  {
    assert (log + [Committed])[..|log|] == log;
    assert Entries(log) + [] == Entries(log);
    MarkersGrow(log, Committed);
  }

  lemma MarkKeepsFiles(log: seq<Write>, markers: seq<Id>, id: Id)
    requires Markers(log) == set x | x in markers
    ensures Entries(log + [Applied(id)]) == Entries(log)
    ensures Markers(log + [Applied(id)]) == set x | x in markers + [id]
  {
    assert (log + [Applied(id)])[..|log|] == log;
    assert Entries(log) + [] == Entries(log);
    MarkersGrow(log, Applied(id));
    assert forall x :: x in markers + [id] <==> x in markers || x == id;
  }

  lemma ObserveSteps(m: Machine, e: Event)
    requires m.up && m.phase == Idle
    ensures Enabled(m, Observe(e)) && Enabled(Step(m, Observe(e)), Enqueue)
    ensures Step(Step(m, Observe(e)), Enqueue) ==
            m.(log := m.log + [Journalled(e)], pending := m.pending + [e], since := m.since + [e])
  {
  }

  lemma SettleStep(m: Machine)
    requires m.up && m.phase == Idle
    ensures Enabled(m, Settle)
    ensures var left := Unapplied(m.pending, m.applied);
            Step(m, Settle) == m.(pending := left, phase := if left == [] then Idle else Reconciling)
  {
    hide Unapplied;
  }

  lemma FailSteps(m: Machine)
    requires m.up && m.phase == Reconciling
    ensures Enabled(m, GiveUp) && Step(m, GiveUp) == m.(phase := Idle)
    ensures Enabled(m, GiveUpAfterCommit) && Step(m, GiveUpAfterCommit) == m.(log := m.log + [Committed], phase := Idle)
    ensures Enabled(m, Commit) && Step(m, Commit) == m.(log := m.log + [Committed], phase := Marking(IdsIn(m.pending)))
  {
  }

  lemma MarkStep(m: Machine)
    requires m.up && m.phase.Marking? && m.phase.todo != []
    ensures Enabled(m, Mark)
    ensures var id := m.phase.todo[0];
            Step(m, Mark) == m.(log := m.log + [Applied(id)], applied := m.applied + {id}, phase := Marking(m.phase.todo[1..]))
  {
  }

  lemma ClearStep(m: Machine)
    requires m.up && m.phase == Marking([])
    ensures Enabled(m, Clear) && Step(m, Clear) == m.(pending := [], phase := Idle)
  {
  }
}
