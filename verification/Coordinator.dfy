/** The reconciliation coordinator (`coordinator.rs`): collects events, drops the already applied
    ones, and says when to reconcile. */
module Coordinators {
  import opened Atlas

  /** An observed event; `full` when the stream can no longer be trusted to be complete. */
  datatype Event = Event(id: Id, full: bool)

  function Unapplied(events: seq<Event>, applied: set<Id>): seq<Event> {
    if events == [] then []
    else
      var last := events[|events| - 1];
      Unapplied(events[..|events| - 1], applied) + (if last.id in applied then [] else [last])
  }

  lemma {:induction false} UnappliedMembers(events: seq<Event>, applied: set<Id>)
    ensures forall e :: e in Unapplied(events, applied) <==> e in events && e.id !in applied
  {
    if events != [] {
      var n := |events| - 1;
      UnappliedMembers(events[..n], applied);
      assert events == events[..n] + [events[n]];
    }
  }

  class Coordinator {
    var pending: seq<Event>
    var applied: set<Id>
    var reconciliations: nat
    var lastScanBounded: bool

    constructor ()
      ensures pending == [] && applied == {} && reconciliations == 0 && !lastScanBounded
    {
      pending, applied, reconciliations, lastScanBounded := [], {}, 0, false;
    }

    method Enqueue(event: Event)
      modifies `pending
      ensures pending == old(pending) + [event]
    {
      pending := pending + [event];
    }

    method MarkApplied(id: Id)
      modifies `applied
      ensures applied == old(applied) + {id}
    {
      applied := applied + {id};
    }

    method ClearPending()
      modifies `pending
      ensures pending == []
    {
      pending := [];
    }

    /** Drops what is already applied; whether anything is left to reconcile.  A full scan is
        demanded by any event of the burst, dropped or not. */
    method Settle() returns (run: bool)
      modifies `pending, `reconciliations, `lastScanBounded
      ensures pending == Unapplied(old(pending), applied)
      ensures run <==> exists e :: e in old(pending) && e.id !in applied
      ensures run ==> lastScanBounded == (exists e :: e in old(pending) && e.full)
      ensures !run ==> lastScanBounded == old(lastScanBounded)
      ensures reconciliations == old(reconciliations) + if run then 1 else 0
    {
      var requiresFull := exists e :: e in pending && e.full;
      UnappliedMembers(pending, applied);
      pending := Unapplied(pending, applied);
      if pending == [] {
        return false;
      }
      assert pending[0] in pending;
      lastScanBounded := requiresFull;
      reconciliations := reconciliations + 1;
      return true;
    }
  }
}
