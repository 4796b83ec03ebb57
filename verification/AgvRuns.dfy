/** Runs of the order engine over any number of orders, some of them canceled. */
module AgvRuns {
  import opened Orders
  import opened AgvEngine
  import opened AgvInvariants
  import opened AgvCancelation

  /** An order is being canceled, and the protocol is kept. */
  ghost predicate CancelInv(a: Agv) {
    exists n, stops :: CancelsSince(a, n, {}) && StopsOnce(a, stops)
  }

  ghost predicate RunInv(a: Agv) {
    Inv(a) || CancelInv(a)
  }

  /** Orders can be walked step by step, and a cancelation finds all dispatched actions started. */
  ghost predicate Proper(a: Agv, e: Event) {
    if a.canceling then true else if e.CancelArrives? then AllStarted(a) else Ordinary(a, e)
  }

  lemma {:induction false} CancelArrivalKeeps(a: Agv)
    requires Inv(a) && Enabled(a, CancelArrives) && AllStarted(a)
    ensures CancelInv(Step(a, CancelArrives))
  {
    CancelStarts(a);
    assert LateIds(a) == {};
  }

  /**
   Every step of such a run keeps the invariant of the engine, or the protocol of the cancelation until the vehicle
   stands.
   */
  lemma {:induction false} ProperKeeps(a: Agv, e: Event)
    requires RunInv(a) && Enabled(a, e) && Proper(a, e)
    ensures RunInv(Step(a, e))
  {
    if a.canceling {
      var n, stops :| CancelsSince(a, n, {}) && StopsOnce(a, stops);
      AgvCancelation.CancelKeeps(a, n, stops, e);
    } else if e.CancelArrives? {
      CancelArrivalKeeps(a);
    } else {
      StepKeeps(a, e);
    }
  }

  /** The vehicle after a run of events, if they can happen one after the other. */
  ghost function After(a: Agv, events: seq<Event>): Option<Agv> {
    if events == [] then Some(a)
    else
      var before := After(a, events[..|events| - 1]);
      var e := events[|events| - 1];
      if before.Some? && Enabled(before.value, e) && Proper(before.value, e) then Some(Step(before.value, e)) else None
  }

  lemma {:induction false} RunsKeep(lastNodeId: string, events: seq<Event>)
    requires After(Initial(lastNodeId), events).Some?
    ensures RunInv(After(Initial(lastNodeId), events).value)
  {
    if events == [] {
    } else {
      var before := events[..|events| - 1];
      RunsKeep(lastNodeId, before);
      ProperKeeps(After(Initial(lastNodeId), before).value, events[|events| - 1]);
    }
  }

  /** A vehicle reached by such a run. */
  ghost predicate Reachable(a: Agv) {
    exists lastNodeId, events :: After(Initial(lastNodeId), events) == Some(a)
  }

  /** Outside of a cancelation the invariant of the engine holds, whatever was canceled before. */
  lemma {:induction false} ReachableInv(a: Agv)
    requires Reachable(a)
    ensures RunInv(a) && (!a.canceling ==> Inv(a))
  {
    var lastNodeId, events :| After(Initial(lastNodeId), events) == Some(a);
    RunsKeep(lastNodeId, events);
  }

  lemma {:induction false} ReachableThen(a: Agv, e: Event)
    requires Reachable(a) && Enabled(a, e) && Proper(a, e)
    ensures Reachable(Step(a, e))
  {
    var lastNodeId, events :| After(Initial(lastNodeId), events) == Some(a);
    assert (events + [e])[..|events + [e]| - 1] == events;
    assert After(Initial(lastNodeId), events + [e]) == Some(Step(a, e));
  }
}
