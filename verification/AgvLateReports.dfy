/** Reports on actions that a cancelation failed although the adapter was executing them: what they start again. */
module AgvLateReports {
  import opened Orders
  import opened AgvEngine
  import opened AgvInvariants
  import opened AgvCancelation
  import opened AgvRuns
  import Lists = ActionLists

  /** Action `i` of `w` was dispatched, and has not reported a status. */
  predicate Late(a: Agv, w: Owner, i: nat) {
    && a.order.Some? && IsAction(a.order.value, w, i)
    && var id := Id(a.order.value, w, i);
    && id in a.running && id in a.state.actionStates && a.state.actionStates[id].Waiting?
  }

  /** Something of the base comes after action `i` of `w`: a later part of its list, or a later list. */
  predicate LeadsOn(o: Order, w: Owner, i: nat)
    requires IsAction(o, w, i)
  {
    var acts := ActionsOf(o, w);
    || w.OnEdge?
    || w.index + 1 < BaseLen(o.nodes)
    || (if acts[i].blockingType.Hard? then i + 1 < |acts| else Lists.FirstHard(acts, i + 1) < |acts|)
  }

  ghost predicate LateLeadsOn(a: Agv) {
    exists w, i :: Late(a, w, i) && LeadsOn(a.order.value, w, i)
  }

  /** The message is not an order that is accepted. */
  ghost predicate Declined(a: Agv, e: Event) {
    e.OrderArrives? ==> Decide(a, e.order, e.checks).Reject? || Decide(a, e.order, e.checks).Discard?
  }

  /** The vehicle after any events that can happen one after the other, as long as no order is accepted. */
  ghost function Later(a: Agv, events: seq<Event>): Option<Agv> {
    if events == [] then Some(a)
    else
      var before := Later(a, events[..|events| - 1]);
      var e := events[|events| - 1];
      if before.Some? && Enabled(before.value, e) && Declined(before.value, e) then Some(Step(before.value, e))
        else None
  }

  lemma {:induction false} LaterThen(a: Agv, events: seq<Event>, e: Event)
    requires Later(a, events).Some? && Enabled(Later(a, events).value, e) && Declined(Later(a, events).value, e)
    ensures Later(a, events + [e]) == Some(Step(Later(a, events).value, e))
  {
    assert (events + [e])[..|events + [e]| - 1] == events;
  }

  // ---------- Nothing is started if no late action leads on ----------

  /** None of the actions in `late` leads to anything. */
  ghost predicate LastOnes(o: Order, late: set<string>) {
    forall w, i :: IsAction(o, w, i) && Id(o, w, i) in late ==> InBase(o, w) && !LeadsOn(o, w, i)
  }

  /** Since the cancelation, when `n` calls had been made, nothing was started; it can be over, and come again. */
  ghost predicate Ending(a: Agv, n: nat, late: set<string>) {
    && a.todo == [] && a.order.Some? && Accounted(a.order.value, a.state)
    && LastOnes(a.order.value, late)
    && OnlyStops(a.calls, n)
    && (!a.canceling || a.stopping > 0 ==> a.traversing == multiset{} && a.running <= late)
    && a.running <= UnendedIds(a.state) + late
  }

  lemma {:induction false} LateUpdate(a: Agv, n: nat, late: set<string>, w: Owner, i: nat, status: Status)
    requires Ending(a, n, late) && Enabled(a, ActionUpdate(w, i, status))
    ensures Ending(Step(a, ActionUpdate(w, i, status)), n, late)
  {
    var o, id := a.order.value, Id(a.order.value, w, i);
    LateKnown(a, n, late, id);
    var b := Publish(a.(state := SetStatus(a.state, id, status)));
    StatusEnding(a, b, n, late, id, status);
    if Ended(status) {
      var c := b.(running := b.running - {id});
      if a.canceling {
        CanceledEnding(c, n, late);
      } else {
        LateReaction(c, o, late, w, i);
      }
    }
  }

  lemma {:induction false} LateKnown(a: Agv, n: nat, late: set<string>, id: string)
    requires Ending(a, n, late) && id in a.running && id in BaseActionIds(a.order.value)
    ensures id in a.state.actionStates
  {
  }

  lemma {:induction false} StatusEnding(a: Agv, b: Agv, n: nat, late: set<string>, id: string, status: Status)
    requires Ending(a, n, late) && id in a.running && id in a.state.actionStates
    requires b == a.(state := SetStatus(a.state, id, status), sent := b.sent)
    ensures if Ended(status) then Ending(b.(running := b.running - {id}), n, late) else Ending(b, n, late)
  {
    assert b.state.actionStates.Keys == a.state.actionStates.Keys;
  }

  lemma {:induction false} CanceledEnding(c: Agv, n: nat, late: set<string>)
    requires Ending(c, n, late) && c.canceling
    ensures Ending(if AllBaseActionsEnded(c.state, c.order.value) then OnActionsCanceled(c) else c, n, late)
  {
    AllEndedIff(c.order.value, c.state);
  }

  /** The end of an action that leads to nothing starts nothing. */
  lemma {:induction false} LateReaction(c: Agv, o: Order, late: set<string>, w: Owner, i: nat)
    requires c.order == Some(o) && AlignedChain(o) && IsAction(o, w, i) && InBase(o, w) && !LeadsOn(o, w, i)
    ensures var work := Lists.Reaction(ActionsOf(o, w), EndedIndices(c.state, ActionsOf(o, w)), i);
      var b := c.(list := c.list.(ended := c.list.ended + {i}));
      var d := Perform(b, w, work);
      d == c.(list := d.list, cursor := d.cursor)
  {
    var k := w.index;
    TrailingEdgeOnChain(o, k, 0);
    if k < |o.edges| {
      assert o.edges[k].released == o.nodes[k + 1].released;
    }
  }

  lemma {:induction false} CancelAgain(a: Agv, n: nat, late: set<string>)
    requires Ending(a, n, late) && Enabled(a, CancelArrives)
    ensures Ending(Step(a, CancelArrives), n, late)
  {
    assert FailWaiting(a.state.actionStates).Keys == a.state.actionStates.Keys;
  }

  lemma {:induction false} LaterStep(a: Agv, n: nat, late: set<string>, e: Event)
    requires Ending(a, n, late) && Enabled(a, e) && Declined(a, e)
    ensures Ending(Step(a, e), n, late)
  {
    match e
    case ActionUpdate(w, i, status) => LateUpdate(a, n, late, w, i, status);
    case CancelArrives => CancelAgain(a, n, late);
    case EdgeTraversed(k) => assert a.traversing != multiset{};
    case _ =>
  }

  lemma {:induction false} LaterKeeps(a: Agv, n: nat, late: set<string>, events: seq<Event>)
    requires Ending(a, n, late) && Later(a, events).Some?
    ensures Ending(Later(a, events).value, n, late)
  {
    if events != [] {
      var before, e := events[..|events| - 1], events[|events| - 1];
      LaterKeeps(a, n, late, before);
      LaterStep(Later(a, before).value, n, late, e);
    }
  }

  /** The arrival of the cancelation. */
  lemma {:induction false} EndingStarts(a: Agv)
    requires Walking(a) && Enabled(a, CancelArrives) && !LateLeadsOn(a)
    ensures Ending(Step(a, CancelArrives), |a.calls|, LateIds(a))
  {
    CancelStarts(a);
    var o := a.order.value;
    forall w, i | IsAction(o, w, i) && Id(o, w, i) in LateIds(a)
      ensures InBase(o, w) && !LeadsOn(o, w, i)
    {
      assert Late(a, w, i);
      RunningIsHere(a, o, w, i);
    }
  }

  // ---------- Otherwise the canceled order goes on ----------

  /** The stop is confirmed, and the late action reports its end. */
  lemma {:induction false} LateStarts(b: Agv, n: nat, stops: nat, late: set<string>, w: Owner, i: nat)
    requires CancelsSince(b, n, late) && StopsOnce(b, stops) && UnendedIds(b.state) == {}
    requires IsAction(b.order.value, w, i) && InBase(b.order.value, w) && Id(b.order.value, w, i) in late
    requires LeadsOn(b.order.value, w, i)
    ensures Enabled(b, Stopped) && Enabled(Step(b, Stopped), ActionUpdate(w, i, Finished))
    ensures var c := Step(Step(b, Stopped), ActionUpdate(w, i, Finished));
      |c.calls| == |b.calls| + 1 && Starts(c.calls[|b.calls|])
  {
    var o, id := b.order.value, Id(b.order.value, w, i);
    var c := Step(b, Stopped);
    var d := Publish(c.(state := SetStatus(c.state, id, Finished)));
    BaseId(o, w, i);
    assert d.state.actionStates.Keys == b.state.actionStates.Keys;
    assert UnendedIds(d.state) == {};
    OwnerEnded(o, d.state, w);
    EndStarts(d.(running := d.running - {id}, list := d.list.(ended := d.list.ended + {i})), o, w, i);
  }

  /** With everything ended, the end of an action leads to the next thing in the order. */
  lemma {:induction false} EndStarts(d: Agv, o: Order, w: Owner, i: nat)
    requires d.order == Some(o) && AlignedChain(o) && IsAction(o, w, i) && InBase(o, w) && LeadsOn(o, w, i)
    requires AllEnded(d.state, ActionsOf(o, w))
    ensures var e := Perform(d, w, Lists.Reaction(ActionsOf(o, w), EndedIndices(d.state, ActionsOf(o, w)), i));
      |e.calls| == |d.calls| + 1 && Starts(e.calls[|d.calls|])
  {
    var acts := ActionsOf(o, w);
    var work := Lists.Reaction(acts, EndedIndices(d.state, acts), i);
    assert forall j: nat :: j < |acts| ==> j in EndedIndices(d.state, acts);
    assert !work.Nothing?;
    if work.Proceed? && w.AtNode? {
      NextEdgeStarts(d.(list := Lists.Perform(d.list, work)), o, w.index);
    }
  }

  lemma {:induction false} NextEdgeStarts(d: Agv, o: Order, k: nat)
    requires d.order == Some(o) && AlignedChain(o) && k + 1 < BaseLen(o.nodes)
    ensures var e := ProcessEdge(d, k); |e.calls| == |d.calls| + 1 && Starts(e.calls[|d.calls|])
  {
    TrailingEdgeOnChain(o, k, 0);
    assert o.edges[k].released == o.nodes[k + 1].released;
    assert ProcessEdge(d, k) == StartList(d, OnEdge(k));
    EdgeListStarts(d.(cursor := Processing(OnEdge(k)), list := Lists.Run([], {}, [], 0)), o, k);
  }

  lemma {:induction false} EdgeListStarts(d: Agv, o: Order, k: nat)
    requires d.order == Some(o) && k < |o.edges|
    ensures var e := Perform(d, OnEdge(k), Lists.Open(o.edges[k].actions, 0));
      |e.calls| == |d.calls| + 1 && Starts(e.calls[|d.calls|])
  {
  }

  /** What happens until the stop happens later as well. */
  lemma {:induction false} MeanwhileIsLater(a: Agv, events: seq<Event>)
    requires a.canceling && Meanwhile(a, events).Some?
    ensures Later(a, events) == Meanwhile(a, events)
    ensures Meanwhile(a, events).value.canceling && Meanwhile(a, events).value.order == a.order
  {
    if events != [] {
      MeanwhileIsLater(a, events[..|events| - 1]);
    }
  }

  /** Until the stop: everything under way ends. */
  lemma {:induction false} RunToStop(a: Agv) returns (events: seq<Event>, c: Agv)
    requires Walking(a) && Enabled(a, CancelArrives)
    ensures Later(Step(a, CancelArrives), events) == Some(c) && c.order == a.order
    ensures CancelsSince(c, |a.calls|, LateIds(a)) && StopsOnce(c, StopCalls(a.calls)) && UnendedIds(c.state) == {}
  {
    CancelStarts(a);
    var b := Step(a, CancelArrives);
    assert Meanwhile(b, []) == Some(b);
    events, c := EndAll(b, [], b, |a.calls|, StopCalls(a.calls), LateIds(a));
    MeanwhileIsLater(b, events);
  }

  lemma {:induction false} RestartRun(a: Agv, w: Owner, i: nat) returns (events: seq<Event>)
    requires Walking(a) && Enabled(a, CancelArrives) && Late(a, w, i) && LeadsOn(a.order.value, w, i)
    ensures Later(Step(a, CancelArrives), events).Some?
    ensures !OnlyStops(Later(Step(a, CancelArrives), events).value.calls, |a.calls|)
  {
    RunningIsHere(a, a.order.value, w, i);
    var before, c := RunToStop(a);
    events := ReportAfterStop(Step(a, CancelArrives), before, c, |a.calls|, StopCalls(a.calls), LateIds(a), w, i);
  }

  lemma {:induction false} ReportAfterStop(b: Agv, before: seq<Event>, c: Agv, n: nat, stops: nat, late: set<string>,
                                           w: Owner, i: nat)
    returns (events: seq<Event>)
    requires Later(b, before) == Some(c)
    requires CancelsSince(c, n, late) && StopsOnce(c, stops) && UnendedIds(c.state) == {}
    requires IsAction(c.order.value, w, i) && InBase(c.order.value, w) && Id(c.order.value, w, i) in late
    requires LeadsOn(c.order.value, w, i)
    ensures Later(b, events).Some? && !OnlyStops(Later(b, events).value.calls, n)
  {
    LateStarts(c, n, stops, late, w, i);
    LaterThen(b, before, Stopped);
    LaterThen(b, before + [Stopped], ActionUpdate(w, i, Finished));
    events := before + [Stopped] + [ActionUpdate(w, i, Finished)];
  }

  /**
   Short of the acceptance of another order a canceled order is started again in some continuation if and only if an
   action was dispatched that had not reported a status, and something comes after it.
   */
  lemma {:induction false} RestartsIffLateLeadsOn(a: Agv)
    requires Walking(a) && Enabled(a, CancelArrives)
    ensures LateLeadsOn(a) <==>
      exists events :: Later(Step(a, CancelArrives), events).Some?
        && !OnlyStops(Later(Step(a, CancelArrives), events).value.calls, |a.calls|)
  {
    var b := Step(a, CancelArrives);
    if LateLeadsOn(a) {
      var w, i :| Late(a, w, i) && LeadsOn(a.order.value, w, i);
      var events := RestartRun(a, w, i);
      assert Later(b, events).Some?;
    } else {
      EndingStarts(a);
      forall events | Later(b, events).Some?
        ensures OnlyStops(Later(b, events).value.calls, |a.calls|)
      {
        LaterKeeps(b, |a.calls|, LateIds(a), events);
      }
    }
  }

  /** In particular nothing is started again if all dispatched actions had reported. */
  lemma {:induction false} NothingRestarts(a: Agv, events: seq<Event>)
    requires Walking(a) && Enabled(a, CancelArrives) && AllStarted(a) && Later(Step(a, CancelArrives), events).Some?
    ensures OnlyStops(Later(Step(a, CancelArrives), events).value.calls, |a.calls|)
  {
    RestartsIffLateLeadsOn(a);
  }

  // ---------- Such a state is reached ----------

  /** Two released nodes; the first has one action. */
  const EXAMPLE: Order := Order("order", 0,
    [Node("a", 0, true, [Action("load", Soft)]), Node("b", 2, true, [])], [Edge("ab", 1, true, "a", "b", [])])

  lemma {:induction false} ExampleTame()
    ensures Tame(EXAMPLE)
  {
    var o := EXAMPLE;
    assert BaseLen(o.nodes) == 2 by {
      BaseLenIs(o.nodes, 2);
    }
    assert EdgeFits(o, 0);
    forall w | InOrder(o, w)
      ensures Lists.Clean(ActionsOf(o, w))
    {
    }
    forall w, i | IsAction(o, w, i)
      ensures w == AtNode(0) && i == 0
    {
    }
  }

  /** Once the first order has been taken over its first action is dispatched, without a report. */
  lemma {:induction false} LateStateReached(lastNodeId: string, c: Checks) returns (a: Agv)
    requires c.routeTraversable && c.actionsExecutable && !c.charging && !c.emergencyStop && !c.fieldViolation
    requires c.automatic && c.withinDeviation
    ensures Reachable(a) && Walking(a) && Enabled(a, CancelArrives) && LateLeadsOn(a)
  {
    a := Begin(Initial(lastNodeId), EXAMPLE);
    ExampleAccepted(Initial(lastNodeId), c);
    assert After(Initial(lastNodeId), []) == Some(Initial(lastNodeId));
    ReachableThen(Initial(lastNodeId), OrderArrives(EXAMPLE, c));
    FirstDispatched(Initial(lastNodeId));
    FirstIsLate(a);
    ReachableInv(a);
  }

  lemma {:induction false} ExampleAccepted(i: Agv, c: Checks)
    requires i.order.None? && i.todo == [] && !i.canceling && !IsActive(i.state)
    requires c.routeTraversable && c.actionsExecutable && !c.charging && !c.emergencyStop && !c.fieldViolation
    requires c.automatic && c.withinDeviation
    ensures Tame(EXAMPLE)
    ensures var e := OrderArrives(EXAMPLE, c); Enabled(i, e) && Proper(i, e) && Step(i, e) == Begin(i, EXAMPLE)
  {
    ExampleTame();
  }

  lemma {:induction false} FirstIsLate(a: Agv)
    requires a.order == Some(EXAMPLE) && "load" in a.running
    requires "load" in a.state.actionStates && a.state.actionStates["load"].Waiting?
    ensures LateLeadsOn(a) && IsActive(a.state)
  {
    BaseLenIs(EXAMPLE.nodes, 2);
    assert Late(a, AtNode(0), 0) && LeadsOn(EXAMPLE, AtNode(0), 0);
  }

  lemma {:induction false} FirstDispatched(i: Agv)
    requires i.order.None? && i.todo == [] && i.running == {} && Tame(EXAMPLE)
    ensures var a := Begin(i, EXAMPLE);
      && a.order == Some(EXAMPLE) && a.todo == [] && a.running == {"load"} && a.canceling == i.canceling
      && "load" in a.state.actionStates && a.state.actionStates["load"].Waiting?
  {
    BeginStartsList(i, EXAMPLE);
    BaseId(EXAMPLE, AtNode(0), 0);
    assert Lists.Open(EXAMPLE.nodes[0].actions, 0) == Lists.Block(0, 1, true) by {
      assert EXAMPLE.nodes[0].actions[0].blockingType.Soft?;
    }
  }
}
