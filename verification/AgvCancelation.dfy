/** Cancelation of an active order: what it guarantees, and exactly when. */
module AgvCancelation {
  import opened Orders
  import opened AgvEngine
  import opened AgvInvariants

  /** Every action the adapter has been asked to execute has reported a first status. */
  predicate AllStarted(a: Agv) {
    forall id :: id in a.running && id in a.state.actionStates ==> !a.state.actionStates[id].Waiting?
  }

  function StopCalls(calls: seq<Call>): nat {
    if calls == [] then 0 else StopCalls(calls[..|calls| - 1]) + (if calls[|calls| - 1].StopTraverse? then 1 else 0)
  }

  /** Calls that start something. */
  predicate Starts(c: Call) {
    c.ExecuteAction? || c.TraverseEdge?
  }

  /** Calls made since there were `n` of them: none starts anything. */
  ghost predicate OnlyStops(calls: seq<Call>, n: nat) {
    n <= |calls| && forall k :: n <= k < |calls| ==> !Starts(calls[k])
  }

  lemma {:induction false} StopCallsAppend(calls: seq<Call>, c: Call)
    ensures StopCalls(calls + [c]) == StopCalls(calls) + (if c.StopTraverse? then 1 else 0)
  {
    assert (calls + [c])[..|calls|] == calls;
  }

  // ---------- While an order is canceled ----------

  /** The ids of all base actions are reported, and those of the leading nodes and edges are all there are. */
  ghost predicate Accounted(o: Order, s: State) {
    && AlignedChain(o) && s.actionStates.Keys == BaseActionIds(o)
  }

  /**
   Since the cancelation, when `n` calls had been made. The actions in `late` were already failed by the controller
   although the adapter is still going to report on them.
   */
  ghost predicate CancelsSince(a: Agv, n: nat, late: set<string>) {
    && a.canceling && a.todo == [] && a.order.Some?
    && Accounted(a.order.value, a.state)
    && a.running == UnendedIds(a.state) + late
    && (forall id :: id in late ==> IsEnded(a.state, id))
    && (forall id :: id in UnendedIds(a.state) ==> !a.state.actionStates[id].Waiting?)
    && OnlyStops(a.calls, n)
  }

  /** The stop has been requested exactly if all actions have ended, and then once. */
  ghost predicate StopsOnce(a: Agv, stops: nat) {
    && a.stopping == (if UnendedIds(a.state) == {} then 1 else 0)
    && StopCalls(a.calls) == stops + a.stopping
    && (a.stopping == 1 ==> a.traversing == multiset{})
  }

  lemma {:induction false} AllEndedIff(o: Order, s: State)
    requires Accounted(o, s)
    ensures AllBaseActionsEnded(s, o) <==> UnendedIds(s) == {}
  {
    AlignedEdgeBase(o);
    if AllBaseActionsEnded(s, o) {
      forall id | id in s.actionStates
        ensures Ended(s.actionStates[id])
      {
        var w, i := OwnerOfId(o, id);
        BaseOwners(o, w);
        match w
        case AtNode(k) => assert AllEnded(s, o.nodes[k].actions) && o.nodes[k].actions[i].actionId == id;
        case OnEdge(k) => assert AllEnded(s, o.edges[k].actions) && o.edges[k].actions[i].actionId == id;
      }
    }
    if UnendedIds(s) == {} {
      forall k | 0 <= k < BaseLen(o.nodes)
        ensures AllEnded(s, o.nodes[k].actions)
      {
        OwnerEnded(o, s, AtNode(k));
      }
      forall k | 0 <= k < EdgeBaseLen(o.edges)
        ensures AllEnded(s, o.edges[k].actions)
      {
        OwnerEnded(o, s, OnEdge(k));
      }
    }
  }

  lemma {:induction false} OwnerEnded(o: Order, s: State, w: Owner)
    requires Accounted(o, s) && UnendedIds(s) == {} && InBase(o, w)
    ensures AllEnded(s, ActionsOf(o, w))
  {
    forall i | 0 <= i < |ActionsOf(o, w)|
      ensures IsEnded(s, ActionsOf(o, w)[i].actionId)
    {
      BaseId(o, w, i);
      assert ActionsOf(o, w)[i].actionId !in UnendedIds(s);
    }
  }

  /** The dispatched actions that have not reported a status yet. */
  function LateIds(a: Agv): set<string> {
    set id | id in a.running && id in a.state.actionStates && a.state.actionStates[id].Waiting?
  }

  /**
   On its way, the vehicle is executing exactly the actions that have started and not ended, and those about to start.
   */
  lemma {:induction false} RunningOnRoute(a: Agv)
    requires Walking(a)
    ensures forall id :: id in a.running ==> id in a.state.actionStates && !Ended(a.state.actionStates[id])
    ensures forall id ::
      id in a.state.actionStates && !Ended(a.state.actionStates[id]) && !a.state.actionStates[id].Waiting? ==>
        id in a.running
  {
    var o := a.order.value;
    forall id | id in a.running
      ensures id in a.state.actionStates && !Ended(a.state.actionStates[id])
    {
      RunningUnended(a, o, id);
    }
    forall id | id in a.state.actionStates && !Ended(a.state.actionStates[id]) && !a.state.actionStates[id].Waiting?
      ensures id in a.running
    {
      var w, i := OwnerOfId(o, id);
      StartedIsRunning(a, o, w, i);
    }
  }

  lemma {:induction false} RunningUnended(a: Agv, o: Order, id: string)
    requires Walking(a) && a.order == Some(o) && id in a.running
    ensures id in a.state.actionStates && !Ended(a.state.actionStates[id])
  {
    var w := a.cursor.owner;
    var acts := ActionsOf(o, w);
    var j: nat :| j < |acts| && j < |a.list.log| && j !in a.list.ended && acts[j].actionId == id;
    assert j !in EndedIndices(a.state, acts);
    assert Id(o, w, j) == id;
    BaseId(o, w, j);
  }

  lemma {:induction false} StartedIsRunning(a: Agv, o: Order, w: Owner, i: nat)
    requires Walking(a) && a.order == Some(o) && IsAction(o, w, i) && InBase(o, w)
    requires Id(o, w, i) in a.state.actionStates && !Ended(a.state.actionStates[Id(o, w, i)])
      && !a.state.actionStates[Id(o, w, i)].Waiting?
    ensures Id(o, w, i) in a.running
  {
    BaseOwners(o, w);
    match a.cursor
    case Processing(v) =>
      assert w == v;
      var acts := ActionsOf(o, w);
      assert i !in EndedIndices(a.state, acts);
      assert acts[i].actionId in a.running;
    case Driving(k) =>
    case Idle => IdleBetween(o, a.state, a.pos);
    case _ =>
  }

  /** The arrival of a cancelation. */
  lemma {:induction false} CancelStarts(a: Agv)
    requires Walking(a) && Enabled(a, CancelArrives)
    ensures var b := Step(a, CancelArrives);
      && CancelsSince(b, |a.calls|, LateIds(a))
      && StopsOnce(b, StopCalls(a.calls))
  {
    RunningOnRoute(a);
    CancelFrom(a);
  }

  lemma {:induction false} CancelFrom(a: Agv)
    requires Enabled(a, CancelArrives) && a.order.Some? && Accounted(a.order.value, a.state) && a.stopping == 0
    requires forall id :: id in a.running ==> id in a.state.actionStates && !Ended(a.state.actionStates[id])
    requires forall id ::
      id in a.state.actionStates && !Ended(a.state.actionStates[id]) && !a.state.actionStates[id].Waiting? ==>
        id in a.running
    ensures var b := Step(a, CancelArrives);
      && CancelsSince(b, |a.calls|, LateIds(a))
      && StopsOnce(b, StopCalls(a.calls))
  {
    FailedStates(a);
    var s := a.state.(actionStates := FailWaiting(a.state.actionStates));
    CancelStep(a, s);
    CancelCalls(a, Step(a, CancelArrives));
  }

  lemma {:induction false} CancelCalls(a: Agv, b: Agv)
    requires if UnendedIds(b.state) == {} then b.calls == a.calls + [StopTraverse]
      else b.calls == a.calls + [CancelActions(UnendedIds(b.state))]
    ensures OnlyStops(b.calls, |a.calls|)
    ensures StopCalls(b.calls) == StopCalls(a.calls) + (if UnendedIds(b.state) == {} then 1 else 0)
  {
    StopCallsAppend(a.calls, StopTraverse);
    StopCallsAppend(a.calls, CancelActions(UnendedIds(b.state)));
  }

  /** What the arrival of a cancelation does. */
  lemma {:induction false} CancelStep(a: Agv, s: State)
    requires Enabled(a, CancelArrives) && s == a.state.(actionStates := FailWaiting(a.state.actionStates))
    ensures var b := Step(a, CancelArrives);
      && b.canceling && b.state == s && b.order == a.order && b.running == a.running && b.todo == []
      && (if UnendedIds(s) == {} then
            b.calls == a.calls + [StopTraverse] && b.stopping == a.stopping + 1 && b.traversing == multiset{}
          else
            b.calls == a.calls + [CancelActions(UnendedIds(s))] && b.stopping == a.stopping)
  {
  }

  /** Failing the waiting actions leaves those under way, apart from the late ones. */
  lemma {:induction false} FailedStates(a: Agv)
    requires forall id :: id in a.running ==> id in a.state.actionStates && !Ended(a.state.actionStates[id])
    requires forall id ::
      id in a.state.actionStates && !Ended(a.state.actionStates[id]) && !a.state.actionStates[id].Waiting? ==>
        id in a.running
    ensures var s := a.state.(actionStates := FailWaiting(a.state.actionStates));
      && s.actionStates.Keys == a.state.actionStates.Keys
      && a.running == UnendedIds(s) + LateIds(a)
      && (forall id :: id in LateIds(a) ==> IsEnded(s, id))
      && (forall id :: id in UnendedIds(s) ==> !s.actionStates[id].Waiting?)
  {
    var s := a.state.(actionStates := FailWaiting(a.state.actionStates));
    assert s.actionStates.Keys == a.state.actionStates.Keys;
    forall id | id in a.state.actionStates
      ensures id in UnendedIds(s) <==> id in a.running && id !in LateIds(a)
    {
    }
  }

  /** Of the reported actions those that have started and not ended. */
  ghost predicate IsUnderWay(s: State, id: string) {
    id in s.actionStates && !Ended(s.actionStates[id]) && !s.actionStates[id].Waiting?
  }

  /**
   The arrival of a cancelation reports exactly the waiting actions as FAILED, and makes one call: to cancel exactly the
   actions that have started and not ended, or to stop if there are none.
   */
  lemma {:induction false} CancelRequests(a: Agv)
    requires Enabled(a, CancelArrives)
    ensures var b := Step(a, CancelArrives);
      && b.state.actionStates.Keys == a.state.actionStates.Keys
      && (forall id :: id in a.state.actionStates ==>
            b.state.actionStates[id] == if a.state.actionStates[id].Waiting? then Failed else a.state.actionStates[id])
      && |b.sent| == |a.sent| + 1 && b.sent[|a.sent|].state == b.state
      && |b.calls| == |a.calls| + 1 && a.calls <= b.calls
      && var c := b.calls[|a.calls|];
      if exists id :: IsUnderWay(a.state, id) then
        c.CancelActions? && forall id :: id in c.actionIds <==> IsUnderWay(a.state, id)
      else c.StopTraverse?
  {
    var s := a.state.(actionStates := FailWaiting(a.state.actionStates));
    CancelStep(a, s);
    forall id
      ensures id in UnendedIds(s) <==> IsUnderWay(a.state, id)
    {
    }
  }

  // ---------- Every step until the vehicle has stopped ----------

  lemma {:induction false} OrderRefused(a: Agv, o: Order, c: Checks)
    requires a.canceling
    ensures Decide(a, o, c).Reject?
  {
  }

  /** The report on an action while an order is canceled. */
  lemma {:induction false} CancelUpdate(a: Agv, n: nat, stops: nat, late: set<string>, w: Owner, i: nat, status: Status)
    requires CancelsSince(a, n, late) && Enabled(a, ActionUpdate(w, i, status))
    requires Id(a.order.value, w, i) in UnendedIds(a.state) && Id(a.order.value, w, i) !in late
    ensures var b := Step(a, ActionUpdate(w, i, status));
      && CancelsSince(b, n, late)
      && UnendedIds(b.state)
           == (if Ended(status) then UnendedIds(a.state) - {Id(a.order.value, w, i)} else UnendedIds(a.state))
      && (StopsOnce(a, stops) ==> StopsOnce(b, stops))
  {
    var id := Id(a.order.value, w, i);
    UpdateStep(a, w, i, status);
    var b := Publish(a.(state := SetStatus(a.state, id, status)));
    var c := if Ended(status) then b.(running := b.running - {id}) else b;
    ReportKeeps(a, c, n, late, id, status);
    if Ended(status) {
      StopKeeps(c, n, late);
    }
    StopCallsAppend(a.calls, StopTraverse);
  }

  /** Once all actions have ended the stop is requested. */
  lemma {:induction false} StopKeeps(c: Agv, n: nat, late: set<string>)
    requires CancelsSince(c, n, late)
    ensures AllBaseActionsEnded(c.state, c.order.value) <==> UnendedIds(c.state) == {}
    ensures CancelsSince(OnActionsCanceled(c), n, late)
  {
    AllEndedIff(c.order.value, c.state);
  }

  /** Before it leads to anything, the report only changes the status and, if final, what is under way. */
  lemma {:induction false} ReportKeeps(a: Agv, c: Agv, n: nat, late: set<string>, id: string, status: Status)
    requires CancelsSince(a, n, late) && id in UnendedIds(a.state) && id !in late && !status.Waiting?
    requires c == a.(state := SetStatus(a.state, id, status),
                     running := if Ended(status) then a.running - {id} else a.running, sent := c.sent)
    ensures CancelsSince(c, n, late)
    ensures UnendedIds(c.state) == if Ended(status) then UnendedIds(a.state) - {id} else UnendedIds(a.state)
  {
    UnendedAfter(a.state, id, status);
  }

  /** The report on an action, and the stop it may lead to. */
  lemma {:induction false} UpdateStep(a: Agv, w: Owner, i: nat, status: Status)
    requires a.canceling && Enabled(a, ActionUpdate(w, i, status))
    ensures var id := Id(a.order.value, w, i);
      var b := Publish(a.(state := SetStatus(a.state, id, status)));
      Step(a, ActionUpdate(w, i, status)) ==
        if !Ended(status) then b
        else if AllBaseActionsEnded(b.state, b.order.value) then OnActionsCanceled(b.(running := b.running - {id}))
        else b.(running := b.running - {id})
  {
  }

  lemma {:induction false} UnendedAfter(s: State, id: string, status: Status)
    requires id in UnendedIds(s)
    ensures SetStatus(s, id, status).actionStates.Keys == s.actionStates.Keys
    ensures UnendedIds(SetStatus(s, id, status)) == if Ended(status) then UnendedIds(s) - {id} else UnendedIds(s)
  {
  }

  /** Without late actions, every step until the vehicle has stopped keeps the protocol, and stopping ends it. */
  lemma {:induction false} CancelKeeps(a: Agv, n: nat, stops: nat, e: Event)
    requires CancelsSince(a, n, {}) && StopsOnce(a, stops) && Enabled(a, e)
    ensures !e.Stopped? ==> CancelsSince(Step(a, e), n, {}) && StopsOnce(Step(a, e), stops)
    ensures e.Stopped? ==> OnlyStops(Step(a, e).calls, n) && StopCalls(Step(a, e).calls) == stops + 1
                           && AtRest(Step(a, e))
  {
    match e
    case OrderArrives(o, c) => OrderRefused(a, o, c);
    case ActionUpdate(w, i, status) => CancelUpdate(a, n, stops, {}, w, i, status);
    case EdgeTraversed(k) => assert a.traversing != multiset{};
    case Stopped => assert forall id :: id in a.state.actionStates ==> id !in UnendedIds(a.state);
    case _ =>
  }

  // ---------- Runs of a cancelation ----------

  /** The vehicle after any events that can happen one after the other, before it has stopped. */
  ghost function Meanwhile(a: Agv, events: seq<Event>): Option<Agv> {
    if events == [] then Some(a)
    else
      var before := Meanwhile(a, events[..|events| - 1]);
      var e := events[|events| - 1];
      if before.Some? && Enabled(before.value, e) && !e.Stopped? then Some(Step(before.value, e)) else None
  }

  lemma {:induction false} MeanwhileKeeps(a: Agv, n: nat, stops: nat, events: seq<Event>)
    requires CancelsSince(a, n, {}) && StopsOnce(a, stops) && Meanwhile(a, events).Some?
    ensures CancelsSince(Meanwhile(a, events).value, n, {}) && StopsOnce(Meanwhile(a, events).value, stops)
  {
    if events != [] {
      var before, e := events[..|events| - 1], events[|events| - 1];
      MeanwhileKeeps(a, n, stops, before);
      CancelKeeps(Meanwhile(a, before).value, n, stops, e);
    }
  }

  /**
   From the arrival of a cancelation until the vehicle has stopped no order is accepted and nothing is started; the
   vehicle is told to stop once all actions have ended, and once only.
   */
  lemma {:induction false} CancelProtocol(a: Agv, events: seq<Event>)
    requires Walking(a) && Enabled(a, CancelArrives) && AllStarted(a)
    requires Meanwhile(Step(a, CancelArrives), events).Some?
    ensures var b := Meanwhile(Step(a, CancelArrives), events).value;
      && OnlyStops(b.calls, |a.calls|)
      && StopCalls(b.calls) == StopCalls(a.calls) + (if UnendedIds(b.state) == {} then 1 else 0)
      && (forall o, c :: Decide(b, o, c).Reject?)
      && (Enabled(b, Stopped) <==> UnendedIds(b.state) == {})
      && (Enabled(b, Stopped) ==> AtRest(Step(b, Stopped)) && OnlyStops(Step(b, Stopped).calls, |a.calls|))
  {
    CancelStarts(a);
    assert LateIds(a) == {};
    MeanwhileKeeps(Step(a, CancelArrives), |a.calls|, StopCalls(a.calls), events);
    CancelStatus(Meanwhile(Step(a, CancelArrives), events).value, |a.calls|, StopCalls(a.calls));
  }

  /** An action that waited when the cancelation arrived is reported as FAILED until the vehicle stands. */
  lemma {:induction false} WaitingStaysFailed(a: Agv, events: seq<Event>, id: string)
    requires Walking(a) && Enabled(a, CancelArrives) && AllStarted(a)
    requires Meanwhile(Step(a, CancelArrives), events).Some?
    requires id in a.state.actionStates && a.state.actionStates[id].Waiting?
    ensures var s := Meanwhile(Step(a, CancelArrives), events).value.state;
      id in s.actionStates && s.actionStates[id].Failed?
  {
    CancelStarts(a);
    assert LateIds(a) == {};
    CancelRequests(a);
    FailedStays(Step(a, CancelArrives), |a.calls|, StopCalls(a.calls), events, id);
  }

  lemma {:induction false} FailedStays(a: Agv, n: nat, stops: nat, events: seq<Event>, id: string)
    requires CancelsSince(a, n, {}) && StopsOnce(a, stops) && Meanwhile(a, events).Some?
    requires id in a.state.actionStates && a.state.actionStates[id].Failed?
    ensures var s := Meanwhile(a, events).value.state; id in s.actionStates && s.actionStates[id].Failed?
  {
    if events != [] {
      var before, e := events[..|events| - 1], events[|events| - 1];
      MeanwhileKeeps(a, n, stops, before);
      FailedStays(a, n, stops, before, id);
      FailedStep(Meanwhile(a, before).value, n, e, id);
    }
  }

  lemma {:induction false} FailedStep(a: Agv, n: nat, e: Event, id: string)
    requires CancelsSince(a, n, {}) && Enabled(a, e) && !e.Stopped?
    requires id in a.state.actionStates && a.state.actionStates[id].Failed?
    ensures var s := Step(a, e).state; id in s.actionStates && s.actionStates[id].Failed?
  {
    match e
    case OrderArrives(o, c) => OrderRefused(a, o, c);
    case ActionUpdate(w, i, status) => UpdateStep(a, w, i, status);
    case EdgeTraversed(k) => assert Step(a, e).state == a.state;
    case _ =>
  }

  /**
   While the vehicle drives on to the node where it can stop, that node and no other is reported, so that the order
   stays active.
   */
  lemma {:induction false} StoppingKeepsNode(a: Agv, o: Order, pos: nat, k: nat)
    requires a.order == Some(o) && Chain(o) && pos < k < |o.nodes| && Enabled(a, DrivingToNextNode(k))
    requires a.state.nodeStates == NodeStates(o.nodes[pos + 1..])
    ensures var s := Step(a, DrivingToNextNode(k)).state;
      && s.nodeStates == [NodeState(o.nodes[k].nodeId, o.nodes[k].sequenceId, o.nodes[k].released)]
           && s.edgeStates == []
      && IsActive(s) && s.actionStates == a.state.actionStates
  {
    KeepsOne(o, pos + 1, k);
  }

  lemma {:induction false} KeepsNone(states: seq<NodeState>, node: Node)
    requires forall i :: 0 <= i < |states| ==> states[i].sequenceId != node.sequenceId
    ensures KeepNodeState(states, node) == []
  {
    if states != [] {
      KeepsNone(states[1..], node);
    }
  }

  lemma {:induction false} KeepsOne(o: Order, from: nat, k: nat)
    requires Chain(o) && from <= k < |o.nodes|
    ensures KeepNodeState(NodeStates(o.nodes[from..]), o.nodes[k])
         == [NodeState(o.nodes[k].nodeId, o.nodes[k].sequenceId, o.nodes[k].released)]
    decreases k - from
  {
    var states, rest := NodeStates(o.nodes[from..]), NodeStates(o.nodes[from + 1..]);
    assert states[1..] == rest;
    if from < k {
      KeepsOne(o, from + 1, k);
      assert states[0].sequenceId == o.nodes[from].sequenceId;
    } else {
      forall i | 0 <= i < |rest|
        ensures rest[i].sequenceId != o.nodes[k].sequenceId
      {
        assert rest[i].sequenceId == o.nodes[k + 1 + i].sequenceId;
      }
      KeepsNone(rest, o.nodes[k]);
    }
  }

  lemma {:induction false} CancelStatus(b: Agv, n: nat, stops: nat)
    requires CancelsSince(b, n, {}) && StopsOnce(b, stops)
    ensures OnlyStops(b.calls, n)
    ensures StopCalls(b.calls) == stops + (if UnendedIds(b.state) == {} then 1 else 0)
    ensures forall o, c :: Decide(b, o, c).Reject?
    ensures Enabled(b, Stopped) <==> UnendedIds(b.state) == {}
    ensures Enabled(b, Stopped) ==> AtRest(Step(b, Stopped)) && OnlyStops(Step(b, Stopped).calls, n)
  {
    forall o, c
      ensures Decide(b, o, c).Reject?
    {
      OrderRefused(b, o, c);
    }
    if Enabled(b, Stopped) {
      CancelKeeps(b, n, stops, Stopped);
    }
  }

  // ---------- An action that has not reported yet ----------

  lemma {:induction false} MeanwhileThen(a: Agv, events: seq<Event>, e: Event)
    requires Meanwhile(a, events).Some? && Enabled(Meanwhile(a, events).value, e) && !e.Stopped?
    ensures Meanwhile(a, events + [e]) == Some(Step(Meanwhile(a, events).value, e))
  {
    assert (events + [e])[..|events|] == events;
  }

  /** The actions under way can end one after the other. */
  lemma {:induction false} EndAll(a: Agv, events: seq<Event>, b: Agv, n: nat, stops: nat, late: set<string>)
    returns (all: seq<Event>, c: Agv)
    requires Meanwhile(a, events) == Some(b) && CancelsSince(b, n, late) && StopsOnce(b, stops)
    ensures Meanwhile(a, all) == Some(c) && CancelsSince(c, n, late) && StopsOnce(c, stops) && UnendedIds(c.state) == {}
    decreases UnendedIds(b.state)
  {
    if UnendedIds(b.state) == {} {
      all, c := events, b;
    } else {
      var id :| id in UnendedIds(b.state);
      var w, i := OwnerOfId(b.order.value, id);
      var e := ActionUpdate(w, i, Finished);
      CancelUpdate(b, n, stops, late, w, i, Finished);
      MeanwhileThen(a, events, e);
      all, c := EndAll(a, events + [e], Step(b, e), n, stops, late);
    }
  }

  /** A late report on an action already failed makes the controller request the stop once more. */
  lemma {:induction false} LateReport(b: Agv, n: nat, stops: nat, late: set<string>, id: string) returns (e: Event)
    requires CancelsSince(b, n, late) && StopsOnce(b, stops) && UnendedIds(b.state) == {} && id in late
    ensures Enabled(b, e) && !e.Stopped? && StopCalls(Step(b, e).calls) == stops + 2
  {
    var w, i := OwnerOfId(b.order.value, id);
    e := ActionUpdate(w, i, Finished);
    var s' := SetStatus(b.state, id, Finished);
    assert s'.actionStates.Keys == b.state.actionStates.Keys;
    assert UnendedIds(s') == {};
    AllEndedIff(b.order.value, s');
    StopCallsAppend(b.calls, StopTraverse);
  }

  /**
   The stop is requested at most once in every continuation exactly if all dispatched actions had reported when the
   cancelation arrived.
   */
  lemma {:induction false} StopsOnceIffAllStarted(a: Agv)
    requires Walking(a) && Enabled(a, CancelArrives)
    ensures AllStarted(a) <==>
      forall events :: Meanwhile(Step(a, CancelArrives), events).Some? ==>
        StopCalls(Meanwhile(Step(a, CancelArrives), events).value.calls) <= StopCalls(a.calls) + 1
  {
    var b := Step(a, CancelArrives);
    if AllStarted(a) {
      forall events | Meanwhile(b, events).Some?
        ensures StopCalls(Meanwhile(b, events).value.calls) <= StopCalls(a.calls) + 1
      {
        CancelProtocol(a, events);
      }
    } else {
      var events := StopsTwice(a);
      assert Meanwhile(b, events).Some?;
    }
  }

  lemma {:induction false} StopsTwice(a: Agv) returns (events: seq<Event>)
    requires Walking(a) && Enabled(a, CancelArrives) && !AllStarted(a)
    ensures Meanwhile(Step(a, CancelArrives), events).Some?
    ensures StopCalls(Meanwhile(Step(a, CancelArrives), events).value.calls) == StopCalls(a.calls) + 2
  {
    CancelStarts(a);
    var b := Step(a, CancelArrives);
    var id :| id in a.running && id in a.state.actionStates && a.state.actionStates[id].Waiting?;
    assert Meanwhile(b, []) == Some(b);
    var all, c := EndAll(b, [], b, |a.calls|, StopCalls(a.calls), LateIds(a));
    var e := LateReport(c, |a.calls|, StopCalls(a.calls), LateIds(a), id);
    MeanwhileThen(b, all, e);
    events := all + [e];
  }
}
