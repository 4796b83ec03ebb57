/**
 The order engine of the AGV controller in its imperative form. Every method carries out one step of the
 machine in `AgvEngine`, dispatch loops included, for an adapter that reports back after its calls have returned.
 */
module AgvControllers {
  import opened Orders
  import opened AgvEngine
  import AgvInvariants
  import opened AgvRuns
  import Lists = ActionLists
  import opened ListControllers

  // ---------- Dispatch loops run to their end ----------

  predicate Settleable(a: Agv) {
    && |a.todo| <= 1
    && (a.todo != [] ==>
        && a.order.Some? && InOrder(a.order.value, a.todo[0].owner)
        && a.todo[0].loop.next < a.todo[0].loop.stop <= |ActionsOf(a.order.value, a.todo[0].owner)|)
  }

  function LeftToDispatch(a: Agv): int {
    if a.todo == [] then 0 else a.todo[0].loop.stop - a.todo[0].loop.next
  }

  /** The call of the only pending dispatch loop returns. */
  function Return(a: Agv): (b: Agv)
    requires Settleable(a) && a.todo != []
    ensures Settleable(b) && LeftToDispatch(b) < LeftToDispatch(a)
  {
    Iterate(a.(todo := [], list := Lists.Iterate(a.list.(stack := []), a.todo[0].loop)), a.todo[0])
  }

  lemma {:induction false} ReturnIsStep(a: Agv)
    requires Settleable(a) && a.todo != []
    ensures Enabled(a, CallReturns) && Return(a) == Step(a, CallReturns)
  {
    assert a.todo[..|a.todo| - 1] == [];
  }

  /** All calls of the pending dispatch loop return, one after the other. */
  function Settle(a: Agv): (b: Agv)
    requires Settleable(a)
    ensures b.todo == []
    decreases LeftToDispatch(a)
  {
    if a.todo == [] then a else Settle(Return(a))
  }

  lemma {:induction false} WorkSettles(a: Agv, w: Owner, work: Lists.Work)
    requires a.todo == [] && a.order.Some? && InOrder(a.order.value, w) && Lists.Fits(ActionsOf(a.order.value, w), work)
    ensures Settleable(Perform(a, w, work))
    ensures Perform(a, w, work).state == a.state
    decreases if w.AtNode? then 3 else 1
  {
    if work.Proceed? && w.AtNode? {
      EdgeSettles(a.(list := Lists.Perform(a.list, work)), w.index);
    }
  }

  lemma {:induction false} EdgeSettles(a: Agv, k: nat)
    requires a.todo == [] && a.order.Some? && k < |a.order.value.nodes|
    ensures Settleable(ProcessEdge(a, k))
    ensures ProcessEdge(a, k).state == a.state
    decreases 2
  {
    var o := a.order.value;
    var e := TrailingEdge(o.edges, o.nodes[k]);
    if e.Some? && o.edges[e.value].released {
      var w := OnEdge(e.value);
      WorkSettles(a.(cursor := Processing(w), list := Lists.Run([], {}, [], 0)), w, Lists.Open(ActionsOf(o, w), 0));
    }
  }

  /** The vehicle after it has taken over an order, before its first node is reached. */
  function TakenOver(a: Agv, o: Order): Agv {
    Publish(a.(order := Some(o), state := StateOf(o, a.state), pos := -1, cursor := Idle,
               current := |a.decided|, decided := a.decided + [o]))
  }

  /** Every message and callback leaves at most one dispatch loop, which can go on. */
  lemma {:induction false} StepSettles(a: Agv, e: Event)
    requires a.todo == [] && Enabled(a, e)
    ensures Settleable(Step(a, e))
  {
    match e
    case OrderArrives(o, c) =>
      match Decide(a, o, c) {
        case AcceptNew => NodeSettles(TakenOver(a, o), 0, None);
        case AcceptUpdate => NodeSettles(TakenOver(a, o), 0, None);
        case AcceptStitch => EdgeSettles(AgvInvariants.Extended(a, o), BaseLen(a.order.value.nodes) - 1);
        case _ =>
      }
    case ActionUpdate(w, i, status) =>
      if Ended(status) && !a.canceling {
        var acts := ActionsOf(a.order.value, w);
        var a1 := Publish(a.(state := AgvInvariants.SetStatus(a.state, Id(a.order.value, w, i), status)));
        WorkSettles(a1.(running := a1.running - {acts[i].actionId}, list := a1.list.(ended := a1.list.ended + {i})), w,
                    Lists.Reaction(acts, EndedIndices(a1.state, acts), i));
      }
    case EdgeTraversed(k) =>
      if !a.canceling {
        NodeSettles(a.(traversing := a.traversing - multiset{k}),
                    EndNode(a.order.value.nodes, a.order.value.edges[k]).value, Some(k));
      }
    case _ =>
  }

  lemma {:induction false} NodeSettles(a: Agv, k: nat, traversed: Option<nat>)
    requires a.todo == [] && a.order.Some? && k < |a.order.value.nodes|
    requires traversed.Some? ==> traversed.value < |a.order.value.edges|
    ensures Settleable(ProcessNode(a, k, traversed))
  {
    if a.order.value.nodes[k].released {
      var b := AtNewNode(a, k, traversed);
      WorkSettles(b, AtNode(k), Lists.Open(a.order.value.nodes[k].actions, 0));
    }
  }

  /** Node `k` is reported as reached and its list is about to start. */
  function AtNewNode(a: Agv, k: nat, traversed: Option<nat>): Agv
    requires a.order.Some? && k < |a.order.value.nodes|
    requires traversed.Some? ==> traversed.value < |a.order.value.edges|
  {
    var o, node := a.order.value, a.order.value.nodes[k];
    var a1 := if traversed.None? then a else
      a.(calls := a.calls + FinishCalls(a.state, o, traversed.value),
         state := a.state.(edgeStates := DropEdgeState(a.state.edgeStates, o.edges[traversed.value])));
    Publish(a1.(
      state := a1.state.(nodeStates := DropNodeState(a1.state.nodeStates, node), lastNodeId := node.nodeId,
                         lastNodeSequenceId := node.sequenceId),
      pos := k)).(cursor := Processing(AtNode(k)), list := Lists.Run([], {}, [], 0))
  }

  /** What is left of a dispatch loop once action `i` has been dispatched. */
  function Dispatched(a: Agv, w: Owner, i: nat, stop: nat, stopDriving: bool): Agv
    requires a.order.Some? && IsAction(a.order.value, w, i)
  {
    var next := Iterate(a, Pending(w, Lists.Loop(i, stop, stopDriving)));
    if i + 1 < stop then
      next.(todo := [], list := Lists.Iterate(next.list.(stack := []), Lists.Loop(i + 1, stop, stopDriving))) else next
  }

  /** The vehicle when actions `i..stop` have been dispatched one after the other. */
  function BlockDispatched(a: Agv, w: Owner, i: nat, stop: nat, stopDriving: bool): (b: Agv)
    requires a.todo == [] && a.order.Some? && InOrder(a.order.value, w) && i <= stop <= |ActionsOf(a.order.value, w)|
    decreases stop - i
  {
    if i == stop then a else BlockDispatched(Dispatched(a, w, i, stop, stopDriving), w, i + 1, stop, stopDriving)
  }

  lemma {:induction false} BlockSettles(a: Agv, w: Owner, i: nat, stop: nat, stopDriving: bool)
    requires a.todo == [] && a.order.Some? && InOrder(a.order.value, w) && i < stop <= |ActionsOf(a.order.value, w)|
    ensures Settleable(Iterate(a, Pending(w, Lists.Loop(i, stop, stopDriving))))
    ensures Settle(Iterate(a, Pending(w, Lists.Loop(i, stop, stopDriving))))
      == BlockDispatched(a, w, i, stop, stopDriving)
    decreases stop - i
  {
    var next := Iterate(a, Pending(w, Lists.Loop(i, stop, stopDriving)));
    if i + 1 < stop {
      assert next.todo == [Pending(w, Lists.Loop(i + 1, stop, stopDriving))];
      BlockSettles(Dispatched(a, w, i, stop, stopDriving), w, i + 1, stop, stopDriving);
    }
  }

  /** What a method of the controller does is a run of the engine, so that its state is one the engine reaches. */
  lemma {:induction false} SettledStepReachable(a: Agv, e: Event)
    requires Reachable(a) && a.todo == [] && Enabled(a, e) && Proper(a, e)
    ensures Settleable(Step(a, e)) && Reachable(Settle(Step(a, e)))
  {
    StepSettles(a, e);
    ReachableThen(a, e);
    SettleReachable(Step(a, e));
  }

  lemma {:induction false} SettleReachable(a: Agv)
    requires Settleable(a) && Reachable(a)
    ensures Reachable(Settle(a))
    decreases LeftToDispatch(a)
  {
    if a.todo != [] {
      ReturnIsStep(a);
      ReachableThen(a, CallReturns);
      SettleReachable(Return(a));
    }
  }

  class AgvController {
    var currentOrder: Option<Order>
    var currentState: State
    var hasCancelingOrder: bool
    var published: seq<State>

    // the adapter: calls made to it, actions and edges it is to report on, and stops it is to confirm
    var calls: seq<Call>
    var running: set<string>
    var traversing: multiset<nat>
    var stopping: nat

    /** The engine this object is in the state of. */
    ghost var agv: Agv

    ghost predicate At(a: Agv)
      reads this
    {
      && a.order == currentOrder && a.state == currentState && a.canceling == hasCancelingOrder
      && a.calls == calls && a.running == running && a.traversing == traversing && a.stopping == stopping
      && |a.sent| == |published| && forall i :: 0 <= i < |published| ==> published[i] == a.sent[i].state
    }

    ghost predicate Valid()
      reads this
    {
      At(agv) && agv.todo == []
    }

    constructor (lastNodeId: string)
      ensures Valid() && agv == Initial(lastNodeId)
    {
      currentOrder, currentState, hasCancelingOrder := None, State("", 0, [], [], map[], lastNodeId, 0, []), false;
      published := [State("", 0, [], [], map[], lastNodeId, 0, [])];
      calls, running, traversing, stopping := [], {}, multiset{}, 0;
      agv := Initial(lastNodeId);
    }

    method PublishState()
      requires Valid()
      modifies this
      ensures Valid() && agv == Publish(old(agv))
    {
      published := published + [currentState];
      agv := Publish(agv);
    }

    // ---------- Lists of actions, nodes and edges ----------

    /** Starts the part of the list of `w` that begins at `from`. */
    method ProcessActions(w: Owner, from: nat)
      requires Valid() && currentOrder.Some? && InOrder(currentOrder.value, w)
        && from <= |ActionsOf(currentOrder.value, w)|
      modifies this
      ensures Settleable(Perform(old(agv), w, Lists.Open(ActionsOf(old(currentOrder).value, w), from)))
      ensures Valid() && agv == Settle(Perform(old(agv), w, Lists.Open(ActionsOf(old(currentOrder).value, w), from)))
      decreases if w.AtNode? then 3 else 1
    {
      var actions := ActionsOf(currentOrder.value, w);
      WorkSettles(agv, w, Lists.Open(actions, from));
      var hardIndex := FindHard(actions, from);
      var softIndex := FindSoft(actions, from);
      var stopIndex := if hardIndex == -1 then |actions| else hardIndex;
      var stopDriving := softIndex != -1 && softIndex < stopIndex;
      assert stopDriving == Lists.HasSoft(actions, from, stopIndex);
      if stopIndex == from {
        if hardIndex == -1 {
          LeaveList(w);
        } else {
          agv := agv.(list := Lists.Perform(agv.list, Lists.Single(stopIndex)));
          ProcessBlock(w, stopIndex, stopIndex + 1, true);
        }
      } else {
        agv := agv.(list := Lists.Perform(agv.list, Lists.Block(from, stopIndex, stopDriving)));
        ProcessBlock(w, from, stopIndex, stopDriving);
      }
    }

    /** One call of executeAction, out of a loop that goes up to `stop`. */
    method ProcessAction(w: Owner, i: nat, ghost stop: nat, stopDriving: bool)
      requires Valid() && currentOrder.Some? && InOrder(currentOrder.value, w)
      requires i < stop <= |ActionsOf(currentOrder.value, w)|
      modifies this
      ensures Valid() && currentOrder == old(currentOrder)
      ensures agv == Dispatched(old(agv), w, i, stop, stopDriving)
    {
      calls := calls + [ExecuteAction(w, i, stopDriving)];
      running := running + {ActionsOf(currentOrder.value, w)[i].actionId};
      agv := Dispatched(agv, w, i, stop, stopDriving);
    }

    /** Dispatches actions one after the other, without waiting for their ends. */
    method ProcessBlock(w: Owner, from: nat, stop: nat, stopDriving: bool)
      requires Valid() && currentOrder.Some? && InOrder(currentOrder.value, w)
      requires from < stop <= |ActionsOf(currentOrder.value, w)|
      modifies this
      ensures Settleable(Iterate(old(agv), Pending(w, Lists.Loop(from, stop, stopDriving))))
      ensures Valid() && agv == Settle(Iterate(old(agv), Pending(w, Lists.Loop(from, stop, stopDriving))))
    {
      BlockSettles(agv, w, from, stop, stopDriving);
      ghost var goal := BlockDispatched(agv, w, from, stop, stopDriving);
      var i := from;
      while i < stop
        invariant from <= i <= stop
        invariant Valid() && currentOrder == old(currentOrder)
        invariant goal == BlockDispatched(agv, w, i, stop, stopDriving)
      {
        ProcessAction(w, i, stop, stopDriving);
        i := i + 1;
      }
    }

    /** All actions of the list that matter have ended. */
    method LeaveList(w: Owner)
      requires Valid() && currentOrder.Some? && InOrder(currentOrder.value, w)
      modifies this
      ensures Settleable(Perform(old(agv), w, Lists.Proceed))
      ensures Valid() && agv == Settle(Perform(old(agv), w, Lists.Proceed))
      decreases if w.AtNode? then 3 else 1, 0
    {
      WorkSettles(agv, w, Lists.Proceed);
      agv := agv.(list := Lists.Perform(agv.list, Lists.Proceed));
      match w
      case AtNode(k) => ProcessNextEdge(k);
      case OnEdge(k) => StartTraversal(k);
    }

    method ProcessNextEdge(k: nat)
      requires Valid() && currentOrder.Some? && k < |currentOrder.value.nodes|
      modifies this
      ensures Settleable(ProcessEdge(old(agv), k))
      ensures Valid() && agv == Settle(ProcessEdge(old(agv), k))
      decreases 2
    {
      EdgeSettles(agv, k);
      var o := currentOrder.value;
      var e := TrailingEdge(o.edges, o.nodes[k]);
      if e.None? || !o.edges[e.value].released {
        agv := agv.(cursor := Idle);
      } else {
        agv := agv.(cursor := Processing(OnEdge(e.value)), list := Lists.Run([], {}, [], 0));
        ProcessActions(OnEdge(e.value), 0);
      }
    }

    method StartTraversal(k: nat)
      requires Valid()
      modifies this
      ensures Valid() && currentOrder == old(currentOrder)
      ensures agv == old(agv.(calls := agv.calls + [TraverseEdge(k)], traversing := agv.traversing + multiset{k},
                              cursor := Driving(k)))
    {
      calls := calls + [TraverseEdge(k)];
      traversing := traversing + multiset{k};
      agv := agv.(calls := calls, traversing := traversing, cursor := Driving(k));
    }

    // ---------- Nodes ----------

    /** Calls for the actions of an edge that go on although its end node is reached. */
    method FinishEdgeActions(e: nat)
      requires Valid() && currentOrder.Some? && e < |currentOrder.value.edges|
      modifies this
      ensures Valid() && currentOrder == old(currentOrder) && currentState == old(currentState)
        && hasCancelingOrder == old(hasCancelingOrder)
      ensures agv == old(agv.(calls := agv.calls + FinishCalls(agv.state, currentOrder.value, e)))
    {
      var actions := currentOrder.value.edges[e].actions;
      ghost var all := calls + FinishCalls(currentState, currentOrder.value, e);
      var i := 0;
      while i < |actions|
        invariant 0 <= i <= |actions|
        invariant At(agv.(calls := calls)) && agv == old(agv)
        invariant currentOrder == old(currentOrder) && currentState == old(currentState)
        invariant calls + FinishCalls(currentState, currentOrder.value, e, i) == all
      {
        if !IsEnded(currentState, actions[i].actionId) {
          calls := calls + [FinishEdgeAction(e, i)];
        }
        i := i + 1;
      }
      agv := agv.(calls := calls);
    }

    /** Node `k` is reached, by way of edge `traversed` unless it is the first one. */
    method ArriveAtNode(k: nat, traversed: Option<nat>)
      requires Valid() && currentOrder.Some? && k < |currentOrder.value.nodes|
      requires traversed.Some? ==> traversed.value < |currentOrder.value.edges|
      modifies this
      ensures Settleable(ProcessNode(old(agv), k, traversed))
      ensures Valid() && agv == Settle(ProcessNode(old(agv), k, traversed))
    {
      NodeSettles(agv, k, traversed);
      var o, node := currentOrder.value, currentOrder.value.nodes[k];
      if !node.released {
        return;
      }
      var edgeStates := currentState.edgeStates;
      if traversed.Some? {
        FinishEdgeActions(traversed.value);
        edgeStates := DropEdgeState(edgeStates, o.edges[traversed.value]);
      }
      currentState := currentState.(nodeStates := DropNodeState(currentState.nodeStates, node),
                                    edgeStates := edgeStates,
                                    lastNodeId := node.nodeId, lastNodeSequenceId := node.sequenceId);
      agv := agv.(state := currentState, pos := k);
      PublishState();
      agv := agv.(cursor := Processing(AtNode(k)), list := Lists.Run([], {}, [], 0));
      ProcessActions(AtNode(k), 0);
    }

    /** Callback of traverseEdge. */
    method UpdateEdgeTraversed(k: nat)
      requires Valid() && Enabled(agv, EdgeTraversed(k))
      modifies this
      ensures Settleable(Step(old(agv), EdgeTraversed(k)))
      ensures Valid() && agv == Settle(Step(old(agv), EdgeTraversed(k)))
    {
      StepSettles(agv, EdgeTraversed(k));
      traversing := traversing - multiset{k};
      agv := agv.(traversing := traversing);
      if hasCancelingOrder {
        return;
      }
      ArriveAtNode(EndNode(currentOrder.value.nodes, currentOrder.value.edges[k]).value, Some(k));
    }

    // ---------- Status of actions ----------

    /** Callback of executeAction, finishEdgeAction and cancelAction. */
    method UpdateActionStatus(w: Owner, i: nat, status: Status)
      requires Valid() && Enabled(agv, ActionUpdate(w, i, status))
      modifies this
      ensures Settleable(Step(old(agv), ActionUpdate(w, i, status)))
      ensures Valid() && agv == Settle(Step(old(agv), ActionUpdate(w, i, status)))
    {
      StepSettles(agv, ActionUpdate(w, i, status));
      var actions := ActionsOf(currentOrder.value, w);
      var action := actions[i];
      currentState := currentState.(actionStates := currentState.actionStates[action.actionId := status]);
      agv := agv.(state := currentState);
      PublishState();
      if Ended(status) {
        ContinueAfter(w, i);
      }
    }

    /** What the end of an action triggers. */
    method ContinueAfter(w: Owner, i: nat)
      requires Valid() && currentOrder.Some? && IsAction(currentOrder.value, w, i)
      modifies this
      ensures Settleable(AfterEnd(old(agv), w, i))
      ensures Valid() && agv == Settle(AfterEnd(old(agv), w, i))
    {
      var actions := ActionsOf(currentOrder.value, w);
      running := running - {actions[i].actionId};
      agv := agv.(running := running);
      if hasCancelingOrder {
        var all := AreAllOrderActionsCanceled();
        if all {
          RequestStop();
        }
      } else {
        agv := agv.(list := agv.list.(ended := agv.list.ended + {i}));
        if actions[i].blockingType.Hard? {
          ProcessActions(w, i + 1);
        } else {
          ContinueAfterParallel(w, i);
        }
      }
    }

    /** What the end of a NONE or SOFT action triggers. */
    method ContinueAfterParallel(w: Owner, i: nat)
      requires Valid() && currentOrder.Some? && IsAction(currentOrder.value, w, i)
      requires !ActionsOf(currentOrder.value, w)[i].blockingType.Hard?
      modifies this
      ensures var acts := ActionsOf(old(currentOrder).value, w);
        var work := Lists.Reaction(acts, EndedIndices(old(currentState), acts), i);
        && Settleable(Perform(old(agv), w, work))
        && Valid() && agv == Settle(Perform(old(agv), w, work))
    {
      var actions := ActionsOf(currentOrder.value, w);
      var ended := EndedIndices(currentState, actions);
      WorkSettles(agv, w, Lists.Reaction(actions, ended, i));
      var nextHard := FindHard(actions, i + 1);
      var all := AreParallelActionsEnded(actions, ended, i, nextHard == -1);
      if nextHard != -1 && all {
        agv := agv.(list := Lists.Perform(agv.list, Lists.Single(nextHard)));
        ProcessBlock(w, nextHard, nextHard + 1, true);
      } else if nextHard == -1 && all {
        LeaveList(w);
      }
    }

    method AreAllOrderActionsCanceled() returns (all: bool)
      requires currentOrder.Some?
      ensures all <==> AllBaseActionsEnded(currentState, currentOrder.value)
    {
      var o := currentOrder.value;
      var k := 0;
      while k < BaseLen(o.nodes)
        invariant 0 <= k <= BaseLen(o.nodes)
        invariant forall j :: 0 <= j < k ==> AllEnded(currentState, o.nodes[j].actions)
      {
        if !AllEnded(currentState, o.nodes[k].actions) {
          return false;
        }
        k := k + 1;
      }
      k := 0;
      while k < EdgeBaseLen(o.edges)
        invariant 0 <= k <= EdgeBaseLen(o.edges)
        invariant forall j :: 0 <= j < k ==> AllEnded(currentState, o.edges[j].actions)
      {
        if !AllEnded(currentState, o.edges[k].actions) {
          return false;
        }
        k := k + 1;
      }
      return true;
    }

    // ---------- Cancelation ----------

    method RequestStop()
      requires Valid()
      modifies this
      ensures Valid() && agv == OnActionsCanceled(old(agv))
    {
      calls := calls + [StopTraverse];
      stopping := stopping + 1;
      traversing := multiset{};
      agv := OnActionsCanceled(agv);
    }

    /** The instant action cancelOrder: first the waiting actions fail in place, then those under way are canceled. */
    method CancelCurrentOrder()
      requires Valid() && Enabled(agv, CancelArrives)
      modifies this
      ensures Valid() && agv == Step(old(agv), CancelArrives)
    {
      hasCancelingOrder := true;
      FailWaitingActions();
      agv := agv.(canceling := true, cursor := Canceling, state := currentState);
      PublishState();
      var ids := CollectUnended();
      if ids == {} {
        RequestStop();
      } else {
        calls := calls + [CancelActions(ids)];
        agv := agv.(calls := calls);
      }
    }

    method FailWaitingActions()
      modifies this`currentState
      ensures currentState == old(currentState.(actionStates := FailWaiting(currentState.actionStates)))
    {
      var left := currentState.actionStates.Keys;
      while left != {}
        invariant left <= old(currentState.actionStates.Keys) == currentState.actionStates.Keys
        invariant forall id :: id in left ==> currentState.actionStates[id] == old(currentState.actionStates)[id]
        invariant forall id :: id in currentState.actionStates && id !in left ==>
                    currentState.actionStates[id] == FailWaiting(old(currentState.actionStates))[id]
        invariant currentState == old(currentState).(actionStates := currentState.actionStates)
        decreases left
      {
        var id :| id in left;
        if currentState.actionStates[id].Waiting? {
          currentState := currentState.(actionStates := currentState.actionStates[id := Failed]);
        }
        left := left - {id};
      }
      assert currentState.actionStates == FailWaiting(old(currentState.actionStates));
    }

    method CollectUnended() returns (ids: set<string>)
      ensures ids == UnendedIds(currentState)
    {
      ids := {};
      var left := currentState.actionStates.Keys;
      while left != {}
        invariant left <= currentState.actionStates.Keys
        invariant forall id :: id in ids <==>
          id in currentState.actionStates && id !in left && !Ended(currentState.actionStates[id])
        decreases left
      {
        var id :| id in left;
        if !Ended(currentState.actionStates[id]) {
          ids := ids + {id};
        }
        left := left - {id};
      }
    }

    /** Callback of stopTraverse: the vehicle cannot stop before node `k`. */
    method OnDrivingToNextNode(k: nat)
      requires Valid() && Enabled(agv, DrivingToNextNode(k))
      modifies this
      ensures Valid() && agv == Step(old(agv), DrivingToNextNode(k))
    {
      currentState := currentState.(nodeStates := KeepNodeState(currentState.nodeStates, currentOrder.value.nodes[k]),
                                    edgeStates := []);
      agv := agv.(state := currentState);
      PublishState();
    }

    /** Callback of stopTraverse: the vehicle stands. */
    method OnStopped()
      requires Valid() && Enabled(agv, Stopped)
      modifies this
      ensures Valid() && agv == Step(old(agv), Stopped)
    {
      hasCancelingOrder := false;
      stopping := stopping - 1;
      currentState := currentState.(nodeStates := [], edgeStates := []);
      agv := agv.(canceling := false, stopping := stopping, cursor := Canceled, state := currentState);
      PublishState();
    }

    // ---------- Orders ----------

    method RejectOrder(o: Order)
      requires Valid()
      modifies this
      ensures Valid()
      ensures
        var errors := old(agv).state.errors + [Rejection(o.orderId, o.orderUpdateId)];
        agv == Publish(old(agv.(state := agv.state.(errors := errors), decided := agv.decided + [o])))
    {
      currentState := currentState.(errors := currentState.errors + [Rejection(o.orderId, o.orderUpdateId)]);
      agv := agv.(state := currentState, decided := agv.decided + [o]);
      PublishState();
    }

    /** Accepts a new order, or an update of one that is no longer active. */
    method AcceptOrder(o: Order)
      requires Valid() && |o.nodes| > 0
      modifies this
      ensures Settleable(Begin(old(agv), o))
      ensures Valid() && agv == Settle(Begin(old(agv), o))
    {
      currentOrder := Some(o);
      currentState := StateOf(o, currentState);
      agv := agv.(order := currentOrder, state := currentState, pos := -1, cursor := Idle, current := |agv.decided|,
                  decided := agv.decided + [o]);
      PublishState();
      ArriveAtNode(0, None);
    }

    /** Accepts an order that goes on from the end of the active one. */
    method StitchOrder(o: Order)
      requires Valid() && |o.nodes| > 0 && CanStitch(agv, o)
      modifies this
      ensures Settleable(Extend(old(agv), o))
      ensures Valid() && agv == Settle(Extend(old(agv), o))
    {
      var nodes, edges := currentOrder.value.nodes, currentOrder.value.edges;
      var end := BaseLen(nodes) - 1;
      var baseEnd := nodes[end].(actions := nodes[end].actions + o.nodes[0].actions);
      currentOrder := Some(Order(o.orderId, o.orderUpdateId,
                                 nodes[..end] + [baseEnd] + o.nodes[1..],
                                 edges[..EdgeBaseLen(edges)] + o.edges));
      var isLastBaseNodeProcessed := !HasNodeState(currentState.nodeStates, nodes[end]);
      var allLastBaseNodeActionsEnded := AllEnded(currentState, baseEnd.actions);
      currentState := State(o.orderId, o.orderUpdateId,
                            ReleasedNodes(currentState.nodeStates) + NodeStates(o.nodes[1..]),
                            ReleasedEdges(currentState.edgeStates) + EdgeStates(o.edges),
                            currentState.actionStates + ActionStates(o),
                            currentState.lastNodeId, currentState.lastNodeSequenceId, []);
      agv := agv.(order := currentOrder, state := currentState, current := |agv.decided|, decided := agv.decided + [o]);
      PublishState();
      EdgeSettles(agv, end);
      if isLastBaseNodeProcessed && allLastBaseNodeActionsEnded {
        ProcessNextEdge(end);
      }
    }

    /** An order arrives; the adapter answers the checks it is asked for with `c`. */
    method ReceiveOrder(o: Order, c: Checks)
      requires Valid() && Enabled(agv, OrderArrives(o, c))
      modifies this
      ensures Settleable(Step(old(agv), OrderArrives(o, c)))
      ensures Valid() && agv == Settle(Step(old(agv), OrderArrives(o, c)))
    {
      StepSettles(agv, OrderArrives(o, c));
      var verdict := ValidateOrderConstraints(o);
      if verdict.Refused? || hasCancelingOrder || !c.routeTraversable || !c.actionsExecutable {
        RejectOrder(o);
      } else if c.charging || c.emergencyStop || c.fieldViolation || !c.automatic {
        RejectOrder(o);
      } else {
        ReceiveExecutableOrder(o, c);
      }
    }

    /** An order is new, an update, or stitched onto the active one, or it does not fit. */
    method ReceiveExecutableOrder(o: Order, c: Checks)
      requires Valid() && WellFormed(o) && !hasCancelingOrder && c.routeTraversable && c.actionsExecutable
      requires !c.charging && !c.emergencyStop && !c.fieldViolation && c.automatic
      modifies this
      ensures Settleable(AgvEngine.ProcessOrder(old(agv), o, c))
      ensures Valid() && agv == Settle(AgvEngine.ProcessOrder(old(agv), o, c))
    {
      if currentOrder.Some? && o.orderId == currentOrder.value.orderId {
        ReceiveOrderUpdate(o, c);
      } else if IsActive(currentState) {
        ReceiveExtension(o, c);
      } else if c.withinDeviation {
        AcceptOrder(o);
      } else {
        RejectOrder(o);
      }
    }

    /** The ids say that the order is an update of the current one. */
    method ReceiveOrderUpdate(o: Order, ghost c: Checks)
      requires Valid() && WellFormed(o) && !hasCancelingOrder && c.routeTraversable && c.actionsExecutable
      requires !c.charging && !c.emergencyStop && !c.fieldViolation && c.automatic
      requires currentOrder.Some? && o.orderId == currentOrder.value.orderId
      modifies this
      ensures Settleable(AgvEngine.ProcessOrder(old(agv), o, c))
      ensures Valid() && agv == Settle(AgvEngine.ProcessOrder(old(agv), o, c))
    {
      if o.orderUpdateId < currentOrder.value.orderUpdateId {
        RejectOrder(o);
      } else if o.orderUpdateId == currentOrder.value.orderUpdateId {
        agv := agv.(decided := agv.decided + [o]);
        PublishState();
      } else if IsActive(currentState) {
        ReceiveExtension(o, c);
      } else if o.nodes[0].nodeId == currentState.lastNodeId
        && o.nodes[0].sequenceId == currentState.lastNodeSequenceId {
        AcceptOrder(o);
      } else {
        RejectOrder(o);
      }
    }

    /** While an order is active, a further one has to go on from the end of its base. */
    method ReceiveExtension(o: Order, ghost c: Checks)
      requires Valid() && |o.nodes| > 0
      requires Decide(agv, o, c) == if CanStitch(agv, o) then AcceptStitch else Reject
      modifies this
      ensures Settleable(AgvEngine.ProcessOrder(old(agv), o, c))
      ensures Valid() && agv == Settle(AgvEngine.ProcessOrder(old(agv), o, c))
    {
      var isBaseStitching := IsOrderBaseStitching(o);
      if isBaseStitching {
        StitchOrder(o);
      } else {
        RejectOrder(o);
      }
    }

    method IsOrderBaseStitching(o: Order) returns (stitching: bool)
      requires At(agv) && |o.nodes| > 0
      ensures stitching <==> CanStitch(agv, o)
    {
      if currentOrder.None? || |currentOrder.value.nodes| == 0 || !currentOrder.value.nodes[0].released {
        return false;
      }
      var nodes := currentOrder.value.nodes;
      var i := 0;
      while i < |nodes| && nodes[i].released
        invariant 0 <= i <= BaseLen(nodes)
        decreases |nodes| - i
      {
        i := i + 1;
      }
      return nodes[i - 1].nodeId == o.nodes[0].nodeId && nodes[i - 1].sequenceId == o.nodes[0].sequenceId;
    }
  }
}
