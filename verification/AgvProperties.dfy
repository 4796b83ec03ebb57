/** What the invariant of the order engine means for its runs. */
module AgvProperties {
  import opened Orders
  import opened AgvEngine
  import opened AgvInvariants
  import opened AgvRuns
  import opened AgvReports

  /** The reported nodes and edges are exactly those not reached yet, and at most one edge is under traversal. */
  lemma {:induction false} StatesAreSuffix(a: Agv)
    requires Reachable(a) && a.order.Some? && !a.canceling && !a.cursor.Canceled?
    ensures var o, k := a.order.value, a.pos;
      && 0 <= k < |o.nodes| && k <= |o.edges|
      && a.state.nodeStates == NodeStates(o.nodes[k + 1..])
      && a.state.edgeStates == EdgeStates(o.edges[k..])
      && a.state.lastNodeId == o.nodes[k].nodeId && a.state.lastNodeSequenceId == o.nodes[k].sequenceId
      && (a.traversing == multiset{} || a.traversing == multiset{k})
      && (k in a.traversing ==> a.running == {} && a.todo == [])
  {
    ReachableInv(a);
  }

  /** The last sequence id does not decrease as long as the order id stays the same. */
  lemma {:induction false} SequenceIdNeverDecreases(a: Agv, e: Event)
    requires Reachable(a) && Enabled(a, e) && Proper(a, e) && a.order.Some? && !a.cursor.Canceled?
    requires Step(a, e).state.orderId == a.state.orderId
    ensures a.state.lastNodeSequenceId <= Step(a, e).state.lastNodeSequenceId
  {
    ReachableInv(a);
    if a.canceling || e.CancelArrives? {
      CancelSequenceId(a, e);
    } else {
      WalkingSequenceId(a, e);
    }
  }

  /** A cancelation leaves the last node as it is. */
  lemma {:induction false} CancelSequenceId(a: Agv, e: Event)
    requires Enabled(a, e) && (e.CancelArrives? || (a.canceling && a.todo == []))
    ensures Step(a, e).state.lastNodeSequenceId == a.state.lastNodeSequenceId
  {
  }

  lemma {:induction false} WalkingSequenceId(a: Agv, e: Event)
    requires Walking(a) && Enabled(a, e) && Ordinary(a, e) && Step(a, e).state.orderId == a.state.orderId
    ensures a.state.lastNodeSequenceId <= Step(a, e).state.lastNodeSequenceId
  {
    match e
    case EdgeTraversed(k) => TraversedSequenceId(a, k);
    case OrderArrives(o, c) =>
      StepSends(a, e);
      OrderSequenceId(a, o, c);
    case _ => StepSends(a, e);
  }

  lemma {:induction false} TraversedSequenceId(a: Agv, k: nat)
    requires Walking(a) && Enabled(a, EdgeTraversed(k))
    ensures a.state.lastNodeSequenceId <= Step(a, EdgeTraversed(k)).state.lastNodeSequenceId
  {
    TraversedSends(a, a.order.value, k);
    assert Adds(a, EdgeTraversed(k)) == [NextNode(Now(a), a.order.value, k)];
  }

  lemma {:induction false} OrderSequenceId(a: Agv, o: Order, c: Checks)
    requires Walking(a) && Enabled(a, OrderArrives(o, c))
    ensures var s := Adds(a, OrderArrives(o, c))[|Adds(a, OrderArrives(o, c))| - 1].state;
      s.orderId == a.state.orderId ==> a.state.lastNodeSequenceId <= s.lastNodeSequenceId
  {
    match Decide(a, o, c)
    case _ =>
  }

  /**
   An order that is not stitched replaces the present one only when no call or callback of that one is outstanding.
   */
  lemma {:induction false} NoLateCallbacks(a: Agv, o: Order, c: Checks)
    requires Reachable(a) && (Decide(a, o, c).AcceptNew? || Decide(a, o, c).AcceptUpdate?)
    ensures Quiet(a)
  {
    ReachableInv(a);
    InactiveIsQuiet(a);
  }

  /** The vehicle never stalls: when nothing is outstanding, the whole base has been processed. */
  lemma {:induction false} NoStall(a: Agv)
    requires Reachable(a) && a.order.Some? && !a.canceling && !a.cursor.Canceled? && Quiet(a)
    ensures a.pos + 1 == BaseLen(a.order.value.nodes) && AllBaseActionsEnded(a.state, a.order.value)
  {
    ReachableInv(a);
    var o := a.order.value;
    if a.cursor.Processing? {
      ProcessingIsActive(a, o);
    }
    AlignedEdgeBase(o);
    forall k | 0 <= k < BaseLen(o.nodes)
      ensures AllEnded(a.state, o.nodes[k].actions)
    {
      forall i | 0 <= i < |o.nodes[k].actions|
        ensures IsEnded(a.state, o.nodes[k].actions[i].actionId)
      {
        assert IsAction(o, AtNode(k), i) && IsEnded(a.state, Id(o, AtNode(k), i));
      }
    }
    forall k | 0 <= k < EdgeBaseLen(o.edges)
      ensures AllEnded(a.state, o.edges[k].actions)
    {
      forall i | 0 <= i < |o.edges[k].actions|
        ensures IsEnded(a.state, o.edges[k].actions[i].actionId)
      {
        assert IsAction(o, OnEdge(k), i) && IsEnded(a.state, Id(o, OnEdge(k), i));
      }
    }
  }
}
