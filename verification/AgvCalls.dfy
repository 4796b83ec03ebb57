/** What the order engine asks of the adapter: which calls a step makes, in which order, and with which arguments. */
module AgvCalls {
  import opened Orders
  import opened AgvEngine
  import opened AgvInvariants
  import Lists = ActionLists

  // ---------- Which actions stop the vehicle ----------

  /** An action is executed with the flag that its list demands. */
  ghost predicate StopsAsListed(order: Option<Order>, c: Call) {
    c.ExecuteAction? ==>
      && order.Some? && IsAction(order.value, c.owner, c.index)
      && (c.stopDriving <==> Lists.Stops(ActionsOf(order.value, c.owner), c.index))
  }

  /** Pending dispatch loops carry that flag as well. */
  ghost predicate LoopsStop(a: Agv) {
    forall p :: p in a.todo ==>
      a.order.Some? && InOrder(a.order.value, p.owner) && Lists.LoopStops(ActionsOf(a.order.value, p.owner), p.loop)
  }

  /** The calls made since are right, and so are those to come. */
  ghost predicate Executes(calls: seq<Call>, b: Agv) {
    && calls <= b.calls && LoopsStop(b)
    && forall k :: |calls| <= k < |b.calls| ==> StopsAsListed(b.order, b.calls[k])
  }

  lemma {:induction false} IterateStops(a: Agv, p: Pending)
    requires a.order.Some? && IsAction(a.order.value, p.owner, p.loop.next) && LoopsStop(a)
    requires Lists.LoopStops(ActionsOf(a.order.value, p.owner), p.loop)
    ensures Executes(a.calls, Iterate(a, p))
  {
  }

  lemma {:induction false} PerformStops(a: Agv, w: Owner, work: Lists.Work)
    requires a.order.Some? && InOrder(a.order.value, w) && Lists.Fits(ActionsOf(a.order.value, w), work)
    requires LoopsStop(a) && Lists.WorkStops(ActionsOf(a.order.value, w), work)
    ensures Executes(a.calls, Perform(a, w, work))
    decreases if w.AtNode? then 4 else 1
  {
    var b := a.(list := Lists.Perform(a.list, work));
    match work
    case Nothing =>
    case Single(i) => IterateStops(b, Pending(w, Lists.Loop(i, i + 1, true)));
    case Block(from, stop, stopDriving) => IterateStops(b, Pending(w, Lists.Loop(from, stop, stopDriving)));
    case Proceed =>
      if w.AtNode? {
        ProcessEdgeStops(b, w.index);
      }
  }

  lemma {:induction false} ProcessEdgeStops(a: Agv, k: nat)
    requires a.order.Some? && k < |a.order.value.nodes| && LoopsStop(a)
    ensures Executes(a.calls, ProcessEdge(a, k))
    decreases 3
  {
    var o := a.order.value;
    var e := TrailingEdge(o.edges, o.nodes[k]);
    if e.Some? && o.edges[e.value].released {
      StartListStops(a, OnEdge(e.value));
    }
  }

  lemma {:induction false} StartListStops(a: Agv, w: Owner)
    requires a.order.Some? && InOrder(a.order.value, w) && LoopsStop(a)
    ensures Executes(a.calls, StartList(a, w))
    decreases if w.AtNode? then 5 else 2
  {
    var acts := ActionsOf(a.order.value, w);
    Lists.OpenStops(acts, 0);
    PerformStops(a.(cursor := Processing(w), list := Lists.Run([], {}, [], 0)), w, Lists.Open(acts, 0));
  }

  lemma {:induction false} FinishCallsOnly(s: State, o: Order, e: nat, from: nat)
    requires e < |o.edges| && from <= |o.edges[e].actions|
    ensures forall c :: c in FinishCalls(s, o, e, from) ==> c.FinishEdgeAction? && c.edge == e && from <= c.index
    decreases |o.edges[e].actions| - from
  {
    if from < |o.edges[e].actions| {
      FinishCallsOnly(s, o, e, from + 1);
    }
  }

  /** The vehicle at a released node, before anything of the node is dispatched. */
  function AtNodeReached(a: Agv, k: nat, traversed: Option<nat>): (b: Agv)
    requires a.order.Some? && k < |a.order.value.nodes|
    requires traversed.Some? ==> traversed.value < |a.order.value.edges|
    ensures b.order == a.order && b.todo == a.todo && b.running == a.running && b.traversing == a.traversing
    ensures b.canceling == a.canceling && b.stopping == a.stopping && b.pos == k
    ensures b.state.actionStates == a.state.actionStates
    ensures b.state.orderId == a.state.orderId && b.state.orderUpdateId == a.state.orderUpdateId
    ensures b.current == a.current && b.decided == a.decided
    ensures b.sent == a.sent + [Report(b.state, Shadow(b.order, b.pos, b.current, |b.decided|))]
    ensures b.calls == a.calls + if traversed.None? then [] else FinishCalls(a.state, a.order.value, traversed.value)
  {
    var o, node := a.order.value, a.order.value.nodes[k];
    var a1 := if traversed.None? then a else
      a.(calls := a.calls + FinishCalls(a.state, o, traversed.value),
         state := a.state.(edgeStates := DropEdgeState(a.state.edgeStates, o.edges[traversed.value])));
    Publish(a1.(
      state := a1.state.(nodeStates := DropNodeState(a1.state.nodeStates, node), lastNodeId := node.nodeId,
                         lastNodeSequenceId := node.sequenceId),
      pos := k))
  }

  lemma {:induction false} ProcessNodeIs(a: Agv, k: nat, traversed: Option<nat>)
    requires a.order.Some? && k < |a.order.value.nodes|
    requires traversed.Some? ==> traversed.value < |a.order.value.edges|
    ensures ProcessNode(a, k, traversed) ==
      if a.order.value.nodes[k].released then StartList(AtNodeReached(a, k, traversed), AtNode(k)) else a
  {
  }

  lemma {:induction false} ProcessNodeStops(a: Agv, k: nat, traversed: Option<nat>)
    requires a.order.Some? && k < |a.order.value.nodes| && LoopsStop(a)
    requires traversed.Some? ==> traversed.value < |a.order.value.edges|
    ensures Executes(a.calls, ProcessNode(a, k, traversed))
  {
    ProcessNodeIs(a, k, traversed);
    if a.order.value.nodes[k].released {
      var b := AtNodeReached(a, k, traversed);
      if traversed.Some? {
        FinishCallsOnly(a.state, a.order.value, traversed.value, 0);
      }
      StartListStops(b, AtNode(k));
      AfterMore(a.calls, b, StartList(b, AtNode(k)));
    }
  }

  lemma {:induction false} AfterMore(calls: seq<Call>, a: Agv, b: Agv)
    requires calls <= a.calls && Executes(a.calls, b)
    requires forall k :: |calls| <= k < |a.calls| ==> !a.calls[k].ExecuteAction?
    ensures Executes(calls, b)
  {
  }

  lemma {:induction false} UpdateStops(a: Agv, w: Owner, i: nat, status: Status)
    requires LoopsStop(a) && Enabled(a, ActionUpdate(w, i, status))
    ensures Executes(a.calls, Step(a, ActionUpdate(w, i, status)))
  {
    var b := Publish(a.(state := SetStatus(a.state, Id(a.order.value, w, i), status)));
    if Ended(status) && !a.canceling {
      var acts := ActionsOf(a.order.value, w);
      var ended := EndedIndices(b.state, acts);
      Lists.ReactionStops(acts, ended, i);
      PerformStops(b.(running := b.running - {acts[i].actionId}, list := b.list.(ended := b.list.ended + {i})), w,
                   Lists.Reaction(acts, ended, i));
    }
  }

  lemma {:induction false} OrderStops(a: Agv, o: Order, c: Checks)
    requires a.todo == []
    ensures Executes(a.calls, ProcessOrder(a, o, c))
  {
    match Decide(a, o, c)
    case AcceptNew => BeginStops(a, o);
    case AcceptUpdate => BeginStops(a, o);
    case AcceptStitch =>
      var end := BaseLen(a.order.value.nodes) - 1;
      StitchNodeParts(a.order.value, o);
      ProcessEdgeStops(Extended(a, o), end);
    case _ =>
  }

  lemma {:induction false} BeginStops(a: Agv, o: Order)
    requires a.todo == [] && |o.nodes| > 0
    ensures Executes(a.calls, Begin(a, o))
  {
    ProcessNodeStops(Publish(a.(order := Some(o), state := StateOf(o, a.state), pos := -1, cursor := Idle,
                                current := |a.decided|, decided := a.decided + [o])), 0, None);
  }

  lemma {:induction false} ReturnStops(a: Agv)
    requires LoopsStop(a) && Enabled(a, CallReturns)
    ensures Executes(a.calls, Step(a, CallReturns))
  {
    var p := a.todo[|a.todo| - 1];
    assert p in a.todo;
    IterateStops(a.(todo := a.todo[..|a.todo| - 1], list := Lists.Iterate(a.list.(stack := []), p.loop)), p);
  }

  /** Whatever happens, an action is executed with stopDriving if and only if its list demands it. */
  lemma {:induction false} StepStops(a: Agv, e: Event)
    requires LoopsStop(a) && Enabled(a, e)
    ensures Executes(a.calls, Step(a, e))
  {
    match e
    case OrderArrives(o, c) => OrderStops(a, o, c);
    case ActionUpdate(w, i, status) => UpdateStops(a, w, i, status);
    case EdgeTraversed(k) =>
      if !a.canceling {
        ProcessNodeStops(a.(traversing := a.traversing - multiset{k}),
                         EndNode(a.order.value.nodes, a.order.value.edges[k]).value, Some(k));
      }
    case CallReturns => ReturnStops(a);
    case _ =>
  }

  // ---------- All runs ----------

  /** The vehicle after any events that can happen one after the other, with any orders and cancelations. */
  ghost function Course(a: Agv, events: seq<Event>): Option<Agv> {
    if events == [] then Some(a)
    else
      var before := Course(a, events[..|events| - 1]);
      var e := events[|events| - 1];
      if before.Some? && Enabled(before.value, e) then Some(Step(before.value, e)) else None
  }

  lemma {:induction false} CourseStops(lastNodeId: string, events: seq<Event>)
    requires Course(Initial(lastNodeId), events).Some?
    ensures LoopsStop(Course(Initial(lastNodeId), events).value)
  {
    if events != [] {
      var before, e := events[..|events| - 1], events[|events| - 1];
      CourseStops(lastNodeId, before);
      StepStops(Course(Initial(lastNodeId), before).value, e);
    }
  }

  /**
   In every run, each action is executed with stopDriving if and only if it is SOFT or HARD, or runs together with a
   SOFT one.
   */
  lemma {:induction false} ExecutedStopsIff(lastNodeId: string, events: seq<Event>, e: Event)
    requires Course(Initial(lastNodeId), events).Some? && Enabled(Course(Initial(lastNodeId), events).value, e)
    ensures var a := Course(Initial(lastNodeId), events).value;
      var b := Step(a, e);
      && a.calls <= b.calls
      && forall k :: |a.calls| <= k < |b.calls| && b.calls[k].ExecuteAction? ==>
           && b.order.Some? && IsAction(b.order.value, b.calls[k].owner, b.calls[k].index)
           && var acts, i := ActionsOf(b.order.value, b.calls[k].owner), b.calls[k].index;
           b.calls[k].stopDriving <==>
             || acts[i].blockingType.Soft? || acts[i].blockingType.Hard?
             || exists j: nat :: j < |acts| && acts[j].blockingType.Soft? && Lists.Together(acts, j, i)
  {
    CourseStops(lastNodeId, events);
    var a := Course(Initial(lastNodeId), events).value;
    StepStops(a, e);
    var b := Step(a, e);
    forall k | |a.calls| <= k < |b.calls| && b.calls[k].ExecuteAction?
      ensures StopsAsListed(b.order, b.calls[k])
    {
    }
  }

  // ---------- Which actions of an edge are finished ----------

  lemma {:induction false} FinishCallsCount(s: State, o: Order, e: nat, from: nat, i: nat)
    requires e < |o.edges| && from <= |o.edges[e].actions|
    ensures multiset(FinishCalls(s, o, e, from))[FinishEdgeAction(e, i)]
         == if from <= i < |o.edges[e].actions| && !IsEnded(s, o.edges[e].actions[i].actionId) then 1 else 0
    decreases |o.edges[e].actions| - from
  {
    if from < |o.edges[e].actions| {
      FinishCallsCount(s, o, e, from + 1, i);
    }
  }

  predicate FinishInOrder(calls: seq<Call>) {
    forall p, q :: 0 <= p < q < |calls| ==>
      calls[p].FinishEdgeAction? && calls[q].FinishEdgeAction? && calls[p].index < calls[q].index
  }

  lemma {:induction false} FinishCallsInOrder(s: State, o: Order, e: nat, from: nat)
    requires e < |o.edges| && from <= |o.edges[e].actions|
    ensures FinishInOrder(FinishCalls(s, o, e, from))
    decreases |o.edges[e].actions| - from
  {
    if from < |o.edges[e].actions| {
      FinishCallsInOrder(s, o, e, from + 1);
      var first := if IsEnded(s, o.edges[e].actions[from].actionId) then [] else [FinishEdgeAction(e, from)];
      var rest := FinishCalls(s, o, e, from + 1);
      FinishCallsOnly(s, o, e, from + 1);
      var calls := FinishCalls(s, o, e, from);
      assert calls == first + rest;
      forall p, q | 0 <= p < q < |calls|
        ensures calls[p].FinishEdgeAction? && calls[q].FinishEdgeAction? && calls[p].index < calls[q].index
      {
        var q' := q - |first|;
        assert calls[q] == rest[q'] && rest[q'] in rest;
        if p >= |first| {
          assert calls[p] == rest[p - |first|];
        }
      }
    }
  }

  /**
   When an edge has been traversed, exactly those of its actions that have not ended are finished, each once, in list
   order, and before anything of the node is dispatched.
   */
  lemma {:induction false} TraversedFinishes(a: Agv, k: nat)
    requires Enabled(a, EdgeTraversed(k)) && !a.canceling
    requires var o := a.order.value; o.nodes[EndNode(o.nodes, o.edges[k]).value].released
    ensures a.calls <= Step(a, EdgeTraversed(k)).calls
    ensures var added, acts := Step(a, EdgeTraversed(k)).calls[|a.calls|..], a.order.value.edges[k].actions;
      && (forall e: nat, i: nat :: multiset(added)[FinishEdgeAction(e, i)]
            == if e == k && i < |acts| && !IsEnded(a.state, acts[i].actionId) then 1 else 0)
      && (forall p, q :: 0 <= p < q < |added| && added[q].FinishEdgeAction? ==>
            added[p].FinishEdgeAction? && added[p].index < added[q].index)
      && (forall p :: 0 <= p < |added| && !added[p].FinishEdgeAction? ==>
            added[p].ExecuteAction? || added[p].TraverseEdge?)
  {
    var o := a.order.value;
    var n := EndNode(o.nodes, o.edges[k]).value;
    var a1 := a.(traversing := a.traversing - multiset{k});
    ProcessNodeIs(a1, n, Some(k));
    var b := AtNodeReached(a1, n, Some(k));
    ListDispatches(b, AtNode(n));
    FinishesFirst(a, o, k, b.calls, StartList(b, AtNode(n)).calls);
  }

  /** The calls made since dispatch actions, or start a traversal. */
  predicate OnlyDispatches(before: seq<Call>, calls: seq<Call>) {
    before <= calls && forall k :: |before| <= k < |calls| ==> calls[k].ExecuteAction? || calls[k].TraverseEdge?
  }

  lemma {:induction false} PerformDispatches(a: Agv, w: Owner, work: Lists.Work)
    requires a.order.Some? && InOrder(a.order.value, w) && Lists.Fits(ActionsOf(a.order.value, w), work)
    ensures OnlyDispatches(a.calls, Perform(a, w, work).calls)
    decreases if w.AtNode? then 4 else 1
  {
    if work.Proceed? && w.AtNode? {
      EdgeDispatches(a.(list := Lists.Perform(a.list, work)), w.index);
    }
  }

  lemma {:induction false} EdgeDispatches(a: Agv, k: nat)
    requires a.order.Some? && k < |a.order.value.nodes|
    ensures OnlyDispatches(a.calls, ProcessEdge(a, k).calls)
    decreases 3
  {
    var o := a.order.value;
    var e := TrailingEdge(o.edges, o.nodes[k]);
    if e.Some? && o.edges[e.value].released {
      ListDispatches(a, OnEdge(e.value));
    }
  }

  /** Starting a list only dispatches. */
  lemma {:induction false} ListDispatches(a: Agv, w: Owner)
    requires a.order.Some? && InOrder(a.order.value, w)
    ensures OnlyDispatches(a.calls, StartList(a, w).calls)
    decreases if w.AtNode? then 5 else 2
  {
    PerformDispatches(a.(cursor := Processing(w), list := Lists.Run([], {}, [], 0)), w,
                      Lists.Open(ActionsOf(a.order.value, w), 0));
  }

  /** `added` starts with the calls for the unended actions of edge `k`, and has no other calls of this kind. */
  ghost predicate FinishesAsListed(added: seq<Call>, s: State, o: Order, k: nat)
    requires k < |o.edges|
  {
    && (forall e: nat, i: nat :: multiset(added)[FinishEdgeAction(e, i)] ==
          if e == k && i < |o.edges[k].actions| && !IsEnded(s, o.edges[k].actions[i].actionId) then 1 else 0)
    && (forall p, q :: 0 <= p < q < |added| && added[q].FinishEdgeAction? ==>
          added[p].FinishEdgeAction? && added[p].index < added[q].index)
    && (forall p :: 0 <= p < |added| && !added[p].FinishEdgeAction? ==>
          added[p].ExecuteAction? || added[p].TraverseEdge?)
  }

  lemma {:induction false} FinishesFirst(a: Agv, o: Order, k: nat, before: seq<Call>, calls: seq<Call>)
    requires k < |o.edges| && before == a.calls + FinishCalls(a.state, o, k) && OnlyDispatches(before, calls)
    ensures a.calls <= calls && FinishesAsListed(calls[|a.calls|..], a.state, o, k)
  {
    var rest := calls[|before|..];
    assert forall p :: 0 <= p < |rest| ==> rest[p] == calls[|before| + p];
    TailOf(a.calls, FinishCalls(a.state, o, k), calls);
    FinishesThen(a.state, o, k, rest);
  }

  lemma {:induction false} TailOf(a: seq<Call>, b: seq<Call>, calls: seq<Call>)
    requires a + b <= calls
    ensures a <= calls && calls[|a|..] == b + calls[|a + b|..]
  {
  }

  lemma {:induction false} FinishesThen(s: State, o: Order, k: nat, rest: seq<Call>)
    requires k < |o.edges| && forall p :: 0 <= p < |rest| ==> rest[p].ExecuteAction? || rest[p].TraverseEdge?
    ensures FinishesAsListed(FinishCalls(s, o, k) + rest, s, o, k)
  {
    FinishesInFront(s, o, k, rest);
    forall e: nat, i: nat
      ensures multiset(FinishCalls(s, o, k) + rest)[FinishEdgeAction(e, i)] ==
        if e == k && i < |o.edges[k].actions| && !IsEnded(s, o.edges[k].actions[i].actionId) then 1 else 0
    {
      FinishesCounted(s, o, k, rest, e, i);
    }
  }

  lemma {:induction false} FinishesInFront(s: State, o: Order, k: nat, rest: seq<Call>)
    requires k < |o.edges| && forall p :: 0 <= p < |rest| ==> rest[p].ExecuteAction? || rest[p].TraverseEdge?
    ensures var added := FinishCalls(s, o, k) + rest;
      && (forall p, q :: 0 <= p < q < |added| && added[q].FinishEdgeAction? ==>
            added[p].FinishEdgeAction? && added[p].index < added[q].index)
      && (forall p :: 0 <= p < |added| && !added[p].FinishEdgeAction? ==>
            added[p].ExecuteAction? || added[p].TraverseEdge?)
  {
    var finish := FinishCalls(s, o, k);
    FinishCallsInOrder(s, o, k, 0);
    FinishCallsOnly(s, o, k, 0);
    assert forall p :: 0 <= p < |finish| ==> finish[p] in finish;
  }

  lemma {:induction false} FinishesCounted(s: State, o: Order, k: nat, rest: seq<Call>, e: nat, i: nat)
    requires k < |o.edges| && forall p :: 0 <= p < |rest| ==> rest[p].ExecuteAction? || rest[p].TraverseEdge?
    ensures multiset(FinishCalls(s, o, k) + rest)[FinishEdgeAction(e, i)] ==
      if e == k && i < |o.edges[k].actions| && !IsEnded(s, o.edges[k].actions[i].actionId) then 1 else 0
  {
    FinishCallsCount(s, o, k, 0, i);
    FinishCallsOnly(s, o, k, 0);
    assert FinishEdgeAction(e, i) !in rest;
    assert e != k ==> FinishEdgeAction(e, i) !in FinishCalls(s, o, k);
  }
}
