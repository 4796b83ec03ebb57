/**
 Every action of the base is executed once, and every edge of the base traversed once, as far as the vehicle has come.
 */
module AgvExecution {
  import opened Orders
  import opened AgvEngine
  import opened AgvInvariants
  import AgvCalls
  import Lists = ActionLists

  // ---------- Counting calls ----------

  /** How often action `i` of `w` was executed. */
  function Executions(calls: seq<Call>, w: Owner, i: nat): nat {
    multiset(calls)[ExecuteAction(w, i, true)] + multiset(calls)[ExecuteAction(w, i, false)]
  }

  function Traversals(calls: seq<Call>, k: nat): nat {
    multiset(calls)[TraverseEdge(k)]
  }

  /**
   Exactly the actions of the owners before `rank` and the first `d` of the one at `rank` were executed, each once, and
   exactly the first `t` edges traversed, each once.
   */
  ghost predicate Exactly(calls: seq<Call>, o: Order, rank: int, d: nat, t: int) {
    && (forall w: Owner, i: nat :: Executions(calls, w, i) ==
          if IsAction(o, w, i) && InBase(o, w) && (Rank(w) < rank || (Rank(w) == rank && i < d)) then 1 else 0)
    && (forall k: nat :: Traversals(calls, k) == if k < t then 1 else 0)
  }

  /** How far the vehicle has come in its order. */
  ghost predicate DoneSoFar(a: Agv, calls: seq<Call>)
    requires a.order.Some?
  {
    match a.cursor
    case Processing(w) => Exactly(calls, a.order.value, Rank(w), |a.list.log|, a.pos)
    case Driving(k) => Exactly(calls, a.order.value, 2 * k + 2, 0, k + 1)
    case Idle => Exactly(calls, a.order.value, 2 * a.pos + 1, 0, a.pos)
    case _ => false
  }

  /** Since `n` calls had been made. */
  ghost predicate ExecutedSince(a: Agv, n: nat) {
    Walking(a) && n <= |a.calls| && DoneSoFar(a, a.calls[n..])
  }

  lemma {:induction false} OneMoreCall(calls: seq<Call>, n: nat, c: Call)
    requires n <= |calls|
    ensures (calls + [c])[n..] == calls[n..] + [c]
  {
  }

  lemma {:induction false} SameRank(w: Owner)
    ensures forall v: Owner :: Rank(v) == Rank(w) ==> v == w
  {
  }

  lemma {:induction false} OneMoreExecution(calls: seq<Call>, o: Order, w: Owner, d: nat, stopDriving: bool, t: int)
    requires Exactly(calls, o, Rank(w), d, t) && IsAction(o, w, d) && InBase(o, w)
    ensures Exactly(calls + [ExecuteAction(w, d, stopDriving)], o, Rank(w), d + 1, t)
  {
    var c := ExecuteAction(w, d, stopDriving);
    forall v: Owner, i: nat
      ensures Executions(calls + [c], v, i) == Executions(calls, v, i) + (if v == w && i == d then 1 else 0)
    {
    }
    SameRank(w);
    forall k: nat
      ensures Traversals(calls + [c], k) == Traversals(calls, k)
    {
    }
  }

  lemma {:induction false} OneMoreTraversal(calls: seq<Call>, o: Order, k: nat, rank: int)
    requires Exactly(calls, o, rank, 0, k)
    ensures Exactly(calls + [TraverseEdge(k)], o, rank, 0, k + 1)
  {
    forall v: Owner, i: nat
      ensures Executions(calls + [TraverseEdge(k)], v, i) == Executions(calls, v, i)
    {
    }
    forall j: nat
      ensures Traversals(calls + [TraverseEdge(k)], j) == Traversals(calls, j) + (if j == k then 1 else 0)
    {
    }
  }

  /** A list of which all was executed is behind the vehicle. */
  lemma {:induction false} NextRank(calls: seq<Call>, o: Order, w: Owner, d: nat, t: int)
    requires InOrder(o, w) && d >= |ActionsOf(o, w)| && Exactly(calls, o, Rank(w), d, t)
    ensures Exactly(calls, o, Rank(w) + 1, 0, t)
  {
    SameRank(w);
  }

  // ---------- Dispatching, starting and leaving lists ----------

  lemma {:induction false} DispatchExecutes(a: Agv, o: Order, p: Pending, rest: seq<Lists.Loop>, n: nat)
    requires Dispatching(a, o, p, rest) && n <= |a.calls|
    requires Exactly(a.calls[n..], o, Rank(p.owner), p.loop.next, a.pos)
    ensures ExecutedSince(Iterate(a, p), n)
  {
    DispatchKeeps(a, o, p, rest);
    OneMoreExecution(a.calls[n..], o, p.owner, p.loop.next, p.loop.stopDriving, a.pos);
    OneMoreCall(a.calls, n, ExecuteAction(p.owner, p.loop.next, p.loop.stopDriving));
  }

  lemma {:induction false} ServeExecutes(a: Agv, o: Order, w: Owner, work: Lists.Work, loop: Lists.Loop, n: nat)
    requires Working(a, o, w, work) && loop.next < |ActionsOf(o, w)| && n <= |a.calls|
    requires Lists.Perform(a.list, work) == Lists.Iterate(a.list, loop)
    requires Exactly(a.calls[n..], o, Rank(w), |a.list.log|, a.pos)
    ensures ExecutedSince(Iterate(a.(list := Lists.Perform(a.list, work)), Pending(w, loop)), n)
  {
    var after := Lists.Perform(a.list, work);
    assert after.log[|a.list.log|].index == |a.list.log|;
    DispatchExecutes(a.(list := after), o, Pending(w, loop), a.list.stack, n);
  }

  lemma {:induction false} WorkExecutes(a: Agv, o: Order, w: Owner, work: Lists.Work, n: nat)
    requires Working(a, o, w, work) && n <= |a.calls| && Exactly(a.calls[n..], o, Rank(w), |a.list.log|, a.pos)
    ensures ExecutedSince(Perform(a, w, work), n)
    decreases if w.AtNode? then 4 else 1
  {
    match work
    case Nothing => WorkKeeps(a, o, w, work);
    case Single(i) => ServeExecutes(a, o, w, work, Lists.Loop(i, i + 1, true), n);
    case Block(from, stop, stopDriving) => ServeExecutes(a, o, w, work, Lists.Loop(from, stop, stopDriving), n);
    case Proceed =>
      ListDone(a, o, w);
      AllLogged(ActionsOf(o, w), a.list);
      NextRank(a.calls[n..], o, w, |a.list.log|, a.pos);
      LeaveExecutes(a.(list := Lists.Perform(a.list, work)), o, w, n);
  }

  lemma {:induction false} AllLogged(acts: seq<Action>, list: Lists.Run)
    requires Lists.Clean(acts) && Lists.Inv(acts, Lists.Perform(list, Lists.Proceed)) && list.proceeds == 0
    ensures |list.log| >= |acts|
  {
    AllDone(acts, list);
    if acts != [] {
      assert |acts| - 1 in list.ended;
    }
  }

  lemma {:induction false} StartListExecutes(a: Agv, o: Order, w: Owner, n: nat)
    requires Ready(a, o, w, Rank(w)) && n <= |a.calls| && Exactly(a.calls[n..], o, Rank(w), 0, a.pos)
    ensures ExecutedSince(StartList(a, w), n)
    decreases if w.AtNode? then 5 else 2
  {
    var b := ListOpened(a, o, w);
    WorkExecutes(b, o, w, Lists.Open(ActionsOf(o, w), 0), n);
  }

  lemma {:induction false} LeaveExecutes(a: Agv, o: Order, w: Owner, n: nat)
    requires Ready(a, o, w, Rank(w) + 1) && n <= |a.calls| && Exactly(a.calls[n..], o, Rank(w) + 1, 0, a.pos)
    ensures w.AtNode? ==> ExecutedSince(ProcessEdge(a, w.index), n)
    ensures w.OnEdge? ==>
      ExecutedSince(a.(calls := a.calls + [TraverseEdge(w.index)], traversing := a.traversing + multiset{w.index},
                       cursor := Driving(w.index)), n)
    decreases if w.AtNode? then 3 else 0
  {
    LeaveKeeps(a, o, w);
    match w
    case AtNode(k) =>
      TrailingEdgeOnChain(o, k, 0);
      BaseOwners(o, OnEdge(k));
      if InBase(o, OnEdge(k)) {
        StartListExecutes(a, o, OnEdge(k), n);
      }
    case OnEdge(k) =>
      OneMoreTraversal(a.calls[n..], o, k, 2 * k + 2);
      OneMoreCall(a.calls, n, TraverseEdge(k));
  }

  // ---------- Messages and callbacks ----------

  /** Calls that neither execute nor traverse make no difference. */
  lemma {:induction false} OtherCalls(calls: seq<Call>, n: nat, more: seq<Call>, o: Order, rank: int, d: nat, t: int)
    requires n <= |calls| && Exactly(calls[n..], o, rank, d, t)
    requires forall c :: c in more ==> c.FinishEdgeAction?
    ensures Exactly((calls + more)[n..], o, rank, d, t)
  {
    assert (calls + more)[n..] == calls[n..] + more;
    forall v: Owner, i: nat
      ensures Executions(calls[n..] + more, v, i) == Executions(calls[n..], v, i)
    {
      assert ExecuteAction(v, i, true) !in more && ExecuteAction(v, i, false) !in more;
    }
    forall k: nat
      ensures Traversals(calls[n..] + more, k) == Traversals(calls[n..], k)
    {
      assert TraverseEdge(k) !in more;
    }
  }

  lemma {:induction false} UpdateExecutes(a: Agv, o: Order, w: Owner, i: nat, status: Status, n: nat)
    requires ExecutedSince(a, n) && a.order == Some(o) && Enabled(a, ActionUpdate(w, i, status))
    ensures ExecutedSince(Step(a, ActionUpdate(w, i, status)), n)
  {
    RunningIsHere(a, o, w, i);
    if Ended(status) {
      var b, work := UpdateWorks(a, o, w, i, status);
      WorkExecutes(b, o, w, work, n);
    } else {
      ActionUpdateKeeps(a, o, w, i, status);
    }
  }

  lemma {:induction false} TraversedExecutes(a: Agv, o: Order, k: nat, n: nat)
    requires ExecutedSince(a, n) && a.order == Some(o) && Enabled(a, EdgeTraversed(k))
    ensures ExecutedSince(Step(a, EdgeTraversed(k)), n)
  {
    var b := TraversedStartsList(a, o, k);
    AgvCalls.FinishCallsOnly(a.state, o, k, 0);
    OtherCalls(a.calls, n, FinishCalls(a.state, o, k), o, 2 * k + 2, 0, k + 1);
    StartListExecutes(b, o, AtNode(k + 1), n);
  }

  lemma {:induction false} ReturnExecutes(a: Agv, o: Order, n: nat)
    requires ExecutedSince(a, n) && a.order == Some(o) && Enabled(a, CallReturns)
    ensures ExecutedSince(Step(a, CallReturns), n)
  {
    LoopIsHere(a, o);
    LoopDispatching(a, o);
    var b := a.(todo := [], list := Lists.Iterate(a.list.(stack := []), a.list.stack[0]));
    assert a.todo[..0] == [];
    assert Step(a, CallReturns) == Iterate(b, a.todo[0]);
    DispatchExecutes(b, o, a.todo[0], [], n);
  }

  lemma {:induction false} BeginExecutes(a: Agv, o: Order)
    requires Inv(a) && !IsActive(a.state) && Tame(o)
    ensures ExecutedSince(Begin(a, o), |a.calls|)
  {
    InactiveIsQuiet(a);
    BeginStartsList(a, o);
    FirstStateReady(o, a.state);
    assert a.calls[|a.calls|..] == [];
    StartListExecutes(Begun(a, o), o, AtNode(0), |a.calls|);
  }

  /** What was executed of the present order is what was executed of the stitched one. */
  lemma {:induction false} StitchedExactly(present: Order, o: Order, calls: seq<Call>, rank: int, d: nat, t: int)
    requires Mergeable(present, o) && Exactly(calls, present, rank, d, t)
    requires var end := BaseLen(present.nodes) - 1;
      && rank <= 2 * end + 1 && (rank == 2 * end + 1 ==> d == 0 && o.nodes[0].actions == [])
      && (rank == 2 * end ==> d <= |present.nodes[end].actions|)
    ensures Exactly(calls, Stitch(present, o), rank, d, t)
  {
    var s, end := Stitch(present, o), BaseLen(present.nodes) - 1;
    forall w: Owner, i: nat
      ensures (IsAction(s, w, i) && InBase(s, w) && (Rank(w) < rank || (Rank(w) == rank && i < d)))
         <==> (IsAction(present, w, i) && InBase(present, w) && (Rank(w) < rank || (Rank(w) == rank && i < d)))
    {
      StitchedOwner(present, o, w);
      BaseOwners(present, w);
    }
  }

  lemma {:induction false} ExtendExecutes(a: Agv, o: Order, n: nat)
    requires ExecutedSince(a, n) && a.todo == [] && Stitchable(a.order.value, o) && CanStitch(a, o)
    requires Continues(a.order.value, o, a.state)
    ensures ExecutedSince(Extend(a, o), n)
  {
    match a.cursor
    case Idle => ExtendIdleExecutes(a, o, n);
    case Driving(k) => ExtendDrivingExecutes(a, o, n);
    case Processing(w) => ExtendProcessingExecutes(a, o, n);
    case _ =>
  }

  lemma {:induction false} ExtendDrivingExecutes(a: Agv, o: Order, n: nat)
    requires ExecutedSince(a, n) && a.cursor.Driving? && Stitchable(a.order.value, o) && CanStitch(a, o)
    ensures ExecutedSince(Extend(a, o), n)
  {
    var k := a.cursor.edge;
    ExtendDriving(a, o);
    ExtendWhileDriving(a, o);
    BaseOwners(a.order.value, OnEdge(k));
    StitchedExactly(a.order.value, o, a.calls[n..], 2 * k + 2, 0, k + 1);
  }

  lemma {:induction false} ExtendProcessingExecutes(a: Agv, o: Order, n: nat)
    requires ExecutedSince(a, n) && a.cursor.Processing? && a.todo == []
    requires Stitchable(a.order.value, o) && CanStitch(a, o) && Continues(a.order.value, o, a.state)
    ensures ExecutedSince(Extend(a, o), n)
  {
    var w := a.cursor.owner;
    ExtendProcessing(a, o);
    ExtendWhileProcessing(a, o);
    BaseOwners(a.order.value, w);
    StitchedExactly(a.order.value, o, a.calls[n..], Rank(w), |a.list.log|, a.pos);
  }

  lemma {:induction false} ExtendIdleExecutes(a: Agv, o: Order, n: nat)
    requires ExecutedSince(a, n) && a.cursor.Idle? && Stitchable(a.order.value, o) && CanStitch(a, o)
    requires Continues(a.order.value, o, a.state)
    ensures ExecutedSince(Extend(a, o), n)
  {
    IdleContinues(a, o);
    ExtendIdle(a, o);
    StitchedExactly(a.order.value, o, a.calls[n..], 2 * a.pos + 1, 0, a.pos);
    IdleReady(a, o);
    LeaveExecutes(Extended(a, o), Stitch(a.order.value, o), AtNode(a.pos), n);
  }

  /** The message does not begin another order. */
  predicate BeginsNone(a: Agv, e: Event) {
    e.OrderArrives? ==> !Decide(a, e.order, e.checks).AcceptNew? && !Decide(a, e.order, e.checks).AcceptUpdate?
  }

  /** A step that does not begin another order goes on with the present one. */
  lemma {:induction false} StepExecutes(a: Agv, e: Event, n: nat)
    requires ExecutedSince(a, n) && Enabled(a, e) && Ordinary(a, e) && BeginsNone(a, e)
    ensures ExecutedSince(Step(a, e), n)
  {
    StepKeeps(a, e);
    OrdinaryEvents(a, e);
    match e
    case OrderArrives(o, c) =>
      if Decide(a, o, c).AcceptStitch? {
        ExtendExecutes(a, o, n);
      }
    case ActionUpdate(w, i, status) => UpdateExecutes(a, a.order.value, w, i, status, n);
    case EdgeTraversed(k) => TraversedExecutes(a, a.order.value, k, n);
    case CallReturns => ReturnExecutes(a, a.order.value, n);
    case StateDue =>
  }

  // ---------- All runs of one order ----------

  /** The vehicle after events of a run that begins no other order; orders may be stitched onto the present one. */
  ghost function Ahead(a: Agv, events: seq<Event>): Option<Agv> {
    if events == [] then Some(a)
    else
      var before := Ahead(a, events[..|events| - 1]);
      var e := events[|events| - 1];
      if before.Some? && Enabled(before.value, e) && Ordinary(before.value, e) && BeginsNone(before.value, e) then
        Some(Step(before.value, e))
      else None
  }

  lemma {:induction false} AheadExecutes(a: Agv, events: seq<Event>, n: nat)
    requires ExecutedSince(a, n) && Ahead(a, events).Some?
    ensures ExecutedSince(Ahead(a, events).value, n)
  {
    if events != [] {
      var before, e := events[..|events| - 1], events[|events| - 1];
      AheadExecutes(a, before, n);
      StepExecutes(Ahead(a, before).value, e, n);
    }
  }

  /**
   From the message that begins an order on, at any time: of the base of the order, with all that was stitched onto it,
   exactly the actions up to the place of the vehicle were executed, each once, and exactly the edges up to there
   traversed, each once.
   */
  lemma {:induction false} ExecutesSoFar(a: Agv, o: Order, c: Checks, events: seq<Event>)
    requires Inv(a) && Enabled(a, OrderArrives(o, c)) && Tame(o)
    requires Decide(a, o, c).AcceptNew? || Decide(a, o, c).AcceptUpdate?
    requires Ahead(Step(a, OrderArrives(o, c)), events).Some?
    ensures var b := Ahead(Step(a, OrderArrives(o, c)), events).value;
      && b.order.Some? && |a.calls| <= |b.calls| && DoneSoFar(b, b.calls[|a.calls|..])
  {
    BeginExecutes(a, o);
    AheadExecutes(Begin(a, o), events, |a.calls|);
  }

  /**
   Once nothing is outstanding, each action and each edge of the base was asked for exactly once, and nothing else.
   */
  lemma {:induction false} ExecutesEachOnce(a: Agv, o: Order, c: Checks, events: seq<Event>)
    requires Inv(a) && Enabled(a, OrderArrives(o, c)) && Tame(o)
    requires Decide(a, o, c).AcceptNew? || Decide(a, o, c).AcceptUpdate?
    requires Ahead(Step(a, OrderArrives(o, c)), events).Some?
    requires Quiet(Ahead(Step(a, OrderArrives(o, c)), events).value)
    ensures var b := Ahead(Step(a, OrderArrives(o, c)), events).value;
      && b.order.Some? && |a.calls| <= |b.calls|
      && var calls, s := b.calls[|a.calls|..], b.order.value;
      && (forall w: Owner, i: nat :: Executions(calls, w, i) == if IsAction(s, w, i) && InBase(s, w) then 1 else 0)
      && (forall k: nat :: Traversals(calls, k) == if k < |s.edges| && s.edges[k].released then 1 else 0)
  {
    BeginExecutes(a, o);
    AheadExecutes(Begin(a, o), events, |a.calls|);
    QuietExecuted(Ahead(Begin(a, o), events).value, |a.calls|);
  }

  lemma {:induction false} QuietExecuted(b: Agv, n: nat)
    requires ExecutedSince(b, n) && Quiet(b)
    ensures var calls, s := b.calls[n..], b.order.value;
      && (forall w: Owner, i: nat :: Executions(calls, w, i) == if IsAction(s, w, i) && InBase(s, w) then 1 else 0)
      && (forall k: nat :: Traversals(calls, k) == if k < |s.edges| && s.edges[k].released then 1 else 0)
  {
    var s := b.order.value;
    if b.cursor.Processing? {
      ProcessingIsActive(b, s);
    }
    forall w: Owner
      ensures InBase(s, w) <==> Rank(w) < 2 * b.pos + 1
    {
      BaseOwners(s, w);
    }
    forall k: nat
      ensures k < b.pos <==> k < |s.edges| && s.edges[k].released
    {
      assert InBase(s, OnEdge(k)) <==> Rank(OnEdge(k)) < 2 * b.pos + 1;
    }
  }
}
