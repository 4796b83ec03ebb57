/** What every run of the order engine keeps, for orders with clean action lists and without cancelation. */
module AgvInvariants {
  import opened Orders
  import opened AgvEngine
  import Lists = ActionLists

  // ---------- Orders the engine walks step by step ----------

  ghost predicate UniqueIds(o: Order) {
    forall w1, i1, w2, i2 :: IsAction(o, w1, i1) && IsAction(o, w2, i2) && Id(o, w1, i1) == Id(o, w2, i2) ==>
      w1 == w2 && i1 == i2
  }

  ghost predicate CleanLists(o: Order) {
    forall w :: InOrder(o, w) ==> Lists.Clean(ActionsOf(o, w))
  }

  ghost predicate Tame(o: Order) {
    AlignedChain(o) && UniqueIds(o) && CleanLists(o)
  }

  // ---------- Order of processing ----------

  /** Place of an owner in the processing order: node 0, edge 0, node 1, edge 1, and so on. */
  function Rank(w: Owner): nat {
    match w
    case AtNode(k) => 2 * k
    case OnEdge(k) => 2 * k + 1
  }

  ghost predicate Settled(o: Order, s: State, rank: int) {
    forall w, i :: IsAction(o, w, i) && InBase(o, w) && Rank(w) < rank ==> IsEnded(s, Id(o, w, i))
  }

  ghost predicate Untouched(o: Order, s: State, rank: int) {
    forall w, i :: IsAction(o, w, i) && InBase(o, w) && rank <= Rank(w) ==>
      Id(o, w, i) in s.actionStates && s.actionStates[Id(o, w, i)].Waiting?
  }

  // ---------- The invariant ----------

  /** Ids of the first `d` actions that have not ended. */
  function RunningIds(acts: seq<Action>, d: nat, ended: set<nat>): set<string> {
    set i | 0 <= i < |acts| && i < d && i !in ended :: acts[i].actionId
  }

  function PendingLoops(w: Owner, stack: seq<Lists.Loop>): seq<Pending> {
    seq(|stack|, i requires 0 <= i < |stack| => Pending(w, stack[i]))
  }

  ghost predicate WaitingFrom(acts: seq<Action>, d: nat, s: State) {
    forall i :: d <= i < |acts| ==> acts[i].actionId in s.actionStates && s.actionStates[acts[i].actionId].Waiting?
  }

  /** The vehicle is on its way: the states of nodes and edges are those not reached yet. */
  ghost predicate OnRoute(o: Order, s: State, pos: int) {
    && Tame(o)
    && 0 <= pos < BaseLen(o.nodes)
    && s.nodeStates == NodeStates(o.nodes[pos + 1..])
    && s.edgeStates == EdgeStates(o.edges[pos..])
    && s.actionStates.Keys == BaseActionIds(o)
    && s.lastNodeId == o.nodes[pos].nodeId
    && s.lastNodeSequenceId == o.nodes[pos].sequenceId
    && s.orderId == o.orderId && s.orderUpdateId == o.orderUpdateId
  }

  /** An owner that may be processed while the last node reached is `pos`. */
  predicate IsHere(o: Order, w: Owner, pos: int) {
    w.index == pos && InBase(o, w)
  }

  ghost predicate Between(o: Order, s: State, settled: int, untouched: int) {
    Settled(o, s, settled) && Untouched(o, s, untouched)
  }

  /** What the adapter and the reported state say agrees with the list. */
  ghost predicate Tracks(acts: seq<Action>, w: Owner, list: Lists.Run, s: State, todo: seq<Pending>,
                         running: set<string>) {
    && list.ended == EndedIndices(s, acts)
    && todo == PendingLoops(w, list.stack)
    && running == RunningIds(acts, |list.log|, list.ended)
    && WaitingFrom(acts, |list.log|, s)
  }

  /** The list `acts` of `w` is being processed, and is the only one. */
  ghost predicate ListInv(acts: seq<Action>, w: Owner, list: Lists.Run, s: State, todo: seq<Pending>,
                          running: set<string>) {
    Lists.Inv(acts, list) && list.proceeds == 0 && Tracks(acts, w, list, s, todo, running)
  }

  /** No adapter call or callback is outstanding. */
  predicate Quiet(a: Agv) {
    a.todo == [] && a.running == {} && a.traversing == multiset{}
  }

  predicate Undisturbed(a: Agv) {
    !a.canceling && a.stopping == 0
  }

  ghost predicate CursorInv(a: Agv, o: Order) {
    match a.cursor
    case Processing(w) =>
      && IsHere(o, w, a.pos) && Between(o, a.state, Rank(w), Rank(w) + 1)
      && a.traversing == multiset{}
      && ListInv(ActionsOf(o, w), w, a.list, a.state, a.todo, a.running)
    case Driving(k) =>
      && IsHere(o, OnEdge(k), a.pos) && Between(o, a.state, 2 * k + 2, 2 * k + 2)
      && a.todo == [] && a.running == {} && a.traversing == multiset{k}
    case Idle =>
      && a.pos + 1 == BaseLen(o.nodes) && Settled(o, a.state, 2 * a.pos + 1)
      && Quiet(a)
    case _ => false
  }

  ghost predicate Walking(a: Agv) {
    && Undisturbed(a)
    && a.order.Some?
    && OnRoute(a.order.value, a.state, a.pos)
    && CursorInv(a, a.order.value)
  }

  /** There is nothing to be done: no order yet, or the order was canceled. */
  ghost predicate AtRest(a: Agv) {
    && Undisturbed(a) && Quiet(a) && !IsActive(a.state)
    && (a.cursor.Nowhere? || a.cursor.Canceled?)
    && (a.cursor.Nowhere? <==> a.order.None?)
  }

  ghost predicate Inv(a: Agv) {
    Walking(a) || AtRest(a)
  }

  // ---------- Facts on owners and ids ----------

  lemma {:induction false} BaseId(o: Order, w: Owner, i: nat)
    requires IsAction(o, w, i) && InBase(o, w)
    ensures Id(o, w, i) in BaseActionIds(o)
  {
    match w
    case AtNode(k) => assert o.nodes[k] in o.nodes && ActionsOf(o, w)[i] in o.nodes[k].actions;
    case OnEdge(k) => assert o.edges[k] in o.edges && ActionsOf(o, w)[i] in o.edges[k].actions;
  }

  lemma {:induction false} OwnerOfId(o: Order, id: string) returns (w: Owner, i: nat)
    requires id in BaseActionIds(o)
    ensures IsAction(o, w, i) && InBase(o, w) && Id(o, w, i) == id
  {
    if id in NodeActionIds(o.nodes) {
      var n, x :| n in o.nodes && n.released && x in n.actions && x.actionId == id;
      var k :| 0 <= k < |o.nodes| && o.nodes[k] == n;
      w := AtNode(k);
      i :| 0 <= i < |n.actions| && n.actions[i] == x;
    } else {
      var e, x :| e in o.edges && e.released && x in e.actions && x.actionId == id;
      var k :| 0 <= k < |o.edges| && o.edges[k] == e;
      w := OnEdge(k);
      i :| 0 <= i < |e.actions| && e.actions[i] == x;
    }
  }

  /** On an aligned chain the base is made of the nodes and edges before the first horizon node. */
  lemma {:induction false} BaseOwners(o: Order, w: Owner)
    requires AlignedChain(o)
    ensures InBase(o, w) <==> Rank(w) <= 2 * (BaseLen(o.nodes) - 1)
  {
    AlignedEdgeBase(o);
    match w
    case AtNode(k) =>
    case OnEdge(k) =>
      if k < |o.edges| {
        assert o.edges[k].released == o.nodes[k + 1].released;
      }
  }

  // ---------- Dispatching ----------

  lemma {:induction false} RunningGrows(acts: seq<Action>, d: nat, ended: set<nat>)
    requires d < |acts| && d !in ended
    ensures RunningIds(acts, d + 1, ended) == RunningIds(acts, d, ended) + {acts[d].actionId}
  {
  }

  /** The list has already counted the dispatch of `loop.next`, the adapter side has not seen it yet. */
  ghost predicate Counted(acts: seq<Action>, w: Owner, loop: Lists.Loop, rest: seq<Lists.Loop>,
                          list: Lists.Run, s: State, todo: seq<Pending>, running: set<string>) {
    && |list.log| == loop.next + 1
    && list.stack == (if loop.next + 1 < loop.stop then rest + [loop.(next := loop.next + 1)] else rest)
    && list.ended == EndedIndices(s, acts)
    && todo == PendingLoops(w, rest)
    && running == RunningIds(acts, loop.next, list.ended)
    && WaitingFrom(acts, loop.next, s)
  }

  ghost predicate Dispatching(a: Agv, o: Order, p: Pending, rest: seq<Lists.Loop>) {
    && a.order == Some(o) && IsAction(o, p.owner, p.loop.next) && Undisturbed(a) && OnRoute(o, a.state, a.pos)
    && a.cursor == Processing(p.owner) && IsHere(o, p.owner, a.pos)
    && Between(o, a.state, Rank(p.owner), Rank(p.owner) + 1) && a.traversing == multiset{}
    && Lists.Inv(ActionsOf(o, p.owner), a.list) && a.list.proceeds == 0
    && Counted(ActionsOf(o, p.owner), p.owner, p.loop, rest, a.list, a.state, a.todo, a.running)
  }

  /** One dispatch brings the adapter side in line with the list. */
  lemma {:induction false} DispatchKeeps(a: Agv, o: Order, p: Pending, rest: seq<Lists.Loop>)
    requires Dispatching(a, o, p, rest)
    ensures Walking(Iterate(a, p))
  {
    DispatchTracks(a, o, p, rest);
  }

  lemma {:induction false} DispatchTracks(a: Agv, o: Order, p: Pending, rest: seq<Lists.Loop>)
    requires a.order == Some(o) && IsAction(o, p.owner, p.loop.next)
    requires Counted(ActionsOf(o, p.owner), p.owner, p.loop, rest, a.list, a.state, a.todo, a.running)
    ensures Tracks(ActionsOf(o, p.owner), p.owner, a.list, a.state, Iterate(a, p).todo, Iterate(a, p).running)
  {
    var acts := ActionsOf(o, p.owner);
    assert a.state.actionStates[acts[p.loop.next].actionId].Waiting?;
    RunningGrows(acts, p.loop.next, a.list.ended);
  }

  // ---------- Starting, continuing and leaving a list ----------

  /** Everything up to `rank` has ended, nothing from there on has been touched, and no callback is outstanding. */
  ghost predicate Ready(a: Agv, o: Order, w: Owner, rank: int) {
    && a.order == Some(o) && Undisturbed(a) && Quiet(a)
    && OnRoute(o, a.state, a.pos) && IsHere(o, w, a.pos)
    && Between(o, a.state, rank, rank)
  }

  /** The list of `w` is as the engine sees it, and `work` is what comes next. */
  ghost predicate Working(a: Agv, o: Order, w: Owner, work: Lists.Work) {
    && a.order == Some(o) && Undisturbed(a) && OnRoute(o, a.state, a.pos) && IsHere(o, w, a.pos)
    && a.cursor == Processing(w) && a.traversing == multiset{} && Between(o, a.state, Rank(w), Rank(w) + 1)
    && Lists.Fits(ActionsOf(o, w), work)
    && Lists.Inv(ActionsOf(o, w), Lists.Perform(a.list, work)) && a.list.proceeds == 0
    && Tracks(ActionsOf(o, w), w, a.list, a.state, a.todo, a.running)
  }

  lemma {:induction false} WorkKeeps(a: Agv, o: Order, w: Owner, work: Lists.Work)
    requires Working(a, o, w, work)
    ensures Walking(Perform(a, w, work))
    decreases if w.AtNode? then 4 else 1
  {
    match work
    case Nothing => assert Lists.Perform(a.list, work) == a.list;
    case Single(i) => ServeKeeps(a, o, w, work, Lists.Loop(i, i + 1, true));
    case Block(from, stop, stopDriving) => ServeKeeps(a, o, w, work, Lists.Loop(from, stop, stopDriving));
    case Proceed =>
      ListDone(a, o, w);
      LeaveKeeps(a.(list := Lists.Perform(a.list, work)), o, w);
  }

  lemma {:induction false} ServeKeeps(a: Agv, o: Order, w: Owner, work: Lists.Work, loop: Lists.Loop)
    requires Working(a, o, w, work) && loop.next < |ActionsOf(o, w)|
    requires Lists.Perform(a.list, work) == Lists.Iterate(a.list, loop)
    ensures Walking(Iterate(a.(list := Lists.Perform(a.list, work)), Pending(w, loop)))
  {
    var after := Lists.Perform(a.list, work);
    assert after.log[|a.list.log|].index == |a.list.log|;
    DispatchKeeps(a.(list := after), o, Pending(w, loop), a.list.stack);
  }

  /** A clean list is left only when all of it has ended. */
  lemma {:induction false} ListDone(a: Agv, o: Order, w: Owner)
    requires Working(a, o, w, Lists.Proceed)
    ensures Ready(a, o, w, Rank(w) + 1)
  {
    var acts := ActionsOf(o, w);
    assert Lists.Clean(acts);
    AllDone(acts, a.list);
    assert RunningIds(acts, |a.list.log|, a.list.ended) == {};
    SettledList(o, a.state, w);
  }

  lemma {:induction false} AllDone(acts: seq<Action>, list: Lists.Run)
    requires Lists.Clean(acts) && Lists.Inv(acts, Lists.Perform(list, Lists.Proceed)) && list.proceeds == 0
    ensures list.stack == [] && forall k :: 0 <= k < |acts| ==> k in list.ended
  {
    var after := Lists.Perform(list, Lists.Proceed);
    assert after.ended == list.ended;
  }

  lemma {:induction false} SettledList(o: Order, s: State, w: Owner)
    requires InOrder(o, w) && Settled(o, s, Rank(w))
    requires forall k :: 0 <= k < |ActionsOf(o, w)| ==> k in EndedIndices(s, ActionsOf(o, w))
    ensures Settled(o, s, Rank(w) + 1)
  {
    forall v: Owner, i: nat | IsAction(o, v, i) && InBase(o, v) && Rank(v) < Rank(w) + 1
      ensures IsEnded(s, Id(o, v, i))
    {
      if v == w {
        assert i in EndedIndices(s, ActionsOf(o, w));
        assert Id(o, v, i) == ActionsOf(o, w)[i].actionId;
      } else {
        assert Rank(v) < Rank(w);
      }
    }
  }

  lemma {:induction false} StartListKeeps(a: Agv, o: Order, w: Owner)
    requires Ready(a, o, w, Rank(w))
    ensures Walking(StartList(a, w))
    decreases if w.AtNode? then 5 else 2
  {
    var b := ListOpened(a, o, w);
    WorkKeeps(b, o, w, Lists.Open(ActionsOf(o, w), 0));
  }

  /** The vehicle when the list is about to be started. */
  lemma {:induction false} ListOpened(a: Agv, o: Order, w: Owner) returns (b: Agv)
    requires Ready(a, o, w, Rank(w))
    ensures b == a.(cursor := Processing(w), list := Lists.Run([], {}, [], 0))
    ensures Working(b, o, w, Lists.Open(ActionsOf(o, w), 0))
    ensures StartList(a, w) == Perform(b, w, Lists.Open(ActionsOf(o, w), 0))
  {
    var acts, r := ActionsOf(o, w), Lists.Run([], {}, [], 0);
    b := a.(cursor := Processing(w), list := r);
    Lists.OpenKeeps(acts, r, 0);
    WaitingList(o, a.state, w);
    assert EndedIndices(a.state, acts) == {};
    assert RunningIds(acts, 0, {}) == {};
    assert PendingLoops(w, []) == [];
  }

  lemma {:induction false} WaitingList(o: Order, s: State, w: Owner)
    requires InBase(o, w) && Untouched(o, s, Rank(w))
    ensures WaitingFrom(ActionsOf(o, w), 0, s) && Untouched(o, s, Rank(w) + 1)
  {
    forall i | 0 <= i < |ActionsOf(o, w)|
      ensures ActionsOf(o, w)[i].actionId in s.actionStates && s.actionStates[ActionsOf(o, w)[i].actionId].Waiting?
    {
      assert Id(o, w, i) == ActionsOf(o, w)[i].actionId;
    }
  }

  /** After the list of a node comes the edge behind it, after the list of an edge its traversal. */
  lemma {:induction false} LeaveKeeps(a: Agv, o: Order, w: Owner)
    requires Ready(a, o, w, Rank(w) + 1)
    ensures w.AtNode? ==> Walking(ProcessEdge(a, w.index))
    ensures w.OnEdge? ==>
      Walking(a.(calls := a.calls + [TraverseEdge(w.index)], traversing := a.traversing + multiset{w.index},
                 cursor := Driving(w.index)))
    decreases if w.AtNode? then 3 else 0
  {
    match w
    case AtNode(k) =>
      TrailingEdgeOnChain(o, k, 0);
      BaseOwners(o, OnEdge(k));
      BaseOwners(o, AtNode(k));
      if InBase(o, OnEdge(k)) {
        StartListKeeps(a, o, OnEdge(k));
      }
    case OnEdge(k) =>
  }

  // ---------- Action status ----------

  lemma {:induction false} RunningShrinks(o: Order, w: Owner, d: nat, ended: set<nat>, i: nat)
    requires UniqueIds(o) && IsAction(o, w, i)
    ensures RunningIds(ActionsOf(o, w), d, ended + {i}) == RunningIds(ActionsOf(o, w), d, ended) - {Id(o, w, i)}
  {
    var acts := ActionsOf(o, w);
    forall k | 0 <= k < |acts| && acts[k].actionId == acts[i].actionId
      ensures k == i
    {
      assert Id(o, w, k) == Id(o, w, i);
    }
  }

  /** A running action belongs to the list being processed. */
  lemma {:induction false} RunningIsHere(a: Agv, o: Order, w: Owner, i: nat)
    requires Walking(a) && a.order == Some(o) && IsAction(o, w, i) && Id(o, w, i) in a.running
    ensures a.cursor == Processing(w) && i < |a.list.log| && i !in a.list.ended
  {
    var v := a.cursor.owner;
    var acts := ActionsOf(o, v);
    var j :| 0 <= j < |acts| && j < |a.list.log| && j !in a.list.ended && acts[j].actionId == Id(o, w, i);
    assert Id(o, v, j) == Id(o, w, i);
  }

  function SetStatus(s: State, id: string, status: Status): State {
    s.(actionStates := s.actionStates[id := status])
  }

  lemma {:induction false} StatusFrame(o: Order, s: State, pos: int, w: Owner, i: nat, status: Status)
    requires OnRoute(o, s, pos) && IsAction(o, w, i) && InBase(o, w)
    requires Between(o, s, Rank(w), Rank(w) + 1)
    ensures OnRoute(o, SetStatus(s, Id(o, w, i), status), pos)
    ensures Between(o, SetStatus(s, Id(o, w, i), status), Rank(w), Rank(w) + 1)
  {
    BaseId(o, w, i);
    var s' := SetStatus(s, Id(o, w, i), status);
    assert s'.actionStates.Keys == s.actionStates.Keys;
  }

  lemma {:induction false} StatusInList(o: Order, s: State, w: Owner, d: nat, i: nat, status: Status)
    requires UniqueIds(o) && IsAction(o, w, i) && i < d && WaitingFrom(ActionsOf(o, w), d, s)
    requires i !in EndedIndices(s, ActionsOf(o, w))
    ensures WaitingFrom(ActionsOf(o, w), d, SetStatus(s, Id(o, w, i), status))
    ensures EndedIndices(SetStatus(s, Id(o, w, i), status), ActionsOf(o, w))
         == if Ended(status) then EndedIndices(s, ActionsOf(o, w)) + {i} else EndedIndices(s, ActionsOf(o, w))
  {
    var acts := ActionsOf(o, w);
    forall k | 0 <= k < |acts| && acts[k].actionId == acts[i].actionId
      ensures k == i
    {
      assert Id(o, w, k) == Id(o, w, i);
    }
  }

  /** The end of an action leads to the next work on its list. */
  lemma {:induction false} UpdateWorks(a: Agv, o: Order, w: Owner, i: nat, status: Status)
    returns (b: Agv, work: Lists.Work)
    requires Walking(a) && a.order == Some(o) && Enabled(a, ActionUpdate(w, i, status)) && Ended(status)
    ensures Working(b, o, w, work) && Step(a, ActionUpdate(w, i, status)) == Perform(b, w, work)
    ensures b.calls == a.calls && b.list.log == a.list.log && b.pos == a.pos
  {
    RunningIsHere(a, o, w, i);
    var acts := ActionsOf(o, w);
    var s' := SetStatus(a.state, Id(o, w, i), status);
    StatusFrame(o, a.state, a.pos, w, i, status);
    StatusInList(o, a.state, w, |a.list.log|, i, status);
    RunningShrinks(o, w, |a.list.log|, a.list.ended, i);
    EndInList(acts, a.list, i);
    work := Lists.Reaction(acts, EndedIndices(s', acts), i);
    b := Publish(a.(state := s'));
    b := b.(running := b.running - {acts[i].actionId}, list := b.list.(ended := b.list.ended + {i}));
  }

  lemma {:induction false} ActionUpdateKeeps(a: Agv, o: Order, w: Owner, i: nat, status: Status)
    requires Walking(a) && a.order == Some(o) && Enabled(a, ActionUpdate(w, i, status))
    ensures Walking(Step(a, ActionUpdate(w, i, status)))
  {
    if Ended(status) {
      var b, work := UpdateWorks(a, o, w, i, status);
      WorkKeeps(b, o, w, work);
    } else {
      RunningIsHere(a, o, w, i);
      StatusFrame(o, a.state, a.pos, w, i, status);
      StatusInList(o, a.state, w, |a.list.log|, i, status);
    }
  }

  lemma {:induction false} EndInList(acts: seq<Action>, list: Lists.Run, i: nat)
    requires Lists.Inv(acts, list) && i < |list.log| && i !in list.ended
    ensures i < |acts|
    ensures Lists.Inv(acts, Lists.Perform(list.(ended := list.ended + {i}), Lists.Reaction(acts, list.ended + {i}, i)))
  {
    assert list.log[i].index == i;
    assert Lists.Enabled(acts, list, Lists.Ends(i));
    Lists.EndKeeps(acts, list, i);
  }

  // ---------- Returning calls ----------

  lemma {:induction false} LoopOfList(acts: seq<Action>, list: Lists.Run)
    requires Lists.Inv(acts, list) && list.stack != []
    ensures |list.stack| == 1 && list.stack[0].next == |list.log| < |acts|
    ensures var next := Lists.Iterate(list.(stack := []), list.stack[0]);
      Lists.Inv(acts, next) && |next.log| == |list.log| + 1 && next.ended == list.ended
        && next.proceeds == list.proceeds
  {
    Lists.ReturnKeeps(acts, list);
    assert list.stack[..0] == [];
  }

  /** Only a loop of the list being processed can go on. */
  lemma {:induction false} LoopIsHere(a: Agv, o: Order)
    requires Walking(a) && a.order == Some(o) && a.todo != []
    ensures a.cursor.Processing? && |a.list.stack| == 1
    ensures a.todo == [Pending(a.cursor.owner, a.list.stack[0])]
  {
    LoopOfList(ActionsOf(o, a.cursor.owner), a.list);
  }

  lemma {:induction false} LoopDispatching(a: Agv, o: Order)
    requires Walking(a) && a.order == Some(o) && a.todo != []
    ensures |a.list.stack| == 1 && |a.todo| == 1
    ensures Dispatching(a.(todo := [], list := Lists.Iterate(a.list.(stack := []), a.list.stack[0])), o, a.todo[0], [])
  {
    LoopIsHere(a, o);
    LoopOfList(ActionsOf(o, a.cursor.owner), a.list);
    assert PendingLoops(a.cursor.owner, []) == [];
  }

  lemma {:induction false} CallReturnsKeeps(a: Agv, o: Order)
    requires Walking(a) && a.order == Some(o) && Enabled(a, CallReturns)
    ensures Walking(Step(a, CallReturns))
  {
    LoopIsHere(a, o);
    LoopDispatching(a, o);
    var b := a.(todo := [], list := Lists.Iterate(a.list.(stack := []), a.list.stack[0]));
    assert a.todo[..0] == [];
    assert Step(a, CallReturns) == Iterate(b, a.todo[0]);
    DispatchKeeps(b, o, a.todo[0], []);
  }

  // ---------- Reaching nodes ----------

  lemma {:induction false} DropNoNode(states: seq<NodeState>, node: Node)
    requires forall i :: 0 <= i < |states| ==> states[i].sequenceId != node.sequenceId
    ensures DropNodeState(states, node) == states
  {
    if states != [] {
      DropNoNode(states[1..], node);
    }
  }

  lemma {:induction false} DropNoEdge(states: seq<EdgeState>, edge: Edge)
    requires forall i :: 0 <= i < |states| ==> states[i].sequenceId != edge.sequenceId
    ensures DropEdgeState(states, edge) == states
  {
    if states != [] {
      DropNoEdge(states[1..], edge);
    }
  }

  /** Reaching a node removes exactly its state, and traversing an edge exactly the state of that edge. */
  lemma {:induction false} DropFirst(o: Order, k: nat)
    requires Chain(o)
    ensures k < |o.nodes| ==> DropNodeState(NodeStates(o.nodes[k..]), o.nodes[k]) == NodeStates(o.nodes[k + 1..])
    ensures k < |o.edges| ==> DropEdgeState(EdgeStates(o.edges[k..]), o.edges[k]) == EdgeStates(o.edges[k + 1..])
  {
    if k < |o.nodes| {
      var states, rest := NodeStates(o.nodes[k..]), NodeStates(o.nodes[k + 1..]);
      assert states[1..] == rest;
      forall i | 0 <= i < |rest|
        ensures rest[i].sequenceId != o.nodes[k].sequenceId
      {
        assert rest[i].sequenceId == o.nodes[k + 1 + i].sequenceId;
      }
      DropNoNode(rest, o.nodes[k]);
    }
    if k < |o.edges| {
      var states, rest := EdgeStates(o.edges[k..]), EdgeStates(o.edges[k + 1..]);
      assert states[1..] == rest;
      assert EdgeFits(o, k);
      forall i | 0 <= i < |rest|
        ensures rest[i].sequenceId != o.edges[k].sequenceId
      {
        assert EdgeFits(o, k + 1 + i);
      }
      DropNoEdge(rest, o.edges[k]);
    }
  }

  /** Traversing an edge starts the list of its end node, with the states of both gone. */
  lemma {:induction false} TraversedStartsList(a: Agv, o: Order, k: nat) returns (b: Agv)
    requires Walking(a) && a.order == Some(o) && Enabled(a, EdgeTraversed(k))
    ensures a.cursor == Driving(k) && k == a.pos && k + 1 < |o.nodes| && IsHere(o, AtNode(k + 1), k + 1)
    ensures var s := a.state.(edgeStates := EdgeStates(o.edges[k + 1..]), nodeStates := NodeStates(o.nodes[k + 2..]),
                              lastNodeId := o.nodes[k + 1].nodeId, lastNodeSequenceId := o.nodes[k + 1].sequenceId);
      b == Publish(a.(traversing := multiset{}, calls := a.calls + FinishCalls(a.state, o, k), state := s,
                      pos := k + 1))
    ensures Step(a, EdgeTraversed(k)) == StartList(b, AtNode(k + 1))
  {
    EndNodeOnChain(o, k);
    BaseOwners(o, OnEdge(k));
    BaseOwners(o, AtNode(k + 1));
    DropFirst(o, k);
    DropFirst(o, k + 1);
    var s := a.state.(edgeStates := EdgeStates(o.edges[k + 1..]), nodeStates := NodeStates(o.nodes[k + 2..]),
                      lastNodeId := o.nodes[k + 1].nodeId, lastNodeSequenceId := o.nodes[k + 1].sequenceId);
    b := Publish(a.(traversing := multiset{}, calls := a.calls + FinishCalls(a.state, o, k), state := s, pos := k + 1));
    assert a.traversing - multiset{k} == multiset{};
  }

  lemma {:induction false} EdgeTraversedKeeps(a: Agv, o: Order, k: nat)
    requires Walking(a) && a.order == Some(o) && Enabled(a, EdgeTraversed(k))
    ensures Walking(Step(a, EdgeTraversed(k)))
  {
    var b := TraversedStartsList(a, o, k);
    StartListKeeps(b, o, AtNode(k + 1));
  }

  // ---------- Activity ----------

  /** While a list is processed one of its actions has not ended. */
  lemma {:induction false} ProcessingIsActive(a: Agv, o: Order)
    requires Walking(a) && a.order == Some(o) && a.cursor.Processing?
    ensures IsActive(a.state) && !AllEnded(a.state, ActionsOf(o, a.cursor.owner))
    ensures a.todo != [] || a.running != {}
  {
    var w := a.cursor.owner;
    var acts := ActionsOf(o, w);
    var i: nat;
    if a.list.stack != [] {
      LoopOfList(acts, a.list);
      i := |a.list.log|;
    } else {
      i :| i < |a.list.log| && i !in a.list.ended;
      assert acts[i].actionId in a.running;
    }
    assert i !in EndedIndices(a.state, acts);
    BaseId(o, w, i);
    assert Id(o, w, i) == acts[i].actionId;
  }

  lemma {:induction false} InactiveIsQuiet(a: Agv)
    requires Inv(a)
    requires !IsActive(a.state)
    ensures Quiet(a)
    ensures Walking(a) ==> a.cursor.Idle? && a.pos + 1 == |a.order.value.nodes|
  {
    if Walking(a) {
      var o := a.order.value;
      if a.cursor.Processing? {
        ProcessingIsActive(a, o);
      }
      assert |NodeStates(o.nodes[a.pos + 1..])| == |o.nodes| - a.pos - 1;
      assert |EdgeStates(o.edges[a.pos..])| == |o.edges| - a.pos;
    }
  }

  // ---------- New orders ----------

  /** The state of a new order whose first node has been reached. */
  function FirstState(o: Order, s: State): State
    requires |o.nodes| > 0
  {
    StateOf(o, s).(nodeStates := NodeStates(o.nodes[1..]), lastNodeId := o.nodes[0].nodeId,
                   lastNodeSequenceId := o.nodes[0].sequenceId)
  }

  lemma {:induction false} FirstStateReady(o: Order, s: State)
    requires Tame(o)
    ensures OnRoute(o, FirstState(o, s), 0) && Between(o, FirstState(o, s), 0, 0) && IsHere(o, AtNode(0), 0)
  {
    BaseOwners(o, AtNode(0));
    assert o.edges[0..] == o.edges;
    var s1 := FirstState(o, s);
    forall w: Owner, i: nat | IsAction(o, w, i) && InBase(o, w)
      ensures Id(o, w, i) in s1.actionStates && s1.actionStates[Id(o, w, i)].Waiting?
    {
      BaseId(o, w, i);
    }
    assert s1.actionStates.Keys == BaseActionIds(o);
  }

  /** The vehicle after it has taken over an order and reached its first node. */
  function Begun(a: Agv, o: Order): Agv
    requires |o.nodes| > 0
  {
    var b := Publish(a.(order := Some(o), state := StateOf(o, a.state), pos := -1, cursor := Idle,
                        current := |a.decided|, decided := a.decided + [o]));
    Publish(b.(state := FirstState(o, a.state), pos := 0))
  }

  lemma {:induction false} BeginStartsList(a: Agv, o: Order)
    requires Chain(o)
    ensures Begin(a, o) == StartList(Begun(a, o), AtNode(0))
  {
    DropFirst(o, 0);
    assert o.nodes[0..] == o.nodes;
  }

  lemma {:induction false} BeginKeeps(a: Agv, o: Order)
    requires Inv(a)
    requires !IsActive(a.state) && Tame(o)
    ensures Walking(Begin(a, o))
  {
    InactiveIsQuiet(a);
    BeginStartsList(a, o);
    FirstStateReady(o, a.state);
    StartListKeeps(Begun(a, o), o, AtNode(0));
  }

  // ---------- Stitched orders ----------

  lemma {:induction false} ReleasedPrefix(nodes: seq<Node>, n: nat)
    requires n <= |nodes| && forall i :: 0 <= i < |nodes| ==> (nodes[i].released <==> i < n)
    ensures ReleasedNodes(NodeStates(nodes)) == NodeStates(nodes[..n])
  {
    if nodes != [] {
      assert NodeStates(nodes)[1..] == NodeStates(nodes[1..]);
      ReleasedPrefix(nodes[1..], if n > 0 then n - 1 else 0);
      if n > 0 {
        assert nodes[..n][1..] == nodes[1..][..n - 1];
      }
    }
  }

  lemma {:induction false} ReleasedEdgePrefix(edges: seq<Edge>, n: nat)
    requires n <= |edges| && forall i :: 0 <= i < |edges| ==> (edges[i].released <==> i < n)
    ensures ReleasedEdges(EdgeStates(edges)) == EdgeStates(edges[..n])
  {
    if edges != [] {
      assert EdgeStates(edges)[1..] == EdgeStates(edges[1..]);
      ReleasedEdgePrefix(edges[1..], if n > 0 then n - 1 else 0);
      if n > 0 {
        assert edges[..n][1..] == edges[1..][..n - 1];
      }
    }
  }

  /** An order that can be stitched onto `present`, with ids of its own. */
  ghost predicate Mergeable(present: Order, o: Order) {
    && AlignedChain(present) && AlignedChain(o) && ExtendsBase(present, o)
    && UniqueIds(Stitch(present, o))
  }

  /** The result can be walked as well. */
  ghost predicate Stitchable(present: Order, o: Order) {
    Mergeable(present, o) && Tame(Stitch(present, o))
  }

  /**
   Something still leads to the actions of the first node of `o`: the end of the base is ahead, one of its HARD actions
   has not ended, or any of its actions if the new ones start with a HARD one.
   */
  predicate Continues(present: Order, o: Order, s: State)
    requires HasBase(present) && |o.nodes| > 0
  {
    var acts, added := BaseEnd(present).actions, o.nodes[0].actions;
    || added == []
    || HasNodeState(s.nodeStates, BaseEnd(present))
    || (exists i :: 0 <= i < |acts| && acts[i].blockingType.Hard? && !IsEnded(s, acts[i].actionId))
    || (added[0].blockingType.Hard? && !AllEnded(s, acts))
  }

  function StitchedState(present: Order, o: Order, s: State): State
    requires |o.nodes| > 0
  {
    State(o.orderId, o.orderUpdateId,
          ReleasedNodes(s.nodeStates) + NodeStates(o.nodes[1..]), ReleasedEdges(s.edgeStates) + EdgeStates(o.edges),
          s.actionStates + ActionStates(o), s.lastNodeId, s.lastNodeSequenceId, [])
  }

  lemma {:induction false} JoinNodeStates(base: seq<Node>, added: seq<Node>, all: seq<Node>, b: nat, from: nat)
    requires 0 < from <= b <= |base| && |added| > 0 && |all| == b - 1 + |added|
    requires forall i :: 0 <= i < b ==> all[i].(actions := []) == base[i].(actions := [])
    requires forall i :: b <= i < |all| ==> all[i] == added[i - (b - 1)]
    ensures NodeStates(base[from..][..b - from]) + NodeStates(added[1..]) == NodeStates(all[from..])
  {
    var joined := NodeStates(base[from..][..b - from]) + NodeStates(added[1..]);
    forall i | from <= i < |all|
      ensures joined[i - from] == NodeState(all[i].nodeId, all[i].sequenceId, all[i].released)
    {
      if i < b {
        assert base[from..][..b - from][i - from] == base[i];
        assert all[i].(actions := []) == base[i].(actions := []);
      } else {
        assert added[1..][i - b] == added[i - (b - 1)];
      }
    }
  }

  lemma {:induction false} JoinEdgeStates(base: seq<Edge>, added: seq<Edge>, all: seq<Edge>, b: nat, from: nat)
    requires from <= b <= |base| && |all| == b + |added|
    requires forall i :: 0 <= i < b ==> all[i] == base[i]
    requires forall i :: b <= i < |all| ==> all[i] == added[i - b]
    ensures EdgeStates(base[from..][..b - from]) + EdgeStates(added) == EdgeStates(all[from..])
  {
    var joined := EdgeStates(base[from..][..b - from]) + EdgeStates(added);
    forall i | from <= i < |all|
      ensures joined[i - from] == EdgeState(all[i].edgeId, all[i].sequenceId, all[i].released)
    {
      if i < b {
        assert base[from..][..b - from][i - from] == base[i];
      }
    }
  }

  /** Stitching drops the states of the old horizon and appends those of the new nodes and edges. */
  lemma {:induction false} StitchedNodeStates(present: Order, o: Order, pos: nat)
    requires AlignedChain(present) && Chain(o) && pos < BaseLen(present.nodes)
    ensures ReleasedNodes(NodeStates(present.nodes[pos + 1..])) + NodeStates(o.nodes[1..])
      == NodeStates(Stitch(present, o).nodes[pos + 1..])
  {
    var b := BaseLen(present.nodes);
    StitchNodeParts(present, o);
    NodesAhead(present, pos);
    ReleasedPrefix(present.nodes[pos + 1..], b - pos - 1);
    JoinNodeStates(present.nodes, o.nodes, Stitch(present, o).nodes, b, pos + 1);
  }

  lemma {:induction false} StitchedEdgeStates(present: Order, o: Order, pos: nat)
    requires AlignedChain(present) && Chain(o) && pos < BaseLen(present.nodes)
    ensures ReleasedEdges(EdgeStates(present.edges[pos..])) + EdgeStates(o.edges)
      == EdgeStates(Stitch(present, o).edges[pos..])
  {
    var b, edges := BaseLen(present.nodes), Stitch(present, o).edges;
    forall k: nat
      ensures |edges| == b - 1 + |o.edges|
      ensures k < b - 1 ==> k < |edges| && edges[k] == present.edges[k]
      ensures b - 1 <= k < |edges| ==> edges[k] == o.edges[k - (b - 1)]
    {
      StitchedEdgeOwner(present, o, k);
    }
    EdgesAhead(present, pos);
    ReleasedEdgePrefix(present.edges[pos..], b - 1 - pos);
    JoinEdgeStates(present.edges, o.edges, edges, b - 1, pos);
  }

  lemma {:induction false} NodesAhead(o: Order, pos: nat)
    requires AlignedChain(o) && pos < BaseLen(o.nodes)
    ensures var ahead := o.nodes[pos + 1..];
      forall i :: 0 <= i < |ahead| ==> (ahead[i].released <==> i < BaseLen(o.nodes) - pos - 1)
  {
  }

  lemma {:induction false} EdgesAhead(o: Order, pos: nat)
    requires AlignedChain(o) && pos < BaseLen(o.nodes)
    ensures BaseLen(o.nodes) - 1 <= |o.edges|
    ensures forall i :: 0 <= i < |o.edges[pos..]| ==> (o.edges[pos..][i].released <==> i < BaseLen(o.nodes) - 1 - pos)
  {
    forall i | 0 <= i < |o.edges[pos..]|
      ensures o.edges[pos..][i].released <==> i < BaseLen(o.nodes) - 1 - pos
    {
      assert o.edges[pos + i].released == o.nodes[pos + i + 1].released;
    }
  }

  /** The actions an owner of the present base is given by the new order. */
  function Added(present: Order, o: Order, w: Owner): seq<Action>
    requires |o.nodes| > 0
  {
    if w.AtNode? && w.index + 1 == BaseLen(present.nodes) then o.nodes[0].actions else []
  }

  /** An action of the stitched order is one of the present base, or one of the new order. */
  lemma {:induction false} StitchedOwner(present: Order, o: Order, w: Owner)
    requires AlignedChain(present) && AlignedChain(o) && ExtendsBase(present, o)
    ensures var d, s := BaseLen(present.nodes) - 1, Stitch(present, o);
      && (Rank(w) <= 2 * d ==>
            InBase(s, w) && InBase(present, w) && ActionsOf(s, w) == ActionsOf(present, w) + Added(present, o, w))
      && (Rank(w) > 2 * d && InBase(s, w) ==>
            InBase(o, Shifted(w, d)) && Shifted(w, d) != AtNode(0) && ActionsOf(s, w) == ActionsOf(o, Shifted(w, d)))
  {
    match w
    case AtNode(k) => StitchedNodeOwner(present, o, k);
    case OnEdge(k) => StitchedEdgeOwner(present, o, k);
  }

  lemma {:induction false} StitchedEdgeOwner(present: Order, o: Order, k: nat)
    requires AlignedChain(present) && Chain(o)
    ensures var b, edges := BaseLen(present.nodes), Stitch(present, o).edges;
      && |edges| == b - 1 + |o.edges|
      && (k < b - 1 ==> k < |edges| && edges[k] == present.edges[k] && present.edges[k].released)
      && (b - 1 <= k < |edges| ==> edges[k] == o.edges[k - (b - 1)])
  {
    StitchParts(present, o);
    AlignedEdgeBase(present);
  }

  lemma {:induction false} StitchedNodeOwner(present: Order, o: Order, k: nat)
    requires AlignedChain(present) && Chain(o)
    ensures var d, nodes := BaseLen(present.nodes) - 1, Stitch(present, o).nodes;
      && |nodes| == d + |o.nodes|
      && (k < d ==> nodes[k] == present.nodes[k])
      && (k == d ==> nodes[k] == present.nodes[k].(actions := present.nodes[k].actions + o.nodes[0].actions))
      && (d < k < |nodes| ==> nodes[k] == o.nodes[k - d])
  {
    StitchParts(present, o);
  }

  /** The same owner seen from the order that was stitched at node `d`. */
  function Shifted(w: Owner, d: nat): Owner {
    match w
    case AtNode(k) => AtNode(if k < d then 0 else k - d)
    case OnEdge(k) => OnEdge(if k < d then 0 else k - d)
  }

  lemma {:induction false} StitchedIds(present: Order, o: Order)
    requires Mergeable(present, o)
    ensures BaseActionIds(Stitch(present, o)) == BaseActionIds(present) + BaseActionIds(o)
    ensures BaseActionIds(present) !! BaseActionIds(o)
  {
    forall id | id in BaseActionIds(Stitch(present, o))
      ensures id in BaseActionIds(present) + BaseActionIds(o)
    {
      var w, i := OwnerOfId(Stitch(present, o), id);
      StitchedIdFrom(present, o, w, i);
    }
    forall id | id in BaseActionIds(present)
      ensures id in BaseActionIds(Stitch(present, o)) && id !in BaseActionIds(o)
    {
      PresentIdKept(present, o, id);
    }
    forall id | id in BaseActionIds(o)
      ensures id in BaseActionIds(Stitch(present, o))
    {
      var v, j := AddedOwner(present, o, id);
      BaseId(Stitch(present, o), v, j);
    }
  }

  /** An action of the stitched base comes from the present one, or from the new order. */
  lemma {:induction false} StitchedIdFrom(present: Order, o: Order, w: Owner, i: nat)
    requires Mergeable(present, o) && InBase(Stitch(present, o), w) && IsAction(Stitch(present, o), w, i)
    ensures var id, d := Id(Stitch(present, o), w, i), BaseLen(present.nodes) - 1;
      if Rank(w) <= 2 * d && InOrder(present, w) && i < |ActionsOf(present, w)| then
        InBase(present, w) && Id(present, w, i) == id && id in BaseActionIds(present)
      else
        id in BaseActionIds(o) && (Rank(w) > 2 * d || w == AtNode(d))
  {
    var d := BaseLen(present.nodes) - 1;
    StitchedOwner(present, o, w);
    if Rank(w) > 2 * d {
      BaseId(o, Shifted(w, d), i);
    } else if i < |ActionsOf(present, w)| {
      BaseId(present, w, i);
    } else {
      BaseId(o, AtNode(0), i - |ActionsOf(present, w)|);
    }
  }

  lemma {:induction false} PresentIdKept(present: Order, o: Order, id: string)
    requires Mergeable(present, o) && id in BaseActionIds(present)
    ensures id in BaseActionIds(Stitch(present, o)) && id !in BaseActionIds(o)
  {
    var s := Stitch(present, o);
    var w, i := OwnerOfId(present, id);
    BaseOwners(present, w);
    StitchedOwner(present, o, w);
    BaseId(s, w, i);
    assert Id(s, w, i) == id;
    if id in BaseActionIds(o) {
      var v, j := AddedOwner(present, o, id);
      assert false;
    }
  }

  /** Where an action of the new order stands in the stitched one. */
  lemma {:induction false} AddedOwner(present: Order, o: Order, id: string) returns (w: Owner, i: nat)
    requires Mergeable(present, o) && id in BaseActionIds(o)
    ensures InBase(Stitch(present, o), w) && Rank(w) >= 2 * (BaseLen(present.nodes) - 1)
    ensures Rank(w) == 2 * (BaseLen(present.nodes) - 1) ==> InOrder(present, w) && i >= |ActionsOf(present, w)|
    ensures IsAction(Stitch(present, o), w, i) && Id(Stitch(present, o), w, i) == id
  {
    var d := BaseLen(present.nodes) - 1;
    var v, j := OwnerOfId(o, id);
    match v {
      case AtNode(k) =>
        w, i := AtNode(k + d), if k == 0 then j + |present.nodes[d].actions| else j;
        AddedNodeAction(present, o, k, j);
      case OnEdge(k) =>
        w, i := OnEdge(k + d), j;
        StitchedEdgeOwner(present, o, k + d);
        assert Stitch(present, o).edges[k + d] == o.edges[k];
    }
  }

  lemma {:induction false} AddedNodeAction(present: Order, o: Order, k: nat, j: nat)
    requires Mergeable(present, o) && InBase(o, AtNode(k)) && j < |o.nodes[k].actions|
    ensures var d, s := BaseLen(present.nodes) - 1, Stitch(present, o);
      var i := if k == 0 then j + |present.nodes[d].actions| else j;
      InBase(s, AtNode(k + d)) && i < |s.nodes[k + d].actions| && s.nodes[k + d].actions[i] == o.nodes[k].actions[j]
  {
    StitchedNodeOwner(present, o, k + BaseLen(present.nodes) - 1);
  }

  lemma {:induction false} StitchedRoute(present: Order, o: Order, s: State, pos: int)
    requires Stitchable(present, o) && OnRoute(present, s, pos)
    ensures OnRoute(Stitch(present, o), StitchedState(present, o, s), pos)
  {
    StitchParts(present, o);
    StitchKeepsAlignedChain(present, o);
    StitchedNodeStates(present, o, pos);
    StitchedEdgeStates(present, o, pos);
    StitchedIds(present, o);
    assert StitchedState(present, o, s).actionStates.Keys == BaseActionIds(Stitch(present, o));
  }

  lemma {:induction false} StitchedBetween(present: Order, o: Order, s: State, settled: int, untouched: int)
    requires Stitchable(present, o) && s.actionStates.Keys == BaseActionIds(present)
    requires Between(present, s, settled, untouched) && settled <= 2 * BaseLen(present.nodes) - 1
    requires o.nodes[0].actions == [] || settled <= 2 * (BaseLen(present.nodes) - 1)
    ensures Between(Stitch(present, o), StitchedState(present, o, s), settled, untouched)
  {
    var stitched, s' := Stitch(present, o), StitchedState(present, o, s);
    StitchedIds(present, o);
    forall w: Owner, i: nat | IsAction(stitched, w, i) && InBase(stitched, w)
      ensures Rank(w) < settled ==> IsEnded(s', Id(stitched, w, i))
      ensures untouched <= Rank(w) ==>
        Id(stitched, w, i) in s'.actionStates && s'.actionStates[Id(stitched, w, i)].Waiting?
    {
      StitchedIdFrom(present, o, w, i);
      StitchedOwner(present, o, w);
    }
  }

  /** The end node of the base has been reached exactly when its state is gone. */
  lemma {:induction false} BaseEndReached(o: Order, s: State, pos: int)
    requires OnRoute(o, s, pos)
    ensures HasNodeState(s.nodeStates, o.nodes[BaseLen(o.nodes) - 1]) <==> pos < BaseLen(o.nodes) - 1
  {
    var end := BaseLen(o.nodes) - 1;
    if pos < end {
      assert s.nodeStates[end - pos - 1] in s.nodeStates;
    } else {
      forall st | st in s.nodeStates
        ensures st.sequenceId != o.nodes[end].sequenceId
      {
        var i :| 0 <= i < |s.nodeStates| && s.nodeStates[i] == st;
        assert st.sequenceId == o.nodes[pos + 1 + i].sequenceId;
      }
    }
  }

  /** Unless added actions are overlooked, a stitched order goes on from whatever the vehicle is doing. */
  lemma {:induction false} ExtendKeeps(a: Agv, o: Order)
    requires Walking(a) && a.todo == [] && Stitchable(a.order.value, o) && CanStitch(a, o)
    requires Continues(a.order.value, o, a.state)
    ensures Walking(Extend(a, o))
  {
    match a.cursor
    case Idle =>
      IdleContinues(a, o);
      ExtendIdle(a, o);
    case Driving(k) => ExtendDriving(a, o);
    case Processing(w) => ExtendProcessing(a, o);
    case _ =>
  }

  /** At the end of the base, with everything ended, only an order without actions on its first node goes on. */
  lemma {:induction false} IdleContinues(a: Agv, o: Order)
    requires Walking(a) && a.cursor.Idle? && |o.nodes| > 0
    ensures Continues(a.order.value, o, a.state) <==> o.nodes[0].actions == []
  {
    BaseEndEnded(a, a.order.value);
    EndedContinues(a.order.value, o, a.state);
  }

  lemma {:induction false} BaseEndEnded(a: Agv, present: Order)
    requires Walking(a) && a.order == Some(present) && a.cursor.Idle?
    ensures HasBase(present) && !HasNodeState(a.state.nodeStates, BaseEnd(present))
      && AllEnded(a.state, BaseEnd(present).actions)
  {
    BaseEndReached(present, a.state, a.pos);
    EndSettled(present, a.state, a.pos);
  }

  lemma {:induction false} EndedContinues(present: Order, o: Order, s: State)
    requires HasBase(present) && |o.nodes| > 0
    requires !HasNodeState(s.nodeStates, BaseEnd(present)) && AllEnded(s, BaseEnd(present).actions)
    ensures Continues(present, o, s) <==> o.nodes[0].actions == []
  {
  }

  /** The vehicle after a stitching order was taken over, before anything is started. */
  function Extended(a: Agv, o: Order): Agv
    requires |o.nodes| > 0 && CanStitch(a, o)
  {
    Publish(a.(order := Some(Stitch(a.order.value, o)), state := StitchedState(a.order.value, o, a.state),
               current := |a.decided|, decided := a.decided + [o]))
  }

  /** The end of the base is ahead, or has an action that has not ended, the new ones included. */
  predicate Waits(present: Order, o: Order, s: State)
    requires HasBase(present) && |o.nodes| > 0
  {
    var end := BaseLen(present.nodes) - 1;
    HasNodeState(s.nodeStates, present.nodes[end]) || !AllEnded(s, Stitch(present, o).nodes[end].actions)
  }

  /** Then stitching starts nothing. */
  lemma {:induction false} NothingStarted(a: Agv, o: Order)
    requires |o.nodes| > 0 && CanStitch(a, o) && Waits(a.order.value, o, a.state)
    ensures Extend(a, o) == Extended(a, o)
  {
  }

  lemma {:induction false} ExtendIdle(a: Agv, o: Order)
    requires Walking(a) && Stitchable(a.order.value, o) && CanStitch(a, o) && a.cursor.Idle?
    requires o.nodes[0].actions == []
    ensures Walking(Extend(a, o)) && Extend(a, o) == ProcessEdge(Extended(a, o), a.pos)
  {
    IdleReady(a, o);
    BaseEndReached(a.order.value, a.state, a.pos);
    EndSettled(a.order.value, a.state, a.pos);
    assert Stitch(a.order.value, o).nodes[a.pos].actions == a.order.value.nodes[a.pos].actions;
    LeaveKeeps(Extended(a, o), Stitch(a.order.value, o), AtNode(a.pos));
  }

  /** At the end of the base the edge that was stitched on is next. */
  lemma {:induction false} IdleReady(a: Agv, o: Order)
    requires Walking(a) && Stitchable(a.order.value, o) && CanStitch(a, o) && a.cursor.Idle?
    requires o.nodes[0].actions == []
    ensures Ready(Extended(a, o), Stitch(a.order.value, o), AtNode(a.pos), 2 * a.pos + 1)
    ensures Stitch(a.order.value, o).nodes[a.pos].actions == a.order.value.nodes[a.pos].actions
  {
    var present, end := a.order.value, a.pos;
    StitchedRoute(present, o, a.state, a.pos);
    StitchedOwner(present, o, AtNode(end));
    IdleBetween(present, a.state, end);
    StitchedBetween(present, o, a.state, 2 * end + 1, 2 * end + 1);
    assert ActionsOf(Stitch(present, o), AtNode(end)) == ActionsOf(present, AtNode(end)) + [];
  }

  lemma {:induction false} IdleBetween(o: Order, s: State, end: int)
    requires AlignedChain(o) && end == BaseLen(o.nodes) - 1 && Settled(o, s, 2 * end + 1)
    ensures Between(o, s, 2 * end + 1, 2 * end + 1)
  {
    forall w: Owner | InBase(o, w)
      ensures Rank(w) < 2 * end + 1
    {
      BaseOwners(o, w);
    }
  }

  lemma {:induction false} ExtendDriving(a: Agv, o: Order)
    requires Walking(a) && Stitchable(a.order.value, o) && CanStitch(a, o) && a.cursor.Driving?
    ensures Walking(Extend(a, o))
  {
    var present, k := a.order.value, a.cursor.edge;
    StitchedRoute(present, o, a.state, a.pos);
    ExtendWhileDriving(a, o);
    BaseOwners(present, OnEdge(k));
    StitchedOwner(present, o, OnEdge(k));
    StitchedBetween(present, o, a.state, 2 * k + 2, 2 * k + 2);
  }

  /** While an edge is traversed, stitching starts nothing. */
  lemma {:induction false} ExtendWhileDriving(a: Agv, o: Order)
    requires Walking(a) && Chain(o) && CanStitch(a, o) && a.cursor.Driving?
    ensures Extend(a, o) == Extended(a, o)
  {
    BaseEndReached(a.order.value, a.state, a.pos);
    BaseOwners(a.order.value, OnEdge(a.cursor.edge));
    NothingStarted(a, o);
  }

  lemma {:induction false} ExtendProcessing(a: Agv, o: Order)
    requires Walking(a) && a.todo == [] && Stitchable(a.order.value, o) && CanStitch(a, o) && a.cursor.Processing?
    requires Continues(a.order.value, o, a.state)
    ensures Walking(Extend(a, o))
  {
    var present, w := a.order.value, a.cursor.owner;
    StitchedRoute(present, o, a.state, a.pos);
    ExtendWhileProcessing(a, o);
    BaseOwners(present, w);
    StitchedOwner(present, o, w);
    StitchedBetween(present, o, a.state, Rank(w), Rank(w) + 1);
    StitchedTracks(a, present, o, w);
    StitchedList(a, present, o, w);
  }

  /** The list being processed goes on to the actions it is given. */
  lemma {:induction false} StitchedList(a: Agv, present: Order, o: Order, w: Owner)
    requires Walking(a) && a.todo == [] && a.order == Some(present) && |o.nodes| > 0 && a.cursor == Processing(w)
    requires Continues(present, o, a.state)
    ensures Lists.Inv(ActionsOf(present, w) + Added(present, o, w), a.list)
  {
    var acts := ActionsOf(present, w);
    if w == AtNode(BaseLen(present.nodes) - 1) {
      ContinuesIsJoins(a, present, o);
      assert Lists.UnderWay(acts, a.list);
      Lists.AppendKeepsIff(acts, o.nodes[0].actions, a.list);
    } else {
      assert acts + [] == acts;
    }
  }

  /** While the list of the base end is processed, that is a matter of this list. */
  lemma {:induction false} ContinuesIsJoins(a: Agv, present: Order, o: Order)
    requires Walking(a) && a.order == Some(present) && |o.nodes| > 0
    requires a.cursor == Processing(AtNode(BaseLen(present.nodes) - 1))
    ensures HasBase(present)
    ensures Continues(present, o, a.state) <==> Lists.Joins(BaseEnd(present).actions, a.list.ended, o.nodes[0].actions)
  {
    BaseEndReached(present, a.state, a.pos);
    EndedListed(a, present, AtNode(BaseLen(present.nodes) - 1));
    JoinsByState(present, o, a.state);
  }

  lemma {:induction false} EndedListed(a: Agv, o: Order, w: Owner)
    requires Walking(a) && a.order == Some(o) && a.cursor == Processing(w)
    ensures HasBase(o) && InOrder(o, w) && a.list.ended == EndedIndices(a.state, ActionsOf(o, w))
  {
  }

  lemma {:induction false} JoinsByState(present: Order, o: Order, s: State)
    requires HasBase(present) && |o.nodes| > 0 && !HasNodeState(s.nodeStates, BaseEnd(present))
    ensures var acts := BaseEnd(present).actions;
      Continues(present, o, s) <==> Lists.Joins(acts, EndedIndices(s, acts), o.nodes[0].actions)
  {
    var acts := BaseEnd(present).actions;
    assert forall i: nat :: i < |acts| ==> (i in EndedIndices(s, acts) <==> IsEnded(s, acts[i].actionId));
  }

  /** While a list is processed, stitching starts nothing. */
  lemma {:induction false} ExtendWhileProcessing(a: Agv, o: Order)
    requires Walking(a) && Chain(o) && CanStitch(a, o) && a.cursor.Processing?
    ensures Extend(a, o) == Extended(a, o)
  {
    ProcessingWaits(a, a.order.value, o);
    NothingStarted(a, o);
  }

  /** The end of the base is ahead, or has an action that goes on. */
  lemma {:induction false} ProcessingWaits(a: Agv, present: Order, o: Order)
    requires Walking(a) && a.order == Some(present) && AlignedChain(present) && Chain(o) && a.cursor.Processing?
    ensures Waits(present, o, a.state)
  {
    BaseEndReached(present, a.state, a.pos);
    if a.pos == BaseLen(present.nodes) - 1 {
      BaseEndWaits(a, present);
      StitchedNodeOwner(present, o, a.pos);
      UnendedWithMore(a.state, present.nodes[a.pos].actions, o.nodes[0].actions);
    }
  }

  lemma {:induction false} BaseEndWaits(a: Agv, present: Order)
    requires Walking(a) && a.order == Some(present) && a.cursor.Processing? && a.pos == BaseLen(present.nodes) - 1
    ensures !AllEnded(a.state, present.nodes[a.pos].actions)
  {
    BaseOwners(present, a.cursor.owner);
    ProcessingIsActive(a, present);
  }

  lemma {:induction false} UnendedWithMore(s: State, acts: seq<Action>, added: seq<Action>)
    requires !AllEnded(s, acts)
    ensures !AllEnded(s, acts + added)
  {
    var i :| 0 <= i < |acts| && !IsEnded(s, acts[i].actionId);
    assert (acts + added)[i] == acts[i];
  }

  lemma {:induction false} EndSettled(o: Order, s: State, end: nat)
    requires end < |o.nodes| && o.nodes[end].released && Settled(o, s, 2 * end + 1)
    ensures AllEnded(s, o.nodes[end].actions)
  {
    forall i | 0 <= i < |o.nodes[end].actions|
      ensures IsEnded(s, o.nodes[end].actions[i].actionId)
    {
      assert IsAction(o, AtNode(end), i) && InBase(o, AtNode(end));
      assert IsEnded(s, Id(o, AtNode(end), i));
    }
  }

  lemma {:induction false} StitchedTracks(a: Agv, present: Order, o: Order, w: Owner)
    requires Stitchable(present, o) && InBase(present, w) && a.state.actionStates.Keys == BaseActionIds(present)
    requires ListInv(ActionsOf(present, w), w, a.list, a.state, a.todo, a.running)
    ensures Tracks(ActionsOf(present, w) + Added(present, o, w), w, a.list, StitchedState(present, o, a.state), a.todo,
                   a.running)
  {
    var acts, s' := ActionsOf(present, w), StitchedState(present, o, a.state);
    StatusKept(present, o, a.state, w);
    SameTracks(acts, w, a, s');
    AddedWaiting(present, o, a.state, w);
    MoreTracks(acts, Added(present, o, w), w, a, s');
  }

  /** The statuses of the present actions stay as they are. */
  lemma {:induction false} StatusKept(present: Order, o: Order, s: State, w: Owner)
    requires Mergeable(present, o) && InBase(present, w) && s.actionStates.Keys == BaseActionIds(present)
    ensures var acts, s' := ActionsOf(present, w), StitchedState(present, o, s);
      forall i :: 0 <= i < |acts| ==>
        && acts[i].actionId in s.actionStates && acts[i].actionId in s'.actionStates
        && s'.actionStates[acts[i].actionId] == s.actionStates[acts[i].actionId]
  {
    StitchedIds(present, o);
    var acts := ActionsOf(present, w);
    forall i | 0 <= i < |acts|
      ensures acts[i].actionId in BaseActionIds(present)
    {
      assert Id(present, w, i) == acts[i].actionId;
      BaseId(present, w, i);
    }
  }

  lemma {:induction false} AddedWaiting(present: Order, o: Order, s: State, w: Owner)
    requires HasBase(o)
    ensures var added, s' := Added(present, o, w), StitchedState(present, o, s);
      forall i :: 0 <= i < |added| ==>
        added[i].actionId in s'.actionStates && s'.actionStates[added[i].actionId].Waiting?
  {
    var added := Added(present, o, w);
    forall i | 0 <= i < |added|
      ensures added[i].actionId in BaseActionIds(o)
    {
      assert Id(o, AtNode(0), i) == added[i].actionId;
      BaseId(o, AtNode(0), i);
    }
  }

  /** Waiting actions can be appended to a list without touching what is known of it. */
  lemma {:induction false} MoreTracks(acts: seq<Action>, added: seq<Action>, w: Owner, a: Agv, s': State)
    requires Tracks(acts, w, a.list, s', a.todo, a.running) && |a.list.log| <= |acts|
    requires forall i :: 0 <= i < |added| ==>
      added[i].actionId in s'.actionStates && s'.actionStates[added[i].actionId].Waiting?
    ensures Tracks(acts + added, w, a.list, s', a.todo, a.running)
  {
    var all, d := acts + added, |a.list.log|;
    forall i: nat | i < |all|
      ensures i in EndedIndices(s', all) <==> i in EndedIndices(s', acts)
    {
      if i >= |acts| {
        assert all[i] == added[i - |acts|];
      }
    }
    assert EndedIndices(s', all) == EndedIndices(s', acts);
    assert RunningIds(all, d, a.list.ended) == RunningIds(acts, d, a.list.ended) by {
      assert forall i :: 0 <= i < d ==> all[i] == acts[i];
    }
  }

  lemma {:induction false} SameTracks(acts: seq<Action>, w: Owner, a: Agv, s': State)
    requires Tracks(acts, w, a.list, a.state, a.todo, a.running)
    requires forall i :: 0 <= i < |acts| ==>
      && acts[i].actionId in a.state.actionStates && acts[i].actionId in s'.actionStates
      && s'.actionStates[acts[i].actionId] == a.state.actionStates[acts[i].actionId]
    ensures Tracks(acts, w, a.list, s', a.todo, a.running)
  {
    assert EndedIndices(s', acts) == EndedIndices(a.state, acts);
  }

  // ---------- Runs ----------

  /** The message or callback is one of a run without cancelation, over orders that can be walked step by step. */
  ghost predicate Ordinary(a: Agv, e: Event) {
    match e
    case OrderArrives(o, c) =>
      (match Decide(a, o, c)
       case AcceptNew => Tame(o)
       case AcceptUpdate => Tame(o)
       case AcceptStitch => Stitchable(a.order.value, o) && Continues(a.order.value, o, a.state)
       case _ => true)
    case CancelArrives => false
    case _ => true
  }

  /** All that can happen in such a run. */
  lemma {:induction false} OrdinaryEvents(a: Agv, e: Event)
    requires Undisturbed(a) && Enabled(a, e) && Ordinary(a, e)
    ensures e.OrderArrives? || e.ActionUpdate? || e.EdgeTraversed? || e.CallReturns? || e.StateDue?
  {
  }

  /** A vehicle on its way stays so, and one at rest only leaves that state to begin an order. */
  ghost predicate KeepsRest(a: Agv, b: Agv) {
    && (Walking(a) ==> Walking(b))
    && (Walking(b) || (b.cursor == a.cursor && b.pos == a.pos && b.current == a.current
                       && b.state.orderId == a.state.orderId && b.state.orderUpdateId == a.state.orderUpdateId))
  }

  lemma {:induction false} OrderKeeps(a: Agv, o: Order, c: Checks)
    requires Inv(a) && a.todo == []
    requires Ordinary(a, OrderArrives(o, c))
    ensures Inv(ProcessOrder(a, o, c)) && KeepsRest(a, ProcessOrder(a, o, c))
  {
    match Decide(a, o, c)
    case Reject => ErrorsOnly(a, a.state.errors + [Rejection(o.orderId, o.orderUpdateId)], a.decided + [o]);
    case Discard => ErrorsOnly(a, a.state.errors, a.decided + [o]);
    case AcceptNew => BeginKeeps(a, o);
    case AcceptUpdate => BeginKeeps(a, o);
    case AcceptStitch => ExtendKeeps(a, o);
  }

  lemma {:induction false} ErrorsOnly(a: Agv, errors: seq<Rejection>, decided: seq<Order>)
    requires Inv(a)
    ensures var b := Publish(a.(state := a.state.(errors := errors), decided := decided)); Inv(b) && KeepsRest(a, b)
  {
    if Walking(a) {
      ErrorsWalking(a, errors, decided);
    }
  }

  lemma {:induction false} ErrorsWalking(a: Agv, errors: seq<Rejection>, decided: seq<Order>)
    requires Walking(a)
    ensures Walking(Publish(a.(state := a.state.(errors := errors), decided := decided)))
  {
    if a.cursor.Processing? {
      SameTracks(ActionsOf(a.order.value, a.cursor.owner), a.cursor.owner, a, a.state.(errors := errors));
    }
  }

  /** The invariant is kept by every step. */
  lemma {:induction false} StepKeeps(a: Agv, e: Event)
    requires Inv(a) && Enabled(a, e) && Ordinary(a, e)
    ensures Inv(Step(a, e)) && KeepsRest(a, Step(a, e))
  {
    match e {
      case OrderArrives(o, c) => OrderKeeps(a, o, c);
      case ActionUpdate(w, i, status) => ActionUpdateKeeps(a, a.order.value, w, i, status);
      case EdgeTraversed(k) => EdgeTraversedKeeps(a, a.order.value, k);
      case CallReturns => CallReturnsKeeps(a, a.order.value);
      case StateDue => ErrorsOnly(a, a.state.errors, a.decided);
      case _ =>
    }
  }
}
