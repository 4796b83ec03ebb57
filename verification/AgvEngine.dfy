/**
 The order engine of the AGV controller as a state machine: one step per message, adapter callback, or return
 of an adapter call. Nodes and edges are referred to by their index in the current order.
 */
module AgvEngine {
  import opened Orders
  import Lists = ActionLists

  // ---------- Reported state ----------

  datatype NodeState = NodeState(nodeId: string, sequenceId: int, released: bool)

  datatype EdgeState = EdgeState(edgeId: string, sequenceId: int, released: bool)

  /** An order rejection error, by the order it refers to. */
  datatype Rejection = Rejection(orderId: string, orderUpdateId: nat)

  datatype State = State(
    orderId: string, orderUpdateId: nat,
    nodeStates: seq<NodeState>, edgeStates: seq<EdgeState>, actionStates: map<string, Status>,
    lastNodeId: string, lastNodeSequenceId: int, errors: seq<Rejection>)

  // ---------- Adapter side ----------

  /** Where a list of actions stands in the current order. */
  datatype Owner = AtNode(index: nat) | OnEdge(index: nat)

  datatype Call =
    | ExecuteAction(owner: Owner, index: nat, stopDriving: bool)
    | FinishEdgeAction(edge: nat, index: nat)
    | TraverseEdge(edge: nat)
    | CancelActions(actionIds: set<string>)
    | StopTraverse

  /** What the adapter and the vehicle state answer to an arriving order. */
  datatype Checks = Checks(
    routeTraversable: bool, actionsExecutable: bool, charging: bool, emergencyStop: bool,
    fieldViolation: bool, automatic: bool, withinDeviation: bool)

  /** A dispatch loop of a list that goes on when the adapter call returns. */
  datatype Pending = Pending(owner: Owner, loop: Lists.Loop)

  /** Where the engine is in its order. */
  datatype Cursor =
    | Nowhere             // no order yet
    | Processing(owner: Owner)
    | Driving(edge: nat)
    | Idle                // at the end of the base
    | Canceling
    | Canceled

  /** Facts about a report that are not sent: they only serve to state properties. */
  datatype Shadow = Shadow(order: Option<Order>, pos: int, current: int, decided: nat)

  datatype Report = Report(state: State, shadow: Shadow)

  datatype Agv = Agv(
    order: Option<Order>, state: State, canceling: bool,
    // calls into the adapter that have not returned, or whose callbacks are outstanding
    todo: seq<Pending>, running: set<string>, traversing: multiset<nat>, stopping: nat,
    calls: seq<Call>, sent: seq<Report>,
    // history: last node reached, place in the order, list being processed, orders decided, the accepted one among them
    pos: int, cursor: Cursor, list: Lists.Run, decided: seq<Order>, current: int)

  // ---------- Owners and their actions ----------

  predicate InOrder(o: Order, w: Owner) {
    match w
    case AtNode(k) => k < |o.nodes|
    case OnEdge(k) => k < |o.edges|
  }

  function ActionsOf(o: Order, w: Owner): seq<Action>
    requires InOrder(o, w)
  {
    match w
    case AtNode(k) => o.nodes[k].actions
    case OnEdge(k) => o.edges[k].actions
  }

  /** The owner is released, so its actions are reported. */
  predicate InBase(o: Order, w: Owner) {
    match w
    case AtNode(k) => k < |o.nodes| && o.nodes[k].released
    case OnEdge(k) => k < |o.edges| && o.edges[k].released
  }

  predicate IsAction(o: Order, w: Owner, i: nat) {
    InOrder(o, w) && i < |ActionsOf(o, w)|
  }

  function Id(o: Order, w: Owner, i: nat): string
    requires IsAction(o, w, i)
  {
    ActionsOf(o, w)[i].actionId
  }

  function NodeActionIds(nodes: seq<Node>): set<string> {
    set n, a | n in nodes && n.released && a in n.actions :: a.actionId
  }

  function EdgeActionIds(edges: seq<Edge>): set<string> {
    set e, a | e in edges && e.released && a in e.actions :: a.actionId
  }

  function BaseActionIds(o: Order): set<string> {
    NodeActionIds(o.nodes) + EdgeActionIds(o.edges)
  }

  // ---------- States derived from an order ----------

  function NodeStates(nodes: seq<Node>): seq<NodeState> {
    seq(|nodes|, i requires 0 <= i < |nodes| => NodeState(nodes[i].nodeId, nodes[i].sequenceId, nodes[i].released))
  }

  function EdgeStates(edges: seq<Edge>): seq<EdgeState> {
    seq(|edges|, i requires 0 <= i < |edges| => EdgeState(edges[i].edgeId, edges[i].sequenceId, edges[i].released))
  }

  function ActionStates(o: Order): map<string, Status> {
    map id | id in BaseActionIds(o) :: Waiting
  }

  function DropNodeState(states: seq<NodeState>, node: Node): seq<NodeState> {
    if states == [] then []
    else (if states[0].nodeId == node.nodeId && states[0].sequenceId == node.sequenceId then [] else [states[0]])
         + DropNodeState(states[1..], node)
  }

  function KeepNodeState(states: seq<NodeState>, node: Node): seq<NodeState> {
    if states == [] then []
    else (if states[0].nodeId == node.nodeId && states[0].sequenceId == node.sequenceId then [states[0]] else [])
         + KeepNodeState(states[1..], node)
  }

  function DropEdgeState(states: seq<EdgeState>, edge: Edge): seq<EdgeState> {
    if states == [] then []
    else (if states[0].edgeId == edge.edgeId && states[0].sequenceId == edge.sequenceId then [] else [states[0]])
         + DropEdgeState(states[1..], edge)
  }

  function ReleasedNodes(states: seq<NodeState>): seq<NodeState> {
    if states == [] then [] else (if states[0].released then [states[0]] else []) + ReleasedNodes(states[1..])
  }

  function ReleasedEdges(states: seq<EdgeState>): seq<EdgeState> {
    if states == [] then [] else (if states[0].released then [states[0]] else []) + ReleasedEdges(states[1..])
  }

  predicate HasNodeState(states: seq<NodeState>, node: Node) {
    exists s :: s in states && s.nodeId == node.nodeId && s.sequenceId == node.sequenceId
  }

  // ---------- Queries ----------

  predicate IsEnded(s: State, id: string) {
    id in s.actionStates && Ended(s.actionStates[id])
  }

  predicate AllEnded(s: State, acts: seq<Action>) {
    forall i :: 0 <= i < |acts| ==> IsEnded(s, acts[i].actionId)
  }

  function EndedIndices(s: State, acts: seq<Action>): set<nat> {
    set i: nat | i < |acts| && IsEnded(s, acts[i].actionId)
  }

  predicate IsActive(s: State) {
    || |s.nodeStates| > 0
    || |s.edgeStates| > 0
    || exists id :: id in s.actionStates && !Ended(s.actionStates[id])
  }

  /** All actions of the leading released nodes and edges have ended. */
  predicate AllBaseActionsEnded(s: State, o: Order) {
    && (forall k :: 0 <= k < BaseLen(o.nodes) ==> AllEnded(s, o.nodes[k].actions))
    && (forall k :: 0 <= k < EdgeBaseLen(o.edges) ==> AllEnded(s, o.edges[k].actions))
  }

  // ---------- Sending ----------

  function Publish(a: Agv): Agv {
    a.(sent := a.sent + [Report(a.state, Shadow(a.order, a.pos, a.current, |a.decided|))])
  }

  // ---------- Processing lists, nodes and edges ----------

  function Iterate(a: Agv, p: Pending): Agv
    requires a.order.Some? && IsAction(a.order.value, p.owner, p.loop.next)
  {
    a.(calls := a.calls + [ExecuteAction(p.owner, p.loop.next, p.loop.stopDriving)],
       running := a.running + {Id(a.order.value, p.owner, p.loop.next)},
       todo := if p.loop.next + 1 < p.loop.stop then a.todo + [p.(loop := p.loop.(next := p.loop.next + 1))]
               else a.todo)
  }

  /** Carries out what is next on the list of `w`. */
  function Perform(a: Agv, w: Owner, work: Lists.Work): Agv
    requires a.order.Some? && InOrder(a.order.value, w) && Lists.Fits(ActionsOf(a.order.value, w), work)
    decreases if w.AtNode? then 4 else 1
  {
    var a := a.(list := Lists.Perform(a.list, work));
    match work
    case Nothing => a
    case Single(i) => Iterate(a, Pending(w, Lists.Loop(i, i + 1, true)))
    case Block(from, stop, stopDriving) => Iterate(a, Pending(w, Lists.Loop(from, stop, stopDriving)))
    case Proceed =>
      match w
      case AtNode(k) => ProcessEdge(a, k)
      case OnEdge(k) => a.(calls := a.calls + [TraverseEdge(k)], traversing := a.traversing + multiset{k},
                           cursor := Driving(k))
  }

  /** Starts the list of `w`. */
  function StartList(a: Agv, w: Owner): Agv
    requires a.order.Some? && InOrder(a.order.value, w)
    decreases if w.AtNode? then 5 else 2
  {
    Perform(a.(cursor := Processing(w), list := Lists.Run([], {}, [], 0)), w,
            Lists.Open(ActionsOf(a.order.value, w), 0))
  }

  /** The edge after node `k`, if it is released, is next. */
  function ProcessEdge(a: Agv, k: nat): Agv
    requires a.order.Some? && k < |a.order.value.nodes|
    decreases 3
  {
    var o := a.order.value;
    var e := TrailingEdge(o.edges, o.nodes[k]);
    if e.None? || !o.edges[e.value].released then a.(cursor := Idle) else StartList(a, OnEdge(e.value))
  }

  /** Calls for the actions of an edge that have not ended when its end node is reached. */
  function FinishCalls(s: State, o: Order, e: nat, from: nat := 0): seq<Call>
    requires e < |o.edges| && from <= |o.edges[e].actions|
    decreases |o.edges[e].actions| - from
  {
    if from == |o.edges[e].actions| then []
    else (if IsEnded(s, o.edges[e].actions[from].actionId) then [] else [FinishEdgeAction(e, from)])
         + FinishCalls(s, o, e, from + 1)
  }

  /** Node `k` is reached, by way of edge `traversed` unless it is the first one. */
  function ProcessNode(a: Agv, k: nat, traversed: Option<nat>): Agv
    requires a.order.Some? && k < |a.order.value.nodes|
    requires traversed.Some? ==> traversed.value < |a.order.value.edges|
  {
    var o, node := a.order.value, a.order.value.nodes[k];
    if !node.released then a
    else
      var a1 := if traversed.None? then a else
        a.(calls := a.calls + FinishCalls(a.state, o, traversed.value),
           state := a.state.(edgeStates := DropEdgeState(a.state.edgeStates, o.edges[traversed.value])));
      var a2 := Publish(a1.(
        state := a1.state.(nodeStates := DropNodeState(a1.state.nodeStates, node), lastNodeId := node.nodeId,
                           lastNodeSequenceId := node.sequenceId),
        pos := k));
      StartList(a2, AtNode(k))
  }

  // ---------- Orders ----------

  datatype Decision = Reject | Discard | AcceptNew | AcceptUpdate | AcceptStitch

  /** The decision on an arriving order, in the order of the checks of the controller. */
  function Decide(a: Agv, o: Order, c: Checks): Decision {
    if !WellFormed(o) then Reject
    else if a.canceling then Reject
    else if !c.routeTraversable || !c.actionsExecutable then Reject
    else if c.charging || c.emergencyStop || c.fieldViolation || !c.automatic then Reject
    else if a.order.Some? && o.orderId == a.order.value.orderId then
      if o.orderUpdateId < a.order.value.orderUpdateId then Reject
      else if o.orderUpdateId == a.order.value.orderUpdateId then Discard
      else if IsActive(a.state) then
        if CanStitch(a, o) then AcceptStitch else Reject
      else
        if o.nodes[0].nodeId == a.state.lastNodeId
          && o.nodes[0].sequenceId == a.state.lastNodeSequenceId then AcceptUpdate else Reject
    else if IsActive(a.state) then
      if CanStitch(a, o) then AcceptStitch else Reject
    else
      if c.withinDeviation then AcceptNew else Reject
  }

  predicate CanStitch(a: Agv, o: Order)
    requires |o.nodes| > 0
  {
    a.order.Some? && HasBase(a.order.value) && ExtendsBase(a.order.value, o)
  }

  function StateOf(o: Order, s: State): State {
    State(o.orderId, o.orderUpdateId, NodeStates(o.nodes), EdgeStates(o.edges), ActionStates(o),
          s.lastNodeId, s.lastNodeSequenceId, [])
  }

  /** A new order, or an update of a completed one, replaces the current order. */
  function Begin(a: Agv, o: Order): Agv
    requires |o.nodes| > 0
  {
    ProcessNode(Publish(a.(order := Some(o), state := StateOf(o, a.state), pos := -1, cursor := Idle,
                           current := |a.decided|, decided := a.decided + [o])), 0, None)
  }

  /** An order is stitched onto the active one. */
  function Extend(a: Agv, o: Order): Agv
    requires |o.nodes| > 0 && CanStitch(a, o)
  {
    var present := a.order.value;
    var stitched := Stitch(present, o);
    var end := BaseLen(present.nodes) - 1;
    var reached := !HasNodeState(a.state.nodeStates, present.nodes[end]);
    var ended := AllEnded(a.state, stitched.nodes[end].actions);
    var a1 := Publish(a.(
      order := Some(stitched),
      state := State(o.orderId, o.orderUpdateId,
                     ReleasedNodes(a.state.nodeStates) + NodeStates(o.nodes[1..]),
                     ReleasedEdges(a.state.edgeStates) + EdgeStates(o.edges),
                     a.state.actionStates + ActionStates(o),
                     a.state.lastNodeId, a.state.lastNodeSequenceId, []),
      current := |a.decided|, decided := a.decided + [o]));
    if reached && ended then ProcessEdge(a1, end) else a1
  }

  function ProcessOrder(a: Agv, o: Order, c: Checks): Agv {
    match Decide(a, o, c)
    case Reject =>
      Publish(a.(state := a.state.(errors := a.state.errors + [Rejection(o.orderId, o.orderUpdateId)]),
                 decided := a.decided + [o]))
    case Discard => Publish(a.(decided := a.decided + [o]))
    case AcceptNew => Begin(a, o)
    case AcceptUpdate => Begin(a, o)
    case AcceptStitch => Extend(a, o)
  }

  // ---------- Cancelation ----------

  function UnendedIds(s: State): set<string> {
    set id | id in s.actionStates && !Ended(s.actionStates[id])
  }

  function FailWaiting(st: map<string, Status>): map<string, Status> {
    map id | id in st :: if st[id].Waiting? then Failed else st[id]
  }

  /** All actions have ended: the vehicle has to stop, and gives up the edge it is on. */
  function OnActionsCanceled(a: Agv): Agv {
    a.(calls := a.calls + [StopTraverse], stopping := a.stopping + 1, traversing := multiset{})
  }

  function CancelOrder(a: Agv): Agv {
    var a1 := Publish(a.(canceling := true, cursor := Canceling,
                         state := a.state.(actionStates := FailWaiting(a.state.actionStates))));
    var ids := UnendedIds(a1.state);
    if ids == {} then OnActionsCanceled(a1) else a1.(calls := a1.calls + [CancelActions(ids)])
  }

  // ---------- Steps ----------

  datatype Event =
    | OrderArrives(order: Order, checks: Checks)
    | ActionUpdate(owner: Owner, index: nat, status: Status)
    | EdgeTraversed(edge: nat)
    | CallReturns
    | CancelArrives
    | DrivingToNextNode(index: nat)
    | Stopped
    | StateDue

  predicate Enabled(a: Agv, e: Event) {
    match e
    case OrderArrives(_, _) => a.todo == []
    case ActionUpdate(w, i, status) =>
      a.order.Some? && IsAction(a.order.value, w, i) && Id(a.order.value, w, i) in a.running && !status.Waiting?
    case EdgeTraversed(k) =>
      a.order.Some? && k in a.traversing && k < |a.order.value.edges|
        && EndNode(a.order.value.nodes, a.order.value.edges[k]).Some?
    case CallReturns =>
      a.order.Some? && a.todo != [] &&
      var p := a.todo[|a.todo| - 1];
      InOrder(a.order.value, p.owner) && p.loop.next < p.loop.stop <= |ActionsOf(a.order.value, p.owner)|
    case CancelArrives => a.todo == [] && IsActive(a.state) && !a.canceling
    case DrivingToNextNode(k) => a.stopping > 0 && a.order.Some? && k < |a.order.value.nodes|
    case Stopped => a.stopping > 0
    case StateDue => true
  }

  /** The final status of an action triggers what comes next. */
  function AfterEnd(a: Agv, w: Owner, i: nat): Agv
    requires a.order.Some? && IsAction(a.order.value, w, i)
  {
    var acts := ActionsOf(a.order.value, w);
    var a := a.(running := a.running - {acts[i].actionId});
    if a.canceling then
      if AllBaseActionsEnded(a.state, a.order.value) then OnActionsCanceled(a) else a
    else
      Perform(a.(list := a.list.(ended := a.list.ended + {i})), w, Lists.Reaction(acts, EndedIndices(a.state, acts), i))
  }

  function Step(a: Agv, e: Event): Agv
    requires Enabled(a, e)
  {
    match e
    case OrderArrives(o, c) => ProcessOrder(a, o, c)
    case ActionUpdate(w, i, status) =>
      var a1 := Publish(a.(state := a.state.(actionStates := a.state.actionStates[Id(a.order.value, w, i) := status])));
      if Ended(status) then AfterEnd(a1, w, i) else a1
    case EdgeTraversed(k) =>
      var a1 := a.(traversing := a.traversing - multiset{k});
      if a.canceling then a1 else ProcessNode(a1, EndNode(a.order.value.nodes, a.order.value.edges[k]).value, Some(k))
    case CallReturns =>
      var p := a.todo[|a.todo| - 1];
      Iterate(a.(todo := a.todo[..|a.todo| - 1], list := Lists.Iterate(a.list.(stack := []), p.loop)), p)
    case CancelArrives => CancelOrder(a)
    case DrivingToNextNode(k) =>
      Publish(a.(state := a.state.(nodeStates := KeepNodeState(a.state.nodeStates, a.order.value.nodes[k]),
                                   edgeStates := [])))
    case Stopped =>
      Publish(a.(canceling := false, stopping := a.stopping - 1, cursor := Canceled,
                 state := a.state.(nodeStates := [], edgeStates := [])))
    case StateDue => Publish(a)
  }

  function Initial(lastNodeId: string): Agv {
    Publish(Agv(None, State("", 0, [], [], map[], lastNodeId, 0, []), false, [], {}, multiset{}, 0, [], [],
                -1, Nowhere, Lists.Run([], {}, [], 0), [], -1))
  }
}
