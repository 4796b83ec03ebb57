/**
 The order tracking of the master controller for one vehicle: which orders are assigned, what was
 last seen of each, and which events the reported states give rise to. The caches of assigned orders
 are numbered in the order of their assignment; the number stands for the object reference.
 */
module Master {
  import opened Orders
  import opened AgvEngine

  type OrderKey = (string, nat)

  function KeyOf(o: Order): OrderKey {
    (o.orderId, o.orderUpdateId)
  }

  datatype Outcome = Rejected | Completed | StillActive

  datatype MasterEvent =
    | OnNodeTraversed(node: Node)
    | OnEdgeTraversed(edge: Edge)
    | OnOrderProcessed(cache: nat, outcome: Outcome)

  datatype Cache = Cache(
    order: Order,
    last: Option<nat>,                      // the order assigned before this one, if that one mattered
    combined: Order,                        // the order together with the orders it was stitched onto
    lastNode: Option<Node>, lastEdge: Option<Edge>,
    mapped: set<string>,                    // ids of the actions of the combined order that are reported
    lastActions: map<string, Status>,
    processed: bool)

  datatype Tracker = Tracker(caches: seq<Cache>, index: map<OrderKey, nat>, lastAssigned: Option<nat>,
                             events: seq<MasterEvent>)

  // ---------- Assigning orders ----------

  /** Ids of the actions of the leading released nodes and edges. */
  function MappedIds(o: Order): set<string> {
    NodeActionIds(o.nodes[..BaseLen(o.nodes)]) + EdgeActionIds(o.edges[..EdgeBaseLen(o.edges)])
  }

  function NewCache(o: Order, last: Option<nat>): Cache {
    Cache(o, last, o, None, None, MappedIds(o), map[], false)
  }

  function AddCache(m: Tracker, o: Order): Tracker {
    m.(caches := m.caches + [NewCache(o, m.lastAssigned)],
       index := m.index[KeyOf(o) := |m.caches|],
       lastAssigned := Some(|m.caches|))
  }

  /** An order whose ids are those of a tracked one is discarded. */
  function AssignOrder(m: Tracker, o: Order): Tracker {
    if KeyOf(o) in m.index then m else AddCache(m, o)
  }

  predicate IsPresent(m: Tracker, i: nat) {
    i < |m.caches| && KeyOf(m.caches[i].order) in m.index && m.index[KeyOf(m.caches[i].order)] == i
  }

  function Forget(index: map<OrderKey, nat>, key: OrderKey): map<OrderKey, nat> {
    map k | k in index && k != key :: index[k]
  }

  /** The map of a vehicle goes away with its last entry, and the link to the last assigned order with it. */
  function RemoveCache(m: Tracker, i: nat, cut: bool): Tracker
    requires i < |m.caches|
  {
    var index := Forget(m.index, KeyOf(m.caches[i].order));
    m.(caches := if cut then m.caches[i := m.caches[i].(last := None)] else m.caches,
       index := index,
       lastAssigned := if index == map[] then None else m.lastAssigned)
  }

  // ---------- Stitching ----------

  /** Each link leads to an order assigned earlier. */
  predicate LinksBack(caches: seq<Cache>) {
    forall i :: 0 <= i < |caches| && caches[i].last.Some? ==> caches[i].last.value < i
  }

  /** The most recent order before `next` (inclusive) that is still tracked. */
  function LastActive(m: Tracker, next: nat): (j: Option<nat>)
    requires next < |m.caches| && LinksBack(m.caches)
    ensures j.Some? ==> j.value <= next && IsPresent(m, j.value)
    decreases next
  {
    if IsPresent(m, next) then Some(next)
    else if m.caches[next].last.None? then None
    else LastActive(m, m.caches[next].last.value)
  }

  function FindCombined(o: Order, n: Option<Node>): Option<Node> {
    if n.None? then None
    else
      var k := FindNode(o.nodes, n.value.nodeId, n.value.sequenceId);
      if k.None? then None else Some(o.nodes[k.value])
  }

  /** What cache `c` takes over from `last` when its order was stitched onto that one. */
  function Combine(last: Cache, c: Cache): Cache
    requires HasBase(last.combined) && HasBase(c.combined)
  {
    var combined := Stitch(last.combined, c.combined);
    c.(combined := combined, lastNode := FindCombined(combined, last.lastNode), lastEdge := last.lastEdge,
       mapped := last.mapped + c.mapped, lastActions := last.lastActions)
  }

  /** Links lead back, every order has a base, and the index leads to the orders it names. */
  predicate Sound(m: Tracker) {
    && LinksBack(m.caches)
    && (forall i :: 0 <= i < |m.caches| ==> HasBase(m.caches[i].combined))
    && (forall k :: k in m.index ==> m.index[k] < |m.caches| && KeyOf(m.caches[m.index[k]].order) == k)
  }

  function TakeOver(m: Tracker, i: nat): Tracker
    requires i < |m.caches| && Sound(m)
  {
    if m.caches[i].last.None? then m
    else
      var j := LastActive(m, m.caches[i].last.value);
      if j.None? then m
      else RemoveCache(m.(caches := m.caches[i := Combine(m.caches[j.value], m.caches[i])]), j.value, true)
  }

  // ---------- Events of one cache ----------

  function NextReleasedEdge(edges: seq<Edge>, node: Node, from: nat := 0): (e: Option<nat>)
    requires from <= |edges|
    ensures e.Some? ==> e.value < |edges|
    decreases |edges| - from
  {
    if from == |edges| then None
    else if edges[from].released && edges[from].startNodeId == node.nodeId
      && edges[from].sequenceId == node.sequenceId + 1 then Some(from)
    else NextReleasedEdge(edges, node, from + 1)
  }

  predicate HasEdgeState(states: seq<EdgeState>, edge: Edge) {
    exists s :: s in states && s.edgeId == edge.edgeId && s.sequenceId == edge.sequenceId
  }

  /** The cache together with the events it has raised. */
  datatype Seen = Seen(cache: Cache, events: seq<MasterEvent>)

  function SeeActions(c: Cache, s: State): Cache {
    c.(lastActions := c.lastActions + (map id | id in s.actionStates && id in c.mapped :: s.actionStates[id]))
  }

  /** The edge behind the last node has been traversed once its state is gone. */
  function SeeEdge(x: Seen, s: State): Seen
    requires x.cache.lastNode.Some?
  {
    var c := x.cache;
    var e := NextReleasedEdge(c.combined.edges, c.lastNode.value);
    if e.None? then x
    else
      var edge := c.combined.edges[e.value];
      if HasEdgeState(s.edgeStates, edge) || c.lastEdge == Some(edge) then x
      else Seen(c.(lastEdge := Some(edge)), x.events + [OnEdgeTraversed(edge)])
  }

  /** The node that was reached, if it is not the last one seen. */
  function NewlyReached(c: Cache, s: State): Option<Node>
    requires |c.combined.nodes| > 0
  {
    if c.lastNode.None? then
      if HasNodeState(s.nodeStates, c.combined.nodes[0]) then None else Some(c.combined.nodes[0])
    else if c.lastNode.value.nodeId == s.lastNodeId && c.lastNode.value.sequenceId == s.lastNodeSequenceId then None
    else
      var k := FindNode(c.combined.nodes, s.lastNodeId, s.lastNodeSequenceId);
      if k.None? then None else Some(c.combined.nodes[k.value])
  }

  function SeeNode(x: Seen, s: State): Seen
    requires |x.cache.combined.nodes| > 0
  {
    var n := NewlyReached(x.cache, s);
    if n.None? then x else SeeEdge(Seen(x.cache.(lastNode := n), x.events + [OnNodeTraversed(n.value)]), s)
  }

  /** Node and edge events for a reported state: first the edge behind the last node, then the next node. */
  function SeeProgress(c: Cache, s: State): Seen
    requires HasBase(c.combined)
  {
    SeeNode(if c.lastNode.Some? then SeeEdge(Seen(c, []), s) else Seen(c, []), s)
  }

  /** Processed and completed, processed but kept active by a horizon, or not processed yet. */
  function ProcessedAs(c: Cache, s: State): Option<Outcome> {
    if exists id :: id in c.mapped && (id !in c.lastActions || !Ended(c.lastActions[id])) then None
    else if |s.nodeStates| == 0 && |s.edgeStates| == 0 then Some(Completed)
    else if (forall n :: n in s.nodeStates ==> !n.released)
      && (forall e :: e in s.edgeStates ==> !e.released) then Some(StillActive)
    else None
  }

  function SeeProcessed(m: Tracker, i: nat, s: State): Tracker
    requires i < |m.caches|
  {
    var p := ProcessedAs(m.caches[i], s);
    if p.None? || m.caches[i].processed then m
    else
      var m1 := if p.value.Completed? then RemoveCache(m, i, true) else m;
      m1.(caches := m1.caches[i := m1.caches[i].(processed := true)],
          events := m1.events + [OnOrderProcessed(i, p.value)])
  }

  /** Everything a state tells about the order of cache `i`. */
  function See(m: Tracker, i: nat, s: State): Tracker
    requires i < |m.caches| && HasBase(m.caches[i].combined)
  {
    var x := SeeProgress(SeeActions(m.caches[i], s), s);
    SeeProcessed(m.(caches := m.caches[i := x.cache], events := m.events + x.events), i, s)
  }

  function DispatchOrderState(m: Tracker, i: nat, s: State): Tracker
    requires i < |m.caches| && Sound(m)
  {
    See(TakeOver(m, i), i, s)
  }

  // ---------- Dispatching a reported state ----------

  /** Rejected orders are no longer tracked, but stay linked. */
  function DispatchErrors(m: Tracker, errors: seq<Rejection>): (m': Tracker)
    requires Sound(m)
    ensures m'.caches == m.caches && Sound(m')
    decreases |errors|
  {
    if errors == [] then m
    else
      var key := (errors[0].orderId, errors[0].orderUpdateId);
      if key !in m.index then DispatchErrors(m, errors[1..])
      else
        var m1 := RemoveCache(m, m.index[key], false);
        DispatchErrors(m1.(events := m1.events + [OnOrderProcessed(m.index[key], Rejected)]), errors[1..])
  }

  function DispatchCurrent(m: Tracker, s: State): Tracker
    requires Sound(m)
  {
    var key := (s.orderId, s.orderUpdateId);
    if key in m.index then DispatchOrderState(m, m.index[key], s) else m
  }

  function Dispatch(m: Tracker, s: State): Tracker
    requires Sound(m)
  {
    DispatchCurrent(DispatchErrors(m, s.errors), s)
  }

  const EMPTY: Tracker := Tracker([], map[], None, [])
}
