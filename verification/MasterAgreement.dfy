/** The master controller, fed with the reports of a run in order, tracks the orders of the vehicle exactly. */
module MasterAgreement {
  import opened Orders
  import opened AgvEngine
  import opened AgvInvariants
  import opened AgvReports
  import opened ReportChain
  import opened Master

  // ---------- The simulation relation ----------

  function OrdersOf(m: Tracker): seq<Order> {
    seq(|m.caches|, i requires 0 <= i < |m.caches| => m.caches[i].order)
  }

  function KeysOf(orders: seq<Order>): set<OrderKey> {
    set o | o in orders :: KeyOf(o)
  }

  /** Which orders are tracked: the undecided ones, and the current one while it is active. */
  ghost predicate Tracked(m: Tracker, decided: nat, current: int, active: bool) {
    && Sound(m) && FreshKeys(OrdersOf(m))
    && current < decided <= |m.caches|
    && (active ==> 0 <= current)
    && (forall i: nat :: i < |m.caches| ==> (IsPresent(m, i) <==> i >= decided || (active && i == current)))
    && (forall b: nat, i: nat :: IsPresent(m, b) && b < i < |m.caches| ==> m.caches[i].last == Some(i - 1))
    && (m.lastAssigned == if m.index == map[] then None else Some(|m.caches| - 1))
    && (forall i: nat :: decided <= i < |m.caches| ==> m.caches[i] == NewCache(m.caches[i].order, m.caches[i].last))
  }

  /** The base of the order is completed: what is left is horizon. */
  ghost predicate BaseDone(s: State) {
    && (forall n :: n in s.nodeStates ==> !n.released)
    && (forall e :: e in s.edgeStates ==> !e.released)
    && (forall id :: id in s.actionStates ==> Ended(s.actionStates[id]))
  }

  /** The cache of the current order knows its combined order, place and action states. */
  ghost predicate CacheAgrees(c: Cache, o: Order, s: State, pos: int) {
    && -1 <= pos < |o.nodes|
    && c.combined == o
    && c.lastNode == (if pos == -1 then None else Some(o.nodes[pos]))
    && (c.lastEdge.Some? ==> exists k :: 0 <= k < pos && k < |o.edges| && c.lastEdge.value == o.edges[k])
    && c.mapped == BaseActionIds(o)
    && (pos >= 0 ==> forall id :: id in c.mapped ==>
          id in c.lastActions && id in s.actionStates && c.lastActions[id] == s.actionStates[id])
  }

  /** Every reported rejection concerns an order that is no longer tracked. */
  ghost predicate ErrorsSettled(m: Tracker, errors: seq<Rejection>) {
    forall k :: 0 <= k < |errors| ==>
      && (errors[k].orderId, errors[k].orderUpdateId) !in m.index
      && (errors[k].orderId, errors[k].orderUpdateId) in KeysOf(OrdersOf(m))
  }

  ghost predicate Sim(m: Tracker, r: Report) {
    var x, active := r.shadow, IsActive(r.state);
    && Faithful(r)
    && Tracked(m, x.decided, x.current, active)
    && ErrorsSettled(m, r.state.errors)
    && (x.current >= 0 ==> KeyOf(m.caches[x.current].order) == (r.state.orderId, r.state.orderUpdateId))
    && (active ==> var c := m.caches[x.current];
          CacheAgrees(c, x.order.value, r.state, x.pos) && (c.processed <==> BaseDone(r.state)))
  }

  // ---------- Events ----------

  /** What the vehicle has traversed between two successive reports. */
  function Progress(r: Report, r': Report): seq<MasterEvent> {
    if r'.shadow.order.None? || r'.shadow.current != r.shadow.current || r'.shadow.pos != r.shadow.pos + 1 then []
    else
      var o, k := r'.shadow.order.value, r'.shadow.pos;
      (if 0 < k <= |o.edges| then [OnEdgeTraversed(o.edges[k - 1])] else [])
        + (if 0 <= k < |o.nodes| then [OnNodeTraversed(o.nodes[k])] else [])
  }

  /** The base of the current order is completed, which was not so before. */
  ghost function Completion(r: Report, already: bool): seq<MasterEvent> {
    if r.shadow.current >= 0 && BaseDone(r.state) && !already then
      [OnOrderProcessed(r.shadow.current, if IsActive(r.state) then StillActive else Completed)]
    else []
  }

  /** The orders processed between two successive reports. */
  ghost function Notice(r: Report, r': Report): seq<MasterEvent> {
    if r'.shadow.decided == r.shadow.decided + 1 && r'.shadow.current == r.shadow.current then
      [OnOrderProcessed(r.shadow.decided, Rejected)]
    else
      Completion(r', r'.shadow.current == r.shadow.current && BaseDone(r.state))
  }

  // ---------- Looking up the current order ----------

  lemma {:induction false} KeysDiffer(m: Tracker, i: nat, j: nat)
    requires FreshKeys(OrdersOf(m)) && i < |m.caches| && j < |m.caches| && i != j
    ensures KeyOf(m.caches[i].order) != KeyOf(m.caches[j].order)
  {
    var os := OrdersOf(m);
    assert os[i] == m.caches[i].order && os[j] == m.caches[j].order;
    if i < j {
      assert os[i].orderId != os[j].orderId || os[i].orderUpdateId != os[j].orderUpdateId;
    } else {
      assert os[j].orderId != os[i].orderId || os[j].orderUpdateId != os[i].orderUpdateId;
    }
  }

  /** A reported state is dispatched to the cache of the current order, if that is still tracked. */
  lemma {:induction false} CurrentInIndex(m: Tracker, r: Report)
    requires Sim(m, r)
    ensures var key := (r.state.orderId, r.state.orderUpdateId);
      && (IsActive(r.state) <==> key in m.index)
      && (IsActive(r.state) ==> m.index[key] == r.shadow.current)
  {
    var key := (r.state.orderId, r.state.orderUpdateId);
    var c := r.shadow.current;
    if key in m.index {
      var i := m.index[key];
      assert KeyOf(m.caches[i].order) == key && IsPresent(m, i);
      assert OrdersOf(m)[i] == m.caches[i].order;
      if c >= 0 && i != c {
        KeysDiffer(m, i, c);
      }
    }
    if IsActive(r.state) {
      assert IsPresent(m, c);
    }
  }

  lemma {:induction false} NoErrors(m: Tracker, errors: seq<Rejection>)
    requires Sound(m) && ErrorsSettled(m, errors)
    ensures DispatchErrors(m, errors) == m
    decreases |errors|
  {
    if errors != [] {
      assert (errors[0].orderId, errors[0].orderUpdateId) !in m.index;
      assert forall k :: 0 <= k < |errors[1..]| ==> errors[1..][k] == errors[k + 1];
      NoErrors(m, errors[1..]);
    }
  }

  // ---------- The walk to the predecessor ----------

  /** No tracked order can be found before the first tracked one. */
  lemma {:induction false} NothingBefore(m: Tracker, next: nat)
    requires Sound(m) && next < |m.caches| && forall i: nat :: i <= next ==> !IsPresent(m, i)
    ensures LastActive(m, next) == None
    decreases next
  {
    if m.caches[next].last.Some? {
      NothingBefore(m, m.caches[next].last.value);
    }
  }

  /** Rejected orders in between are skipped. */
  lemma {:induction false} WalkToCurrent(m: Tracker, decided: nat, current: nat, next: nat)
    requires Tracked(m, decided, current, true) && current <= next < decided
    ensures LastActive(m, next) == Some(current)
    decreases next
  {
    assert IsPresent(m, current);
    if next != current {
      assert !IsPresent(m, next);
      assert m.caches[next].last == Some(next - 1);
      WalkToCurrent(m, decided, current, next - 1);
    }
  }

  // ---------- What a cache sees in a state ----------

  lemma {:induction false} EdgeFound(o: Order, k: nat, from: nat)
    requires Chain(o) && k < |o.nodes| && from <= k && from <= |o.edges|
    ensures NextReleasedEdge(o.edges, o.nodes[k], from) == if k < |o.edges| && o.edges[k].released then Some(k)
      else None
    decreases |o.edges| - from
  {
    if from < |o.edges| {
      assert EdgeFits(o, from);
      if from < k {
        EdgeFound(o, k, from + 1);
      } else if !o.edges[k].released {
        NoEdgeBehind(o, k, k + 1);
      }
    }
  }

  lemma {:induction false} NoEdgeBehind(o: Order, k: nat, from: nat)
    requires Chain(o) && k < |o.nodes| && k < from <= |o.edges|
    ensures NextReleasedEdge(o.edges, o.nodes[k], from) == None
    decreases |o.edges| - from
  {
    if from < |o.edges| {
      assert EdgeFits(o, from);
      NoEdgeBehind(o, k, from + 1);
    }
  }

  /** Edge `k` is reported exactly while it has not been traversed. */
  lemma {:induction false} EdgeReported(o: Order, k: nat, pos: nat)
    requires Chain(o) && k < |o.edges| && pos <= |o.edges|
    ensures HasEdgeState(EdgeStates(o.edges[pos..]), o.edges[k]) <==> pos <= k
  {
    var states := EdgeStates(o.edges[pos..]);
    assert EdgeFits(o, k);
    if pos <= k {
      assert states[k - pos] in states;
    } else {
      forall st | st in states
        ensures st.sequenceId != o.edges[k].sequenceId
      {
        var i :| 0 <= i < |states| && states[i] == st;
        assert EdgeFits(o, pos + i);
      }
    }
  }

  lemma {:induction false} NodeReported(o: Order, k: nat, pos: int)
    requires Chain(o) && k < |o.nodes| && -1 <= pos < |o.nodes|
    ensures HasNodeState(NodeStates(o.nodes[pos + 1..]), o.nodes[k]) <==> pos < k
  {
    var states := NodeStates(o.nodes[pos + 1..]);
    if pos < k {
      assert states[k - pos - 1] in states;
    } else {
      forall st | st in states
        ensures st.sequenceId != o.nodes[k].sequenceId
      {
        var i :| 0 <= i < |states| && states[i] == st;
        assert st.sequenceId == o.nodes[pos + 1 + i].sequenceId;
      }
    }
  }

  /** Place of the vehicle, as far as the node and edge events of a cache depend on it. */
  ghost predicate At(c: Cache, o: Order, pos: int) {
    && -1 <= pos < |o.nodes|
    && c.combined == o
    && c.lastNode == (if pos == -1 then None else Some(o.nodes[pos]))
    && (c.lastEdge.Some? ==> exists k :: 0 <= k < pos && k < |o.edges| && c.lastEdge.value == o.edges[k])
  }

  /** The edge behind the node at `pos`; before the first node, the first edge. */
  function FirstEdge(pos: int): nat {
    if pos < 0 then 0 else pos
  }

  ghost predicate StatesAt(o: Order, s: State, pos: int) {
    && -1 <= pos < |o.nodes| && pos <= |o.edges|
    && s.nodeStates == NodeStates(o.nodes[pos + 1..])
    && s.edgeStates == EdgeStates(o.edges[FirstEdge(pos)..])
    && (pos >= 0 ==> s.lastNodeId == o.nodes[pos].nodeId && s.lastNodeSequenceId == o.nodes[pos].sequenceId)
  }

  /** A state that shows no progress raises no event. */
  lemma {:induction false} NothingSeen(c: Cache, o: Order, s: State, pos: int)
    requires AlignedChain(o) && At(c, o, pos) && StatesAt(o, s, pos)
    ensures SeeProgress(c, s) == Seen(c, [])
  {
    if c.lastNode.Some? {
      NothingSeenAt(c, o, s, pos);
      assert SeeProgress(c, s) == SeeNode(SeeEdge(Seen(c, []), s), s);
    } else {
      NothingSeenYet(c, o, s);
      assert SeeProgress(c, s) == SeeNode(Seen(c, []), s);
    }
  }

  lemma {:induction false} NothingSeenAt(c: Cache, o: Order, s: State, pos: nat)
    requires AlignedChain(o) && pos < |o.nodes| && c.combined == o && c.lastNode == Some(o.nodes[pos])
    requires pos <= |o.edges| && s.edgeStates == EdgeStates(o.edges[pos..])
    requires s.lastNodeId == o.nodes[pos].nodeId && s.lastNodeSequenceId == o.nodes[pos].sequenceId
    ensures SeeNode(SeeEdge(Seen(c, []), s), s) == Seen(c, [])
  {
    NoEdgeSeen(Seen(c, []), o, s, pos);
  }

  lemma {:induction false} NothingSeenYet(c: Cache, o: Order, s: State)
    requires AlignedChain(o) && c.combined == o && c.lastNode == None && s.nodeStates == NodeStates(o.nodes[0..])
    ensures SeeNode(Seen(c, []), s) == Seen(c, [])
  {
    NodeReported(o, 0, -1);
  }

  /** The edge behind the last node is still reported. */
  lemma {:induction false} NoEdgeSeen(x: Seen, o: Order, s: State, pos: nat)
    requires AlignedChain(o) && pos < |o.nodes| && x.cache.combined == o && x.cache.lastNode == Some(o.nodes[pos])
    requires pos <= |o.edges| && s.edgeStates == EdgeStates(o.edges[pos..])
    ensures SeeEdge(x, s) == x
  {
    EdgeFound(o, pos, 0);
    if pos < |o.edges| {
      EdgeReported(o, pos, pos);
    }
  }

  /** The edge leading to node `k` is no longer reported. */
  lemma {:induction false} EdgeSeen(c: Cache, o: Order, s: State, k: nat)
    requires AlignedChain(o) && 0 < k < BaseLen(o.nodes) && k <= |o.edges| && At(c, o, k - 1)
    requires s.edgeStates == EdgeStates(o.edges[k..])
    ensures SeeEdge(Seen(c, []), s) == Seen(c.(lastEdge := Some(o.edges[k - 1])), [OnEdgeTraversed(o.edges[k - 1])])
  {
    EdgeFound(o, k - 1, 0);
    EdgeReported(o, k - 1, k);
    assert o.edges[k - 1].released == o.nodes[k].released;
    EdgesDistinct(o, k - 1);
  }

  /** The events for reaching node `k`. */
  function Arrival(o: Order, k: nat): seq<MasterEvent>
    requires k < |o.nodes| && k <= |o.edges|
  {
    (if k > 0 then [OnEdgeTraversed(o.edges[k - 1])] else []) + [OnNodeTraversed(o.nodes[k])]
  }

  function Arrived(c: Cache, o: Order, k: nat): Cache
    requires k < |o.nodes| && k <= |o.edges|
  {
    c.(lastNode := Some(o.nodes[k]), lastEdge := if k > 0 then Some(o.edges[k - 1]) else c.lastEdge)
  }

  /** A state that shows the next node raises the event of the edge leading there, then that of the node. */
  lemma {:induction false} ArrivalSeen(c: Cache, o: Order, s: State, k: nat)
    requires AlignedChain(o) && k < BaseLen(o.nodes) && k <= |o.edges|
    requires At(c, o, k - 1) && StatesAt(o, s, k)
    ensures SeeProgress(c, s) == Seen(Arrived(c, o, k), Arrival(o, k))
  {
    var e := c.(lastEdge := if k > 0 then Some(o.edges[k - 1]) else c.lastEdge);
    var events := if k > 0 then [OnEdgeTraversed(o.edges[k - 1])] else [];
    if k > 0 {
      EdgeSeen(c, o, s, k);
      FindNodeOnChain(o, k, 0);
    } else {
      NodeReported(o, 0, 0);
    }
    assert NewlyReached(e, s) == Some(o.nodes[k]);
    NoEdgeSeen(Seen(e.(lastNode := Some(o.nodes[k])), events + [OnNodeTraversed(o.nodes[k])]), o, s, k);
  }

  lemma {:induction false} EdgesDistinct(o: Order, k: nat)
    requires Chain(o) && k < |o.edges|
    ensures forall j :: 0 <= j < k ==> o.edges[j] != o.edges[k]
  {
    assert EdgeFits(o, k);
    forall j | 0 <= j < k
      ensures o.edges[j] != o.edges[k]
    {
      assert EdgeFits(o, j);
    }
  }

  lemma {:induction false} ActionsSeen(c: Cache, s: State)
    requires c.mapped <= s.actionStates.Keys
    ensures forall id :: id in c.mapped ==>
      id in SeeActions(c, s).lastActions && SeeActions(c, s).lastActions[id] == s.actionStates[id]
  {
  }

  /** On an aligned chain the mapped actions are those of the base. */
  lemma {:induction false} MappedIsBase(o: Order)
    requires AlignedChain(o)
    ensures MappedIds(o) == BaseActionIds(o)
  {
    var nodes, edges := o.nodes[..BaseLen(o.nodes)], o.edges[..EdgeBaseLen(o.edges)];
    AlignedEdgeBase(o);
    forall id | id in BaseActionIds(o)
      ensures id in MappedIds(o)
    {
      var w, i := OwnerOfId(o, id);
      BaseOwners(o, w);
      match w
      case AtNode(k) => assert nodes[k] in nodes && ActionsOf(o, w)[i] in nodes[k].actions;
      case OnEdge(k) => assert edges[k] in edges && ActionsOf(o, w)[i] in edges[k].actions;
    }
  }

  // ---------- Completion ----------

  /** All that `Sim` says, for an order that is still tracked although `r` may show its completion. */
  ghost predicate Seeing(m: Tracker, r: Report) {
    var x := r.shadow;
    && Faithful(r) && x.current >= 0
    && Tracked(m, x.decided, x.current, true)
    && ErrorsSettled(m, r.state.errors)
    && KeyOf(m.caches[x.current].order) == (r.state.orderId, r.state.orderUpdateId)
    && var c := m.caches[x.current];
    && CacheAgrees(c, x.order.value, r.state, x.pos)
    && (c.processed ==> BaseDone(r.state) && IsActive(r.state))
  }

  lemma {:induction false} OutcomeOf(c: Cache, r: Report)
    requires Faithful(r) && r.shadow.order.Some? && CacheAgrees(c, r.shadow.order.value, r.state, r.shadow.pos)
    ensures var p := ProcessedAs(c, r.state);
      && (p == Some(Completed) <==> !IsActive(r.state))
      && (p == Some(StillActive) <==> IsActive(r.state) && BaseDone(r.state))
      && p != Some(Rejected)
  {
    var s, o := r.state, r.shadow.order.value;
    if r.shadow.pos == -1 {
      assert s.nodeStates[0] in s.nodeStates && s.nodeStates[0].released;
    }
    assert c.mapped == s.actionStates.Keys;
  }

  lemma {:induction false} OrdersUnchanged(m: Tracker, m': Tracker)
    requires |m.caches| == |m'.caches| && forall i :: 0 <= i < |m.caches| ==> m'.caches[i].order == m.caches[i].order
    ensures OrdersOf(m') == OrdersOf(m)
  {
  }

  /** Removing cache `i` leaves exactly the others. */
  lemma {:induction false} PresentAfterRemove(m: Tracker, i: nat, cut: bool, j: nat)
    requires FreshKeys(OrdersOf(m)) && i < |m.caches| && j < |m.caches|
    ensures IsPresent(RemoveCache(m, i, cut), j) <==> IsPresent(m, j) && j != i
  {
    if j != i {
      KeysDiffer(m, i, j);
    }
  }

  lemma {:induction false} RemoveSound(m: Tracker, i: nat, cut: bool)
    requires Sound(m) && FreshKeys(OrdersOf(m)) && i < |m.caches|
    requires m.lastAssigned == if m.index == map[] then None else Some(|m.caches| - 1)
    ensures var m' := RemoveCache(m, i, cut);
      && Sound(m') && OrdersOf(m') == OrdersOf(m)
      && m'.lastAssigned == (if m'.index == map[] then None else Some(|m.caches| - 1))
  {
    OrdersUnchanged(m, RemoveCache(m, i, cut));
  }

  /** The current order is no longer tracked. */
  lemma {:induction false} RemoveCurrent(m: Tracker, decided: nat, current: nat, cut: bool)
    requires Tracked(m, decided, current, true)
    ensures Tracked(RemoveCache(m, current, cut), decided, current, false)
    ensures OrdersOf(RemoveCache(m, current, cut)) == OrdersOf(m)
  {
    var m' := RemoveCache(m, current, cut);
    RemoveSound(m, current, cut);
    forall j: nat | j < |m.caches|
      ensures IsPresent(m', j) <==> j >= decided
    {
      PresentAfterRemove(m, current, cut, j);
    }
    forall b: nat, i: nat | IsPresent(m', b) && b < i < |m'.caches|
      ensures m'.caches[i].last == Some(i - 1)
    {
      PresentAfterRemove(m, current, cut, b);
    }
  }

  /** Tracking depends on a cache only through its order, its link and its base. */
  lemma {:induction false} ChangeCurrent(m: Tracker, decided: nat, current: nat, active: bool, c: Cache,
                                         events: seq<MasterEvent>)
    requires Tracked(m, decided, current, active)
    requires c.order == m.caches[current].order && c.last == m.caches[current].last && HasBase(c.combined)
    ensures Tracked(m.(caches := m.caches[current := c], events := events), decided, current, active)
    ensures OrdersOf(m.(caches := m.caches[current := c], events := events)) == OrdersOf(m)
  {
    var m' := m.(caches := m.caches[current := c], events := events);
    OrdersUnchanged(m, m');
    assert forall i: nat :: IsPresent(m', i) <==> IsPresent(m, i);
  }

  lemma {:induction false} ProcessedKeeps(m: Tracker, r: Report)
    requires Seeing(m, r)
    ensures Sim(SeeProcessed(m, r.shadow.current, r.state), r)
    ensures SeeProcessed(m, r.shadow.current, r.state).events
      == m.events + Completion(r, m.caches[r.shadow.current].processed)
  {
    var c := m.caches[r.shadow.current];
    OutcomeOf(c, r);
    match ProcessedAs(c, r.state)
    case Some(Completed) => CompletedKeeps(m, r);
    case Some(_) => StillActiveKeeps(m, r);
    case None => UnprocessedKeeps(m, r);
  }

  lemma {:induction false} UnprocessedKeeps(m: Tracker, r: Report)
    requires Seeing(m, r) && IsActive(r.state) && !BaseDone(r.state)
      && ProcessedAs(m.caches[r.shadow.current], r.state) == None
    ensures Sim(SeeProcessed(m, r.shadow.current, r.state), r)
    ensures SeeProcessed(m, r.shadow.current, r.state).events
      == m.events + Completion(r, m.caches[r.shadow.current].processed)
  {
    assert Completion(r, m.caches[r.shadow.current].processed) == [];
    assert SeeProcessed(m, r.shadow.current, r.state) == m;
  }

  lemma {:induction false} CompletedKeeps(m: Tracker, r: Report)
    requires Seeing(m, r) && !IsActive(r.state) && ProcessedAs(m.caches[r.shadow.current], r.state) == Some(Completed)
    ensures Sim(SeeProcessed(m, r.shadow.current, r.state), r)
    ensures SeeProcessed(m, r.shadow.current, r.state).events
      == m.events + Completion(r, m.caches[r.shadow.current].processed)
  {
    var i := r.shadow.current;
    var m1 := RemoveCache(m, i, true);
    RemoveCurrent(m, r.shadow.decided, i, true);
    ChangeCurrent(m1, r.shadow.decided, i, false, m1.caches[i].(processed := true),
                  m1.events + [OnOrderProcessed(i, Completed)]);
  }

  lemma {:induction false} StillActiveKeeps(m: Tracker, r: Report)
    requires Seeing(m, r) && IsActive(r.state) && BaseDone(r.state)
    requires ProcessedAs(m.caches[r.shadow.current], r.state) == Some(StillActive)
    ensures Sim(SeeProcessed(m, r.shadow.current, r.state), r)
    ensures SeeProcessed(m, r.shadow.current, r.state).events
      == m.events + Completion(r, m.caches[r.shadow.current].processed)
  {
    var i := r.shadow.current;
    if !m.caches[i].processed {
      ChangeCurrent(m, r.shadow.decided, i, true, m.caches[i].(processed := true),
                    m.events + [OnOrderProcessed(i, StillActive)]);
    }
  }

  // ---------- Dispatching one report ----------

  lemma {:induction false} NothingBetween(a: seq<MasterEvent>, b: seq<MasterEvent>)
    ensures a + [] + b == a + b
  {
  }

  /** What the cache of the current order sees in report `r` is `c` with `events`. */
  ghost predicate Sees(m: Tracker, r: Report, c: Cache, events: seq<MasterEvent>) {
    var x := r.shadow;
    && Faithful(r) && x.current >= 0
    && Tracked(m, x.decided, x.current, true)
    && ErrorsSettled(m, r.state.errors)
    && KeyOf(m.caches[x.current].order) == (r.state.orderId, r.state.orderUpdateId)
    && SeeProgress(SeeActions(m.caches[x.current], r.state), r.state) == Seen(c, events)
    && c.order == m.caches[x.current].order && c.last == m.caches[x.current].last
    && CacheAgrees(c, x.order.value, r.state, x.pos)
    && (c.processed ==> BaseDone(r.state) && IsActive(r.state))
  }

  lemma {:induction false} SeeKeeps(m: Tracker, r: Report, c: Cache, events: seq<MasterEvent>)
    requires Sees(m, r, c, events)
    ensures Sim(See(m, r.shadow.current, r.state), r)
    ensures See(m, r.shadow.current, r.state).events == m.events + events + Completion(r, c.processed)
  {
    var i := r.shadow.current;
    var m1 := m.(caches := m.caches[i := c], events := m.events + events);
    ChangeCurrent(m, r.shadow.decided, i, true, c, m.events + events);
    ProcessedKeeps(m1, r);
  }

  /** A current order that is the first one tracked has nothing to take over. */
  lemma {:induction false} CurrentKeeps(m: Tracker, r: Report, c: Cache, events: seq<MasterEvent>)
    requires Sees(m, r, c, events)
    ensures Sim(DispatchCurrent(m, r.state), r)
    ensures DispatchCurrent(m, r.state).events == m.events + events + Completion(r, c.processed)
  {
    var i := r.shadow.current;
    assert IsPresent(m, i);
    if m.caches[i].last.Some? {
      NothingBefore(m, m.caches[i].last.value);
    }
    assert TakeOver(m, i) == m;
    SeeKeeps(m, r, c, events);
  }

  lemma {:induction false} UpdateKeeps(m: Tracker, r: Report, r': Report)
    requires Sim(m, r) && Updated(r, r') && Faithful(r')
    ensures Sim(DispatchCurrent(m, r'.state), r')
    ensures DispatchCurrent(m, r'.state).events == m.events + Completion(r', BaseDone(r.state))
  {
    CurrentInIndex(m, r);
    if !IsActive(r.state) {
      RestKeeps(m, r, r');
    } else {
      UpdateSees(m, r, r');
      CurrentKeeps(m, r', SeeActions(m.caches[r.shadow.current], r'.state), []);
      NothingBetween(m.events, Completion(r', BaseDone(r.state)));
    }
  }

  /** A completed order stays completed. */
  lemma {:induction false} RestKeeps(m: Tracker, r: Report, r': Report)
    requires Sim(m, r) && Updated(r, r') && Faithful(r') && !IsActive(r.state)
    ensures Sim(m, r') && Completion(r', BaseDone(r.state)) == []
  {
    assert BaseDone(r.state);
    assert forall id :: id in r'.state.actionStates ==> id in r.state.actionStates && Ended(r'.state.actionStates[id]);
  }

  lemma {:induction false} UpdateSees(m: Tracker, r: Report, r': Report)
    requires Sim(m, r) && Updated(r, r') && Faithful(r') && IsActive(r.state)
    ensures Sees(m, r', SeeActions(m.caches[r.shadow.current], r'.state), [])
  {
    UpdatedSight(m.caches[r.shadow.current], r, r');
  }

  lemma {:induction false} UpdatedSight(c: Cache, r: Report, r': Report)
    requires Faithful(r) && Faithful(r') && Updated(r, r') && r.shadow.order.Some?
    requires CacheAgrees(c, r.shadow.order.value, r.state, r.shadow.pos)
    ensures var d, o := SeeActions(c, r'.state), r.shadow.order.value;
      && HasBase(d.combined) && SeeProgress(d, r'.state) == Seen(d, [])
      && CacheAgrees(d, o, r'.state, r'.shadow.pos)
      && d.order == c.order && d.last == c.last && d.processed == c.processed
  {
    var o := r.shadow.order.value;
    RouteStates(o, r');
    UpdatedAgrees(c, o, r.state, r'.state, r.shadow.pos);
    NothingSeen(SeeActions(c, r'.state), o, r'.state, r.shadow.pos);
  }

  lemma {:induction false} UpdatedAgrees(c: Cache, o: Order, s: State, s': State, pos: int)
    requires CacheAgrees(c, o, s, pos) && s'.actionStates.Keys == BaseActionIds(o)
    ensures var d := SeeActions(c, s');
      CacheAgrees(d, o, s', pos) && At(d, o, pos) && d.order == c.order && d.last == c.last
        && d.processed == c.processed
  {
    ActionsSeen(c, s');
  }

  lemma {:induction false} RouteStates(o: Order, r: Report)
    requires Faithful(r) && r.shadow.order == Some(o)
    ensures StatesAt(o, r.state, r.shadow.pos) && r.shadow.pos < BaseLen(o.nodes)
  {
    if r.shadow.pos == -1 {
      assert o.nodes[0..] == o.nodes && o.edges[0..] == o.edges;
    }
  }

  lemma {:induction false} ReachKeeps(m: Tracker, r: Report, r': Report)
    requires Sim(m, r) && Reaches(r, r') && Faithful(r')
    ensures Sim(DispatchCurrent(m, r'.state), r')
    ensures DispatchCurrent(m, r'.state).events == m.events + Progress(r, r') + Completion(r', false)
  {
    var o, k := r.shadow.order.value, r'.shadow.pos;
    StillActiveBefore(r, r');
    ArrivalSees(m, r, r');
    ProgressOfReach(r, r');
    CurrentKeeps(m, r', Arrived(SeeActions(m.caches[r.shadow.current], r'.state), o, k), Arrival(o, k));
  }

  lemma {:induction false} ProgressOfReach(r: Report, r': Report)
    requires Reaches(r, r')
    ensures Progress(r, r') == Arrival(r.shadow.order.value, r'.shadow.pos)
  {
  }

  lemma {:induction false} ArrivalSees(m: Tracker, r: Report, r': Report)
    requires Sim(m, r) && Reaches(r, r') && Faithful(r') && IsActive(r.state)
    ensures var o, k := r.shadow.order.value, r'.shadow.pos;
      && Sees(m, r', Arrived(SeeActions(m.caches[r.shadow.current], r'.state), o, k), Arrival(o, k))
      && !m.caches[r.shadow.current].processed
  {
    var o, k := r.shadow.order.value, r'.shadow.pos;
    var c := m.caches[r.shadow.current];
    var d := SeeActions(c, r'.state);
    RouteStates(o, r');
    ArrivalSeen(d, o, r'.state, k);
    NotDoneBefore(r, r');
    ArrivedAgrees(c, o, r.state, r'.state, k);
  }

  lemma {:induction false} ArrivedAgrees(c: Cache, o: Order, s: State, s': State, k: nat)
    requires CacheAgrees(c, o, s, k - 1) && k < |o.nodes| && k <= |o.edges| && s'.actionStates.Keys == BaseActionIds(o)
    ensures CacheAgrees(Arrived(SeeActions(c, s'), o, k), o, s', k)
  {
    ActionsSeen(c, s');
  }

  /** Before a node is reached its order is active, and its base not completed. */
  lemma {:induction false} StillActiveBefore(r: Report, r': Report)
    requires Faithful(r) && Reaches(r, r')
    ensures IsActive(r.state)
  {
    var o := r.shadow.order.value;
    RouteStates(o, r);
    assert |NodeStates(o.nodes[r.shadow.pos + 1..])| > 0;
  }

  lemma {:induction false} NotDoneBefore(r: Report, r': Report)
    requires Faithful(r) && Reaches(r, r')
    ensures !BaseDone(r.state)
  {
    RouteStates(r.shadow.order.value, r);
    NodeAhead(r.shadow.order.value, r.state, r.shadow.pos);
  }

  /** As long as a node of the base has not been reached, the base is not completed. */
  lemma {:induction false} NodeAhead(o: Order, s: State, pos: int)
    requires -1 <= pos && pos + 1 < BaseLen(o.nodes) && s.nodeStates == NodeStates(o.nodes[pos + 1..])
    ensures !BaseDone(s)
  {
    var n := s.nodeStates[0];
    assert n.released == o.nodes[pos + 1].released;
    assert n in s.nodeStates;
  }

  // ---------- A rejected order ----------

  lemma {:induction false} LastErrorCounts(m: Tracker, errors: seq<Rejection>, e: Rejection)
    requires Sound(m) && ErrorsSettled(m, errors)
    ensures DispatchErrors(m, errors + [e]) == DispatchErrors(m, [e])
    decreases |errors|
  {
    if errors == [] {
      assert errors + [e] == [e];
    } else {
      assert (errors[0].orderId, errors[0].orderUpdateId) !in m.index;
      assert (errors + [e])[1..] == errors[1..] + [e];
      assert forall k :: 0 <= k < |errors[1..]| ==> errors[1..][k] == errors[k + 1];
      LastErrorCounts(m, errors[1..], e);
    }
  }

  /** The order rejected next is the first undecided one. */
  lemma {:induction false} RemoveRejected(m: Tracker, decided: nat, current: int, active: bool)
    requires Tracked(m, decided, current, active) && decided < |m.caches|
    ensures Tracked(RemoveCache(m, decided, false), decided + 1, current, active)
    ensures OrdersOf(RemoveCache(m, decided, false)) == OrdersOf(m)
  {
    var m' := RemoveCache(m, decided, false);
    RemoveSound(m, decided, false);
    forall j: nat | j < |m.caches|
      ensures IsPresent(m', j) <==> IsPresent(m, j) && j != decided
    {
      PresentAfterRemove(m, decided, false, j);
    }
  }

  lemma {:induction false} RefuseKeeps(m: Tracker, r: Report, r': Report)
    requires Sim(m, r) && r.shadow.decided < |m.caches| && Faithful(r')
    requires Refuses(m.caches[r.shadow.decided].order, r, r')
    ensures Sim(Dispatch(m, r'.state), r')
      && Dispatch(m, r'.state).events == m.events + [OnOrderProcessed(r.shadow.decided, Rejected)]
  {
    var n := r.shadow.decided;
    var o := m.caches[n].order;
    var e := Rejection(o.orderId, o.orderUpdateId);
    LastErrorCounts(m, r.state.errors, e);
    assert IsPresent(m, n);
    var m1 := RemoveCache(m, n, false).(events := m.events + [OnOrderProcessed(n, Rejected)]);
    OneErrorDispatched(m, n, e, m1);
    RefusedSim(m, r, r', m1);
    RefusedQuietly(m1, r');
  }

  /** Besides the rejection the report has no news. */
  lemma {:induction false} RefusedQuietly(m: Tracker, r': Report)
    requires Sim(m, r')
    ensures Sim(DispatchCurrent(m, r'.state), r') && DispatchCurrent(m, r'.state).events == m.events
  {
    UpdateKeeps(m, r', r');
  }

  lemma {:induction false} OneErrorDispatched(m: Tracker, n: nat, e: Rejection, m1: Tracker)
    requires Sound(m) && IsPresent(m, n) && KeyOf(m.caches[n].order) == (e.orderId, e.orderUpdateId)
    requires m1 == RemoveCache(m, n, false).(events := m.events + [OnOrderProcessed(n, Rejected)])
    ensures DispatchErrors(m, [e]) == m1
  {
    assert [e][1..] == [];
    assert DispatchErrors(m1, []) == m1;
  }

  lemma {:induction false} RefusedSim(m: Tracker, r: Report, r': Report, m1: Tracker)
    requires Sim(m, r) && r.shadow.decided < |m.caches| && Faithful(r')
    requires Refuses(m.caches[r.shadow.decided].order, r, r')
    requires m1 == RemoveCache(m, r.shadow.decided, false).(events := m1.events)
    ensures Sim(m1, r')
  {
    var n := r.shadow.decided;
    RemoveRejected(m, n, r.shadow.current, IsActive(r.state));
    SameTracker(RemoveCache(m, n, false), m1, n + 1, r.shadow.current, IsActive(r.state));
    assert OrdersOf(m)[n] in OrdersOf(m);
    assert KeyOf(OrdersOf(m)[n]) in KeysOf(OrdersOf(m));
    RefusedErrors(m, m1, r.state.errors, n);
  }

  /** Tracking does not depend on the events. */
  lemma {:induction false} SameTracker(m: Tracker, m': Tracker, decided: nat, current: int, active: bool)
    requires Tracked(m, decided, current, active) && m' == m.(events := m'.events)
    ensures Tracked(m', decided, current, active) && OrdersOf(m') == OrdersOf(m)
  {
    OrdersUnchanged(m, m');
    assert forall i: nat :: IsPresent(m', i) <==> IsPresent(m, i);
  }

  lemma {:induction false} RefusedErrors(m: Tracker, m': Tracker, errors: seq<Rejection>, n: nat)
    requires ErrorsSettled(m, errors) && n < |m.caches| && OrdersOf(m') == OrdersOf(m)
    requires m'.index == Forget(m.index, KeyOf(m.caches[n].order)) && KeyOf(m.caches[n].order) in KeysOf(OrdersOf(m))
    ensures ErrorsSettled(m', errors + [Rejection(m.caches[n].order.orderId, m.caches[n].order.orderUpdateId)])
  {
  }

  // ---------- An order that begins ----------

  lemma {:induction false} BeginSees(m: Tracker, r: Report, r': Report)
    requires Sim(m, r) && r.shadow.decided < |m.caches| && Faithful(r')
    requires Begins(m.caches[r.shadow.decided].order, r, r')
    ensures Sees(m, r', SeeActions(m.caches[r.shadow.decided], r'.state), [])
  {
    var n := r.shadow.decided;
    var c := m.caches[n];
    var o := c.order;
    Promote(m, n, r.shadow.current);
    MappedIsBase(o);
    RouteStates(o, r');
    NothingSeen(SeeActions(c, r'.state), o, r'.state, -1);
  }

  lemma {:induction false} BeginKeepsSim(m: Tracker, r: Report, r': Report)
    requires Sim(m, r) && r.shadow.decided < |m.caches| && Faithful(r')
    requires Begins(m.caches[r.shadow.decided].order, r, r')
    ensures Sim(Dispatch(m, r'.state), r') && Dispatch(m, r'.state).events == m.events + Completion(r', false)
  {
    BeginSees(m, r, r');
    CurrentKeeps(m, r', SeeActions(m.caches[r.shadow.decided], r'.state), []);
    NothingBetween(m.events, Completion(r', false));
    assert IsPresent(m, r.shadow.decided);
  }

  // ---------- A stitched order ----------

  /** The tracker once the stitched order has taken over from the current one. */
  function TakenOver(m: Tracker, current: nat, n: nat): Tracker
    requires current < n < |m.caches| && HasBase(m.caches[current].combined) && HasBase(m.caches[n].combined)
  {
    RemoveCache(m.(caches := m.caches[n := Combine(m.caches[current], m.caches[n])]), current, true)
  }

  lemma {:induction false} FindsCurrent(m: Tracker, decided: nat, current: nat)
    requires Tracked(m, decided, current, true) && decided < |m.caches|
    ensures TakeOver(m, decided) == TakenOver(m, current, decided)
  {
    assert IsPresent(m, current);
    assert m.caches[decided].last == Some(decided - 1);
    WalkToCurrent(m, decided, current, decided - 1);
    TakesOverFrom(m, decided, decided - 1, current);
  }

  lemma {:induction false} TakesOverFrom(m: Tracker, i: nat, next: nat, j: nat)
    requires Sound(m) && j < i < |m.caches| && next < i && m.caches[i].last == Some(next)
      && LastActive(m, next) == Some(j)
    ensures TakeOver(m, i) == TakenOver(m, j, i)
  {
  }

  lemma {:induction false} TakenOverTracked(m: Tracker, decided: nat, current: nat)
    requires Tracked(m, decided, current, true) && decided < |m.caches|
    ensures Tracked(TakenOver(m, current, decided), decided + 1, decided, true)
    ensures OrdersOf(TakenOver(m, current, decided)) == OrdersOf(m)
  {
    var c := Combine(m.caches[current], m.caches[decided]);
    var m1 := RemoveCache(m, current, true);
    RemoveCurrent(m, decided, current, true);
    Promote(m1, decided, current);
    ChangeCurrent(m1, decided + 1, decided, true, c, m1.events);
    CombineThenRemove(m, current, decided, c);
  }

  lemma {:induction false} CombineThenRemove(m: Tracker, i: nat, n: nat, c: Cache)
    requires i < n < |m.caches|
    ensures RemoveCache(m.(caches := m.caches[n := c]), i, true)
         == RemoveCache(m, i, true).(caches := RemoveCache(m, i, true).caches[n := c], events := m.events)
  {
  }

  /** The first undecided order becomes the current one. */
  lemma {:induction false} Promote(m: Tracker, n: nat, current: int)
    requires Tracked(m, n, current, false) && n < |m.caches|
    ensures Tracked(m, n + 1, n, true)
  {
  }

  /** The combined cache agrees with the stitched order of the vehicle. */
  lemma {:induction false} CombineAgrees(c: Cache, n: Cache, r: Report, r': Report)
    requires Faithful(r) && Faithful(r') && Extends(n.order, r, r')
    requires CacheAgrees(c, r.shadow.order.value, r.state, r.shadow.pos) && n == NewCache(n.order, n.last)
    ensures HasBase(c.combined) && HasBase(n.combined)
    ensures CacheAgrees(SeeActions(Combine(c, n), r'.state), r'.shadow.order.value, r'.state, r'.shadow.pos)
    ensures At(SeeActions(Combine(c, n), r'.state), r'.shadow.order.value, r'.shadow.pos)
  {
    var present, o, pos := r.shadow.order.value, n.order, r.shadow.pos;
    MappedIsBase(o);
    StitchedIds(present, o);
    CombinedPlace(c, n, present, pos);
    CombinedSeen(Combine(c, n), Stitch(present, o), r'.state, pos);
  }

  lemma {:induction false} CombinedSeen(c: Cache, o: Order, s: State, pos: nat)
    requires At(c, o, pos) && c.mapped == BaseActionIds(o) == s.actionStates.Keys
    ensures CacheAgrees(SeeActions(c, s), o, s, pos) && At(SeeActions(c, s), o, pos)
  {
    ActionsSeen(c, s);
  }

  /** The last node and edge seen are those of the combined order. */
  lemma {:induction false} CombinedPlace(c: Cache, n: Cache, present: Order, pos: nat)
    requires AlignedChain(present) && AlignedChain(n.order) && ExtendsBase(present, n.order)
      && pos < BaseLen(present.nodes)
    requires c.combined == present && n.combined == n.order && c.lastNode == Some(present.nodes[pos])
    requires c.lastEdge.Some? ==> exists k ::
      0 <= k < pos && k < |present.edges| && c.lastEdge.value == present.edges[k]
    ensures At(Combine(c, n), Stitch(present, n.order), pos)
  {
    var stitched := Stitch(present, n.order);
    StitchKeepsAlignedChain(present, n.order);
    StitchedNodeOwner(present, n.order, pos);
    FindNodeOnChain(stitched, pos, 0);
    EdgesKept(present, n.order, c.lastEdge, pos);
  }

  lemma {:induction false} EdgesKept(present: Order, o: Order, e: Option<Edge>, pos: nat)
    requires AlignedChain(present) && AlignedChain(o) && ExtendsBase(present, o) && pos < BaseLen(present.nodes)
    requires e.Some? ==> exists k :: 0 <= k < pos && k < |present.edges| && e.value == present.edges[k]
    ensures e.Some? ==> exists k ::
      0 <= k < pos && k < |Stitch(present, o).edges| && e.value == Stitch(present, o).edges[k]
  {
    if e.Some? {
      var k :| 0 <= k < pos && k < |present.edges| && e.value == present.edges[k];
      StitchedEdgeOwner(present, o, k);
      assert e.value == Stitch(present, o).edges[k];
    }
  }

  /** The cache that has taken over from `c` sees no progress in the report of the stitched order. */
  lemma {:induction false} SeesStitched(m: Tracker, c: Cache, n: Cache, r: Report, r': Report)
    requires Faithful(r) && Faithful(r') && Extends(n.order, r, r')
    requires CacheAgrees(c, r.shadow.order.value, r.state, r.shadow.pos) && n == NewCache(n.order, n.last)
    requires HasBase(c.combined) && HasBase(n.combined) && Tracked(m, r'.shadow.decided, r.shadow.decided, true)
    requires m.caches[r.shadow.decided] == Combine(c, n)
    ensures Sees(m, r', SeeActions(m.caches[r.shadow.decided], r'.state), [])
    ensures !SeeActions(m.caches[r.shadow.decided], r'.state).processed
  {
    CombinedSight(c, n, r, r');
    SilentSight(m, r.shadow.decided, r');
  }

  lemma {:induction false} StitchedTakesOver(m: Tracker, r: Report, o: Order)
    requires Sim(m, r) && IsActive(r.state) && r.shadow.decided < |m.caches| && o == m.caches[r.shadow.decided].order
    ensures var n, i := r.shadow.decided, r.shadow.current;
      && 0 <= i < n && HasBase(m.caches[i].combined) && HasBase(m.caches[n].combined)
      && m.caches[n] == NewCache(o, m.caches[n].last)
      && CacheAgrees(m.caches[i], r.shadow.order.value, r.state, r.shadow.pos)
      && var m1 := TakenOver(m, i, n);
      && m1.events == m.events && Tracked(m1, n + 1, n, true) && m1.caches[n] == Combine(m.caches[i], m.caches[n])
  {
    TakenOverTracked(m, r.shadow.decided, r.shadow.current);
  }

  lemma {:induction false} SilentSight(m: Tracker, n: nat, r: Report)
    requires Faithful(r) && r.shadow.current == n && r.shadow.decided == n + 1 && r.shadow.order.Some?
      && r.state.errors == []
    requires Tracked(m, n + 1, n, true) && KeyOf(m.caches[n].order) == (r.state.orderId, r.state.orderUpdateId)
    requires var d := SeeActions(m.caches[n], r.state);
      && HasBase(d.combined) && SeeProgress(d, r.state) == Seen(d, [])
      && CacheAgrees(d, r.shadow.order.value, r.state, r.shadow.pos) && !d.processed
    ensures Sees(m, r, SeeActions(m.caches[n], r.state), [])
  {
  }

  lemma {:induction false} CombinedSight(c: Cache, n: Cache, r: Report, r': Report)
    requires Faithful(r) && Faithful(r') && Extends(n.order, r, r')
    requires CacheAgrees(c, r.shadow.order.value, r.state, r.shadow.pos) && n == NewCache(n.order, n.last)
    ensures HasBase(c.combined) && HasBase(n.combined)
    ensures var d := SeeActions(Combine(c, n), r'.state);
      && HasBase(d.combined) && SeeProgress(d, r'.state) == Seen(d, [])
      && CacheAgrees(d, r'.shadow.order.value, r'.state, r'.shadow.pos)
      && d.order == n.order && d.last == n.last && !d.processed
  {
    CombineAgrees(c, n, r, r');
    RouteStates(r'.shadow.order.value, r');
    NothingSeen(SeeActions(Combine(c, n), r'.state), r'.shadow.order.value, r'.state, r'.shadow.pos);
  }

  lemma {:induction false} ExtendKeepsSim(m: Tracker, r: Report, r': Report)
    requires Sim(m, r) && r.shadow.decided < |m.caches| && Faithful(r')
    requires Extends(m.caches[r.shadow.decided].order, r, r')
    ensures Sim(Dispatch(m, r'.state), r') && Dispatch(m, r'.state).events == m.events + Completion(r', false)
  {
    var n, i := r.shadow.decided, r.shadow.current;
    StitchedGoesTo(m, r, r');
    StitchedTakesOver(m, r, m.caches[n].order);
    SeesStitched(TakenOver(m, i, n), m.caches[i], m.caches[n], r, r');
    SeeSilently(TakenOver(m, i, n), r', SeeActions(TakenOver(m, i, n).caches[n], r'.state));
  }

  /** A state in which only actions have news. */
  lemma {:induction false} SeeSilently(m: Tracker, r: Report, c: Cache)
    requires Sees(m, r, c, []) && !c.processed
    ensures Sim(See(m, r.shadow.current, r.state), r)
    ensures See(m, r.shadow.current, r.state).events == m.events + Completion(r, false)
  {
    SeeKeeps(m, r, c, []);
    NothingBetween(m.events, Completion(r, false));
  }

  /** The report of a stitched order goes to its cache, which takes over from the current one first. */
  lemma {:induction false} StitchedGoesTo(m: Tracker, r: Report, r': Report)
    requires Sim(m, r) && r.shadow.decided < |m.caches| && Faithful(r')
    requires Extends(m.caches[r.shadow.decided].order, r, r')
    ensures var n, i := r.shadow.decided, r.shadow.current;
      && HasBase(TakenOver(m, i, n).caches[n].combined)
      && Dispatch(m, r'.state) == See(TakenOver(m, i, n), n, r'.state)
  {
    var n, i := r.shadow.decided, r.shadow.current;
    assert IsPresent(m, n);
    FindsCurrent(m, n, i);
    assert DispatchErrors(m, []) == m;
  }

  // ---------- Any report ----------

  lemma {:induction false} SeeOrders(m: Tracker, i: nat, s: State)
    requires i < |m.caches| && HasBase(m.caches[i].combined)
    ensures OrdersOf(See(m, i, s)) == OrdersOf(m)
  {
    var x := SeeProgress(SeeActions(m.caches[i], s), s);
    assert x.cache.order == m.caches[i].order;
    var m1 := m.(caches := m.caches[i := x.cache], events := m.events + x.events);
    OrdersUnchanged(m, m1);
    OrdersUnchanged(m1, SeeProcessed(m1, i, s));
  }

  /** No state changes which orders have been assigned. */
  lemma {:induction false} DispatchOrders(m: Tracker, s: State)
    requires Sound(m)
    ensures OrdersOf(Dispatch(m, s)) == OrdersOf(m)
  {
    var m1 := DispatchErrors(m, s.errors);
    OrdersUnchanged(m, m1);
    var key := (s.orderId, s.orderUpdateId);
    if key in m1.index {
      var i := m1.index[key];
      OrdersUnchanged(m1, TakeOver(m1, i));
      SeeOrders(TakeOver(m1, i), i, s);
    }
  }

  /**
   Dispatching the next report keeps the agreement, and raises exactly the events for what the vehicle has done in
   between.
   */
  lemma {:induction false} DispatchKeeps(m: Tracker, r: Report, r': Report)
    requires Sim(m, r) && Follows(OrdersOf(m), r, r')
    ensures Sim(Dispatch(m, r'.state), r')
    ensures Dispatch(m, r'.state).events == m.events + Progress(r, r') + Notice(r, r')
  {
    FollowsFaithful(OrdersOf(m), r, r');
    if Updated(r, r') {
      UpdateDispatched(m, r, r');
    } else if Reaches(r, r') {
      ReachDispatched(m, r, r');
    } else {
      OrderDispatched(m, r, r');
    }
  }

  lemma {:induction false} UpdateDispatched(m: Tracker, r: Report, r': Report)
    requires Sim(m, r) && Updated(r, r') && Faithful(r')
    ensures Sim(Dispatch(m, r'.state), r')
    ensures Dispatch(m, r'.state).events == m.events + Progress(r, r') + Notice(r, r')
  {
    NoErrors(m, r'.state.errors);
    UpdateKeeps(m, r, r');
    assert Progress(r, r') == [];
    NothingBetween(m.events, Notice(r, r'));
  }

  lemma {:induction false} ReachDispatched(m: Tracker, r: Report, r': Report)
    requires Sim(m, r) && Reaches(r, r') && Faithful(r')
    ensures Sim(Dispatch(m, r'.state), r')
    ensures Dispatch(m, r'.state).events == m.events + Progress(r, r') + Notice(r, r')
  {
    NoErrors(m, r'.state.errors);
    ReachKeeps(m, r, r');
    NotDoneBefore(r, r');
  }

  lemma {:induction false} OrderDispatched(m: Tracker, r: Report, r': Report)
    requires Sim(m, r) && Faithful(r') && r.shadow.decided < |m.caches|
    requires var o := m.caches[r.shadow.decided].order; Refuses(o, r, r') || Begins(o, r, r') || Extends(o, r, r')
    ensures Sim(Dispatch(m, r'.state), r')
    ensures Dispatch(m, r'.state).events == m.events + Progress(r, r') + Notice(r, r')
  {
    var o := m.caches[r.shadow.decided].order;
    assert Progress(r, r') == [];
    NothingBetween(m.events, Notice(r, r'));
    if Refuses(o, r, r') {
      RefuseKeeps(m, r, r');
    } else if Begins(o, r, r') {
      BeginKeepsSim(m, r, r');
    } else {
      ExtendKeepsSim(m, r, r');
    }
  }
}
