/**
 The order tracking of the master controller in its imperative form: linked cache objects that are updated in
 place. Every method carries out the function of the same purpose in `Master`, where a number stands for an object.
 */
module MasterControllers {
  import opened Orders
  import opened AgvEngine
  import opened Master

  class OrderStateCache {
    const order: Order
    const eventHandler: nat              // handlers are numbered in the order of their assignment
    var lastCache: OrderStateCache?
    var combinedOrder: Order
    var lastNodeTraversed: Option<Node>
    var lastEdgeProcessed: Option<Edge>
    var mappedActions: set<string>
    var lastActionStates: map<string, Status>
    var isOrderProcessedHandlerInvoked: bool

    /** The fields are those of `c`, apart from the link. */
    ghost predicate Is(c: Cache)
      reads this
    {
      && order == c.order && combinedOrder == c.combined
      && lastNodeTraversed == c.lastNode && lastEdgeProcessed == c.lastEdge
      && mappedActions == c.mapped && lastActionStates == c.lastActions
      && isOrderProcessedHandlerInvoked == c.processed
    }

    constructor (order: Order, eventHandler: nat, lastCache: OrderStateCache?)
      ensures this.order == order && this.eventHandler == eventHandler && this.lastCache == lastCache
      ensures forall last :: Is(NewCache(order, last))
    {
      this.order, this.eventHandler, this.lastCache, combinedOrder := order, eventHandler, lastCache, order;
      lastNodeTraversed, lastEdgeProcessed, lastActionStates := None, None, map[];
      isOrderProcessedHandlerInvoked := false;
      new;
      var ids := MapActions(order);
      mappedActions := ids;
    }
  }

  // ---------- The actions of the base ----------

  function IdsOf(actions: seq<Action>): set<string> {
    set a | a in actions :: a.actionId
  }

  method CollectIds(actions: seq<Action>) returns (ids: set<string>)
    ensures ids == IdsOf(actions)
  {
    ids := {};
    var i := 0;
    while i < |actions|
      invariant 0 <= i <= |actions|
      invariant ids == IdsOf(actions[..i])
    {
      assert actions[..i + 1] == actions[..i] + [actions[i]];
      ids := ids + {actions[i].actionId};
      i := i + 1;
    }
    assert actions[..i] == actions;
  }

  lemma {:induction false} OneMoreNode(nodes: seq<Node>, k: nat)
    requires k < |nodes| && nodes[k].released
    ensures NodeActionIds(nodes[..k + 1]) == NodeActionIds(nodes[..k]) + IdsOf(nodes[k].actions)
  {
    assert nodes[..k + 1] == nodes[..k] + [nodes[k]];
    forall a | a in nodes[k].actions
      ensures a.actionId in NodeActionIds(nodes[..k + 1])
    {
      assert nodes[k] in nodes[..k + 1];
    }
    forall id | id in NodeActionIds(nodes[..k])
      ensures id in NodeActionIds(nodes[..k + 1])
    {
      var n, a :| n in nodes[..k] && n.released && a in n.actions && a.actionId == id;
      assert n in nodes[..k + 1];
    }
  }

  lemma {:induction false} OneMoreEdge(edges: seq<Edge>, k: nat)
    requires k < |edges| && edges[k].released
    ensures EdgeActionIds(edges[..k + 1]) == EdgeActionIds(edges[..k]) + IdsOf(edges[k].actions)
  {
    assert edges[..k + 1] == edges[..k] + [edges[k]];
    forall a | a in edges[k].actions
      ensures a.actionId in EdgeActionIds(edges[..k + 1])
    {
      assert edges[k] in edges[..k + 1];
    }
    forall id | id in EdgeActionIds(edges[..k])
      ensures id in EdgeActionIds(edges[..k + 1])
    {
      var e, a :| e in edges[..k] && e.released && a in e.actions && a.actionId == id;
      assert e in edges[..k + 1];
    }
  }

  method MapActions(o: Order) returns (ids: set<string>)
    ensures ids == MappedIds(o)
  {
    ids := {};
    var k := 0;
    while k < |o.nodes| && o.nodes[k].released
      invariant 0 <= k <= BaseLen(o.nodes)
      invariant ids == NodeActionIds(o.nodes[..k])
      decreases |o.nodes| - k
    {
      var more := CollectIds(o.nodes[k].actions);
      OneMoreNode(o.nodes, k);
      ids := ids + more;
      k := k + 1;
    }
    assert k == BaseLen(o.nodes);
    var i := 0;
    while i < |o.edges| && o.edges[i].released
      invariant 0 <= i <= EdgeBaseLen(o.edges)
      invariant ids == NodeActionIds(o.nodes[..k]) + EdgeActionIds(o.edges[..i])
      decreases |o.edges| - i
    {
      var more := CollectIds(o.edges[i].actions);
      OneMoreEdge(o.edges, i);
      ids := ids + more;
      i := i + 1;
    }
  }

  // ---------- The controller ----------

  /** What was seen for cache `i` is stored, and its events are raised. */
  function Store(m: Tracker, i: nat, x: Seen): Tracker
    requires i < |m.caches|
  {
    m.(caches := m.caches[i := x.cache], events := m.events + x.events)
  }

  lemma {:induction false} StoreTwice(m: Tracker, i: nat, x: Seen, c: Cache, more: seq<MasterEvent>)
    requires i < |m.caches|
    ensures Store(Store(m, i, x), i, Seen(c, more)) == Store(m, i, Seen(c, x.events + more))
  {
    assert m.caches[i := x.cache][i := c] == m.caches[i := c];
    assert m.events + x.events + more == m.events + (x.events + more);
  }

  /** Seeing an edge adds to the events whatever they are. */
  lemma {:induction false} StoreEdge(m: Tracker, i: nat, x: Seen, s: State)
    requires i < |m.caches| && x.cache.lastNode.Some?
    ensures Store(Store(m, i, x), i, SeeEdge(Seen(x.cache, []), s)) == Store(m, i, SeeEdge(x, s))
  {
    var y := SeeEdge(Seen(x.cache, []), s);
    StoreTwice(m, i, x, y.cache, y.events);
    assert SeeEdge(x, s) == Seen(y.cache, x.events + y.events);
  }

  lemma {:induction false} SoundAppend(m: Tracker, o: Order)
    requires Sound(m) && HasBase(o) && (m.lastAssigned.Some? ==> m.lastAssigned.value < |m.caches|)
    ensures Sound(m.(caches := m.caches + [NewCache(o, m.lastAssigned)]))
  {
  }

  lemma {:induction false} SoundForget(m: Tracker, key: OrderKey)
    requires Sound(m)
    ensures Sound(m.(index := Forget(m.index, key)))
  {
  }

  lemma {:induction false} ProcessedStored(m: Tracker, i: nat, s: State)
    requires i < |m.caches| && ProcessedAs(m.caches[i], s).Some? && !m.caches[i].processed
    ensures var outcome := ProcessedAs(m.caches[i], s).value;
      var m1 := if outcome.Completed? then RemoveCache(m, i, true) else m;
      SeeProcessed(m, i, s) == Store(m1, i, Seen(m1.caches[i].(processed := true), [OnOrderProcessed(i, outcome)]))
  {
  }

  /** Without one key, a map to caches still agrees with the index of their numbers. */
  lemma {:induction false} EntryErased(orders: map<OrderKey, OrderStateCache>, index: map<OrderKey, nat>,
                                       all: seq<OrderStateCache>, key: OrderKey)
    requires orders.Keys == index.Keys && forall k :: k in index ==> index[k] < |all| && orders[k] == all[index[k]]
    ensures var left := map k | k in orders && k != key :: orders[k];
      && left.Keys == Forget(index, key).Keys
      && forall k :: k in Forget(index, key) ==> Forget(index, key)[k] < |all| && left[k] == all[Forget(index, key)[k]]
  {
  }

  lemma {:induction false} CombineHasBase(last: Cache, c: Cache)
    requires HasBase(last.combined) && HasBase(c.combined)
    ensures HasBase(Combine(last, c).combined)
  {
  }

  class MasterController {
    var currentOrders: map<OrderKey, OrderStateCache>
    var lastAssigned: OrderStateCache?
    var handlers: nat
    var events: seq<MasterEvent>

    ghost var all: seq<OrderStateCache>        // every cache there has been
    ghost var tracker: Tracker

    ghost predicate Known(c: OrderStateCache)
      reads `all
    {
      c.eventHandler < |all| && all[c.eventHandler] == c
    }

    /** The reference is to the cache with the given number. */
    ghost predicate RefersTo(c: OrderStateCache?, number: Option<nat>)
      reads `all
    {
      match number
      case None => c == null
      case Some(i) => i < |all| && c == all[i]
    }

    ghost predicate CachesAre(caches: seq<Cache>)
      reads `all, all
    {
      && |all| == |caches|
      && (forall i :: 0 <= i < |all| ==> all[i].eventHandler == i)
      && (forall i {:trigger caches[i]} :: 0 <= i < |caches| ==>
            all[i].Is(caches[i]) && RefersTo(all[i].lastCache, caches[i].last))
    }

    ghost predicate IndexIs(index: map<OrderKey, nat>)
      reads `all, `currentOrders
    {
      && currentOrders.Keys == index.Keys
      && forall k :: k in index ==> index[k] < |all| && currentOrders[k] == all[index[k]]
    }

    ghost predicate At(m: Tracker)
      reads this, all
    {
      CachesAre(m.caches) && IndexIs(m.index) && RefersTo(lastAssigned, m.lastAssigned) && m.events == events
        && |all| == handlers
    }

    ghost predicate Valid()
      reads this, all
    {
      At(tracker) && Sound(tracker)
    }

    constructor ()
      ensures Valid() && tracker == EMPTY && all == []
    {
      currentOrders, lastAssigned, handlers, events := map[], null, 0, [];
      all, tracker := [], EMPTY;
    }

    /** An order to be assigned is one with a base; if its ids are tracked already, it is discarded. */
    method AssignOrder(o: Order)
      requires Valid() && HasBase(o)
      modifies this
      ensures Valid() && tracker == Master.AssignOrder(old(tracker), o)
      ensures forall c :: c in all && c !in old(all) ==> fresh(c)
    {
      if KeyOf(o) in currentOrders {
        return;
      }
      var cache := new OrderStateCache(o, handlers, lastAssigned);
      EnterOrder(cache);
    }

    method EnterOrder(cache: OrderStateCache)
      requires Valid() && HasBase(cache.order) && cache.eventHandler == handlers && cache.lastCache == lastAssigned
      requires cache.Is(NewCache(cache.order, tracker.lastAssigned))
      modifies this
      ensures Valid() && tracker == AddCache(old(tracker), cache.order)
      ensures all == old(all) + [cache]
    {
      AppendCache(cache);
      IndexCache(cache);
    }

    method IndexCache(cache: OrderStateCache)
      requires Valid() && Known(cache) && tracker.caches[cache.eventHandler].order == cache.order
      modifies `currentOrders, `lastAssigned, `tracker
      ensures Valid()
      ensures tracker == old(tracker).(index := old(tracker.index)[KeyOf(cache.order) := cache.eventHandler],
                                       lastAssigned := Some(cache.eventHandler))
    {
      currentOrders := currentOrders[KeyOf(cache.order) := cache];
      lastAssigned := cache;
      tracker := tracker.(index := tracker.index[KeyOf(cache.order) := cache.eventHandler],
                          lastAssigned := Some(cache.eventHandler));
    }

    method AppendCache(cache: OrderStateCache)
      requires Valid() && HasBase(cache.order) && cache.eventHandler == handlers && cache.lastCache == lastAssigned
      requires cache.Is(NewCache(cache.order, tracker.lastAssigned))
      modifies `all, `handlers, `tracker
      ensures Valid() && all == old(all) + [cache]
      ensures
        tracker == old(tracker.(caches := tracker.caches + [NewCache(cache.order, tracker.lastAssigned)]))
    {
      SoundAppend(tracker, cache.order);
      handlers := handlers + 1;
      all := all + [cache];
      tracker := tracker.(caches := tracker.caches + [NewCache(cache.order, tracker.lastAssigned)]);
    }

    /** The most recent order assigned before that of `cache` that is still tracked. */
    method GetLastActiveOrderStateCache(cache: OrderStateCache) returns (c: OrderStateCache?)
      requires Valid() && Known(cache) && cache.lastCache != null
      ensures tracker.caches[cache.eventHandler].last.Some?
      ensures RefersTo(c, LastActive(tracker, tracker.caches[cache.eventHandler].last.value))
    {
      ghost var next := tracker.caches[cache.eventHandler].last;
      ghost var goal := LastActive(tracker, next.value);
      c := cache.lastCache;
      while c != null
        invariant RefersTo(c, next) && (next.Some? ==> LastActive(tracker, next.value) == goal)
        invariant next == None ==> goal == None
        decreases if next.None? then 0 else 1 + next.value
      {
        next := tracker.caches[next.value].last;
        if KeyOf(c.order) in currentOrders && currentOrders[KeyOf(c.order)] == c {
          return;
        }
        c := c.lastCache;
      }
    }

    method RemoveOrderStateCache(cache: OrderStateCache, deleteLastCache: bool)
      requires Valid() && Known(cache)
      modifies this, cache`lastCache
      ensures Valid() && all == old(all)
      ensures tracker == RemoveCache(old(tracker), cache.eventHandler, deleteLastCache)
    {
      if deleteLastCache {
        CutLastCache(cache);
      }
      assert tracker.caches[cache.eventHandler].order == cache.order;
      ForgetOrder(KeyOf(cache.order));
    }

    method CutLastCache(cache: OrderStateCache)
      requires Valid() && Known(cache)
      modifies `tracker, cache`lastCache
      ensures Valid()
      ensures
        var i := cache.eventHandler;
        tracker == old(tracker.(caches := tracker.caches[i := tracker.caches[i].(last := None)]))
    {
      cache.lastCache := null;
      ghost var i := cache.eventHandler;
      tracker := tracker.(caches := tracker.caches[i := tracker.caches[i].(last := None)]);
    }

    /** The entry goes away, and with the last entry the map itself and what is stored beside the entries. */
    method ForgetOrder(key: OrderKey)
      requires Valid()
      modifies `tracker, `currentOrders, `lastAssigned
      ensures Valid()
      ensures
        var index := Forget(old(tracker.index), key);
        tracker == old(tracker).(index := index,
                                 lastAssigned := if index == map[] then None else old(tracker.lastAssigned))
    {
      EraseEntry(key);
      if currentOrders.Keys == {} {
        lastAssigned := null;
        tracker := tracker.(lastAssigned := None);
      }
    }

    method EraseEntry(key: OrderKey)
      requires Valid()
      modifies `tracker, `currentOrders
      ensures Valid() && tracker == old(tracker).(index := Forget(old(tracker.index), key))
      ensures currentOrders.Keys == Forget(old(tracker.index), key).Keys
    {
      SoundForget(tracker, key);
      EntryErased(currentOrders, tracker.index, all, key);
      currentOrders := map k | k in currentOrders && k != key :: currentOrders[k];
      tracker := tracker.(index := Forget(tracker.index, key));
    }

    // ---------- What a state tells about one order ----------

    /** The number of a cache the controller knows, and what is tracked under it. */
    ghost function Tracked(cache: OrderStateCache): Cache
      reads this
      requires Known(cache) && |tracker.caches| == |all|
    {
      tracker.caches[cache.eventHandler]
    }

    /** Stores what was seen, once the fields of `cache` say so. */
    ghost method Note(cache: OrderStateCache, x: Cache)
      requires Known(cache) && CachesExcept(cache) && cache.Is(x) && HasBase(x.combined)
        && RefersTo(cache.lastCache, x.last)
      requires x.order == Tracked(cache).order && x.last == Tracked(cache).last
      modifies `tracker
      ensures Valid()
      ensures tracker == old(tracker).(caches := old(tracker.caches)[cache.eventHandler := x], events := events)
    {
      tracker := tracker.(caches := tracker.caches[cache.eventHandler := x], events := events);
    }

    /** All but the fields of `cache` and the events are as tracked. */
    ghost predicate CachesExcept(cache: OrderStateCache)
      reads this, all
    {
      && Sound(tracker) && |all| == |tracker.caches| == handlers
      && IndexIs(tracker.index) && RefersTo(lastAssigned, tracker.lastAssigned)
      && (forall i :: 0 <= i < |all| ==> all[i].eventHandler == i)
      && (forall i {:trigger tracker.caches[i]} :: 0 <= i < |tracker.caches| && i != cache.eventHandler ==>
            all[i].Is(tracker.caches[i]) && RefersTo(all[i].lastCache, tracker.caches[i].last))
    }

    method DispatchActionStates(cache: OrderStateCache, s: State)
      requires Valid() && Known(cache)
      modifies `tracker, cache`lastActionStates
      ensures Valid() && tracker
        == Store(old(tracker), cache.eventHandler, Seen(SeeActions(old(Tracked(cache)), s), []))
    {
      ghost var c := Tracked(cache);
      assert cache.Is(c) && RefersTo(cache.lastCache, c.last);
      var states := MergeActionStates(cache.lastActionStates, cache.mappedActions, s.actionStates);
      assert SeeActions(c, s) == c.(lastActions := states);
      cache.lastActionStates := states;
      Note(cache, c.(lastActions := states));
    }

    method MergeActionStates(last: map<string, Status>, mapped: set<string>, reported: map<string, Status>)
      returns (states: map<string, Status>)
      ensures states == last + (map id | id in reported && id in mapped :: reported[id])
    {
      states := last;
      var left := reported.Keys;
      while left != {}
        invariant left <= reported.Keys
        invariant forall id :: id in states <==> id in last || (id in reported && id !in left && id in mapped)
        invariant forall id :: id in states ==> states[id] == if id in reported && id !in left
          && id in mapped then reported[id] else last[id]
        decreases left
      {
        var id :| id in left;
        if id in mapped && !(id in states && states[id] == reported[id]) {
          states := states[id := reported[id]];
        }
        left := left - {id};
      }
    }

    /** The edge behind the last node, if it has been traversed by now. */
    method ProcessEdgeEvents(cache: OrderStateCache, s: State)
      requires Valid() && Known(cache) && cache.lastNodeTraversed.Some?
      modifies `tracker, `events, cache`lastEdgeProcessed
      ensures Valid() && old(Tracked(cache)).lastNode.Some?
      ensures tracker == Store(old(tracker), cache.eventHandler, SeeEdge(Seen(old(Tracked(cache)), []), s))
    {
      ghost var c := Tracked(cache);
      assert cache.Is(c) && RefersTo(cache.lastCache, c.last);
      var nextEdge := NextReleasedEdge(cache.combinedOrder.edges, cache.lastNodeTraversed.value);
      if nextEdge.Some? {
        var edge := cache.combinedOrder.edges[nextEdge.value];
        if !HasEdgeState(s.edgeStates, edge) && cache.lastEdgeProcessed != Some(edge) {
          cache.lastEdgeProcessed := Some(edge);
          events := events + [OnEdgeTraversed(edge)];
          Note(cache, c.(lastEdge := Some(edge)));
        }
      }
    }

    /** Events for nodes and edges: first the edge behind the last node, then the next node and the edge behind that. */
    method ProcessNodeEvents(cache: OrderStateCache, s: State)
      requires Valid() && Known(cache)
      modifies `tracker, `events, cache`lastNodeTraversed, cache`lastEdgeProcessed
      ensures Valid() && HasBase(old(Tracked(cache)).combined)
      ensures tracker == Store(old(tracker), cache.eventHandler, SeeProgress(old(Tracked(cache)), s))
    {
      ghost var m, c, i := tracker, Tracked(cache), cache.eventHandler;
      assert cache.Is(c);
      ghost var x := Seen(c, []);
      if cache.lastNodeTraversed.Some? {
        ProcessEdgeEvents(cache, s);
        x := SeeEdge(x, s);
      }
      assert tracker == Store(m, i, x);
      ProcessNextNode(cache, s, m, x);
    }

    method ProcessNextNode(cache: OrderStateCache, s: State, ghost m: Tracker, ghost x: Seen)
      requires Valid() && Known(cache) && |m.caches| == |all| && tracker == Store(m, cache.eventHandler, x)
      modifies `tracker, `events, cache`lastNodeTraversed, cache`lastEdgeProcessed
      ensures HasBase(x.cache.combined)
      ensures Valid() && tracker == Store(m, cache.eventHandler, SeeNode(x, s))
    {
      assert cache.Is(Tracked(cache)) && Tracked(cache) == x.cache;
      var nextNode: Option<Node> := None;
      if cache.lastNodeTraversed.None? {
        var firstNode := cache.combinedOrder.nodes[0];
        if !HasNodeState(s.nodeStates, firstNode) {
          nextNode := Some(firstNode);
        }
      } else if cache.lastNodeTraversed.value.nodeId != s.lastNodeId
        || cache.lastNodeTraversed.value.sequenceId != s.lastNodeSequenceId {
        var k := FindNode(cache.combinedOrder.nodes, s.lastNodeId, s.lastNodeSequenceId);
        nextNode := if k.None? then None else Some(cache.combinedOrder.nodes[k.value]);
      }
      assert nextNode == NewlyReached(x.cache, s);
      if nextNode.Some? {
        ReachNode(cache, nextNode.value);
        ghost var y := Seen(x.cache.(lastNode := nextNode), x.events + [OnNodeTraversed(nextNode.value)]);
        StoreTwice(m, cache.eventHandler, x, y.cache, [OnNodeTraversed(nextNode.value)]);
        StoreEdge(m, cache.eventHandler, y, s);
        ProcessEdgeEvents(cache, s);
      }
    }

    method ReachNode(cache: OrderStateCache, node: Node)
      requires Valid() && Known(cache)
      modifies `tracker, `events, cache`lastNodeTraversed
      ensures Valid() && cache.lastNodeTraversed == Some(node)
      ensures tracker == Store(old(tracker), cache.eventHandler,
                               Seen(old(Tracked(cache)).(lastNode := Some(node)), [OnNodeTraversed(node)]))
    {
      ghost var c := Tracked(cache);
      assert cache.Is(c) && RefersTo(cache.lastCache, c.last);
      cache.lastNodeTraversed := Some(node);
      events := events + [OnNodeTraversed(node)];
      Note(cache, c.(lastNode := Some(node)));
    }

    method IsOrderProcessed(cache: OrderStateCache, s: State) returns (outcome: Option<Outcome>)
      requires Valid() && Known(cache)
      ensures outcome == ProcessedAs(Tracked(cache), s)
    {
      assert cache.Is(Tracked(cache));
      if |s.nodeStates| == 0 && |s.edgeStates| == 0 {
        outcome := Some(Completed);
      } else if (forall n :: n in s.nodeStates ==> !n.released) && (forall e :: e in s.edgeStates ==> !e.released) {
        outcome := Some(StillActive);
      } else {
        return None;
      }
      var left := cache.mappedActions;
      while left != {}
        invariant left <= cache.mappedActions
        invariant forall id :: id in cache.mappedActions && id !in left ==>
          id in cache.lastActionStates && Ended(cache.lastActionStates[id])
        decreases left
      {
        var id :| id in left;
        if !(id in cache.lastActionStates && Ended(cache.lastActionStates[id])) {
          return None;
        }
        left := left - {id};
      }
    }

    method ReportProcessed(cache: OrderStateCache, s: State)
      requires Valid() && Known(cache)
      modifies this, cache
      ensures Valid() && all == old(all) && tracker == SeeProcessed(old(tracker), cache.eventHandler, s)
    {
      var outcome := IsOrderProcessed(cache, s);
      assert cache.Is(Tracked(cache));
      ghost var m := tracker;
      if outcome.Some? && !cache.isOrderProcessedHandlerInvoked {
        if outcome.value.Completed? {
          RemoveOrderStateCache(cache, true);
        }
        InvokeProcessedHandler(cache, outcome.value);
        ProcessedStored(m, cache.eventHandler, s);
      }
    }

    method InvokeProcessedHandler(cache: OrderStateCache, outcome: Outcome)
      requires Valid() && Known(cache)
      modifies `tracker, `events, cache`isOrderProcessedHandlerInvoked
      ensures Valid()
      ensures tracker == Store(old(tracker), cache.eventHandler,
                               Seen(old(Tracked(cache)).(processed := true),
                                    [OnOrderProcessed(cache.eventHandler, outcome)]))
    {
      ghost var c := Tracked(cache);
      assert cache.Is(c) && RefersTo(cache.lastCache, c.last);
      cache.isOrderProcessedHandlerInvoked := true;
      events := events + [OnOrderProcessed(cache.eventHandler, outcome)];
      Note(cache, c.(processed := true));
    }

    // ---------- Stitching, and whole states ----------

    /** The horizon of `base` is replaced by `added`, the actions of whose first node go to the base end. */
    method CombineOrders(base: Order, added: Order) returns (combined: Order)
      requires HasBase(base) && |added.nodes| > 0
      ensures combined == Stitch(base, added)
    {
      var end, edges := BaseLen(base.nodes) - 1, EdgeBaseLen(base.edges);
      var baseEnd := base.nodes[end].(actions := base.nodes[end].actions + added.nodes[0].actions);
      combined := Order(added.orderId, added.orderUpdateId,
                        base.nodes[..end] + [baseEnd] + added.nodes[1..],
                        base.edges[..edges] + added.edges);
    }

    /** Takes over what was seen of the order that this one was stitched onto. */
    method CombineWith(cache: OrderStateCache, last: OrderStateCache)
      requires Valid() && Known(cache) && Known(last) && cache != last
      modifies `tracker, cache
      ensures Valid() && HasBase(old(Tracked(last)).combined) && HasBase(old(Tracked(cache)).combined)
      ensures tracker == Store(old(tracker), cache.eventHandler,
                               Seen(Combine(old(Tracked(last)), old(Tracked(cache))), []))
    {
      ghost var c, l := Tracked(cache), Tracked(last);
      assert cache.Is(c) && RefersTo(cache.lastCache, c.last) && last.Is(l);
      CombineHasBase(l, c);
      CombineFields(cache, last, c, l);
      Note(cache, Combine(l, c));
    }

    method CombineFields(cache: OrderStateCache, last: OrderStateCache, ghost c: Cache, ghost l: Cache)
      requires cache != last && cache.Is(c) && last.Is(l) && HasBase(l.combined) && HasBase(c.combined)
      modifies cache`combinedOrder, cache`lastNodeTraversed, cache`lastEdgeProcessed, cache`mappedActions,
        cache`lastActionStates
      ensures cache.Is(Combine(l, c))
    {
      var combined := CombineOrders(last.combinedOrder, cache.combinedOrder);
      cache.combinedOrder := combined;
      cache.lastNodeTraversed := FindCombined(combined, last.lastNodeTraversed);
      cache.lastEdgeProcessed := last.lastEdgeProcessed;
      cache.mappedActions := last.mappedActions + cache.mappedActions;
      cache.lastActionStates := last.lastActionStates;
    }

    method StitchOntoLastActive(cache: OrderStateCache)
      requires Valid() && Known(cache)
      modifies this, all
      ensures Valid() && all == old(all) && tracker == TakeOver(old(tracker), cache.eventHandler)
    {
      assert RefersTo(cache.lastCache, Tracked(cache).last);
      if cache.lastCache != null {
        var last := GetLastActiveOrderStateCache(cache);
        if last != null {
          CombineWith(cache, last);
          RemoveOrderStateCache(last, true);
        }
      }
    }

    method DispatchOrderState(cache: OrderStateCache, s: State)
      requires Valid() && Known(cache)
      modifies this, all
      ensures Valid() && all == old(all) && tracker == Master.DispatchOrderState(old(tracker), cache.eventHandler, s)
    {
      StitchOntoLastActive(cache);
      ghost var m := tracker;
      DispatchActionStates(cache, s);
      ProcessNodeEvents(cache, s);
      ghost var c := SeeActions(m.caches[cache.eventHandler], s);
      StoreTwice(m, cache.eventHandler, Seen(c, []), SeeProgress(c, s).cache, SeeProgress(c, s).events);
      ReportProcessed(cache, s);
    }

    /** Orders that the vehicle has rejected. */
    method DispatchErrors(errors: seq<Rejection>)
      requires Valid()
      modifies this, all
      ensures Valid() && all == old(all) && tracker == Master.DispatchErrors(old(tracker), errors)
    {
      ghost var goal := Master.DispatchErrors(tracker, errors);
      var i := 0;
      while i < |errors|
        invariant 0 <= i <= |errors|
        invariant Valid() && all == old(all)
        invariant Master.DispatchErrors(tracker, errors[i..]) == goal
      {
        assert errors[i..][1..] == errors[i + 1..];
        RejectOrder((errors[i].orderId, errors[i].orderUpdateId));
        i := i + 1;
      }
    }

    method RejectOrder(key: OrderKey)
      requires Valid()
      modifies this, all
      ensures Valid() && all == old(all)
      ensures
        var m := old(tracker);
        tracker == if key !in m.index then m
                   else
                     RemoveCache(m, m.index[key], false).(
                       events := m.events + [OnOrderProcessed(m.index[key], Rejected)])
    {
      if key in currentOrders {
        var cache := currentOrders[key];
        assert Tracked(cache).order == cache.order;
        RemoveOrderStateCache(cache, false);
        Raise(OnOrderProcessed(cache.eventHandler, Rejected));
      }
    }

    method Raise(e: MasterEvent)
      requires Valid()
      modifies `tracker, `events
      ensures Valid() && tracker == old(tracker).(events := old(tracker).events + [e])
    {
      events := events + [e];
      tracker := tracker.(events := events);
    }

    /** A state of the vehicle arrives: first rejections, then what it tells about the order it names. */
    method DispatchState(s: State)
      requires Valid()
      modifies this, all
      ensures Valid() && all == old(all) && tracker == Dispatch(old(tracker), s)
    {
      DispatchErrors(s.errors);
      var key := (s.orderId, s.orderUpdateId);
      if key in currentOrders {
        DispatchOrderState(currentOrders[key], s);
      }
    }
  }
}