/**
 Vehicle and master controller together: orders and states travel in order over channels, and every
 interleaving of assigning, delivering, driving and dispatching is a run.
 */
module OrderSystem {
  import opened Orders
  import opened AgvEngine
  import opened AgvInvariants
  import opened AgvReports
  import opened ReportChain
  import opened Master
  import opened MasterAgreement

  /**
   `channel` holds the orders assigned but not delivered; the vehicle's first `dispatched` reports have been
   dispatched.
   */
  datatype System = System(agv: Agv, master: Tracker, channel: seq<Order>, dispatched: nat)

  datatype Move =
    | Assign(order: Order)
    | Deliver(checks: Checks)
    | Vehicle(event: Event)
    | DispatchNext

  function Start(lastNodeId: string): System {
    System(Initial(lastNodeId), EMPTY, [], 0)
  }

  /**
   Assigned orders have a base, and fresh ids unless they repeat those of a tracked one; nothing is canceled,
     and accepted
   orders can be walked step by step.
   */
  ghost predicate CanMove(x: System, mv: Move) {
    match mv
    case Assign(o) => HasBase(o) && (KeyOf(o) in x.master.index || FreshKeys(OrdersOf(x.master) + [o]))
    case Deliver(c) =>
      && x.channel != [] && Enabled(x.agv, OrderArrives(x.channel[0], c))
           && Ordinary(x.agv, OrderArrives(x.channel[0], c))
    case Vehicle(e) => !e.OrderArrives? && Enabled(x.agv, e) && Ordinary(x.agv, e)
    case DispatchNext => x.dispatched < |x.agv.sent| && Sound(x.master)
  }

  ghost function Next(x: System, mv: Move): System
    requires CanMove(x, mv)
  {
    match mv
    case Assign(o) =>
      x.(master := AssignOrder(x.master, o),
         channel := if KeyOf(o) in x.master.index then x.channel else x.channel + [o])
    case Deliver(c) => x.(agv := Step(x.agv, OrderArrives(x.channel[0], c)), channel := x.channel[1..])
    case Vehicle(e) => x.(agv := Step(x.agv, e))
    case DispatchNext =>
      x.(master := Dispatch(x.master, x.agv.sent[x.dispatched].state), dispatched := x.dispatched + 1)
  }

  /** The events that tell what happened over a sequence of reports. */
  ghost function Story(reports: seq<Report>): seq<MasterEvent> {
    if |reports| <= 1 then []
    else
      var n := |reports| - 1;
      Story(reports[..n]) + Progress(reports[n - 1], reports[n]) + Notice(reports[n - 1], reports[n])
  }

  // ---------- The invariant of all runs ----------

  /** The report the master has seen last. */
  function LastSeen(x: System): Report
    requires x.agv.sent != [] && x.dispatched <= |x.agv.sent|
  {
    x.agv.sent[if x.dispatched == 0 then 0 else x.dispatched - 1]
  }

  ghost predicate SystemInv(x: System) {
    && Tells(x.agv)
    && OrdersOf(x.master) == x.agv.decided + x.channel
    && FreshKeys(OrdersOf(x.master))
    && x.dispatched <= |x.agv.sent|
    && Sim(x.master, LastSeen(x))
    && x.master.events == Story(x.agv.sent[..x.dispatched])
  }

  lemma {:induction false} StartInv(lastNodeId: string)
    ensures SystemInv(Start(lastNodeId))
  {
    StartSim(lastNodeId);
    assert Initial(lastNodeId).sent[..0] == [];
  }

  lemma {:induction false} StartSim(lastNodeId: string)
    ensures Tells(Initial(lastNodeId)) && OrdersOf(EMPTY) == [] && Sim(EMPTY, Initial(lastNodeId).sent[0])
  {
    assert OrdersOf(EMPTY) == [];
  }

  // ---------- Assigning ----------

  lemma {:induction false} AddCacheTracked(m: Tracker, o: Order, decided: nat, current: int, active: bool)
    requires Tracked(m, decided, current, active) && HasBase(o) && FreshKeys(OrdersOf(m) + [o])
    ensures KeyOf(o) !in m.index && KeyOf(o) !in KeysOf(OrdersOf(m))
    ensures OrdersOf(AddCache(m, o)) == OrdersOf(m) + [o]
    ensures Tracked(AddCache(m, o), decided, current, active)
  {
    FreshKey(m, o);
    AddCacheSound(m, o);
    AddCacheLinks(m, o, decided, current, active);
  }

  lemma {:induction false} AddCacheSound(m: Tracker, o: Order)
    requires Sound(m) && HasBase(o) && (m.lastAssigned.Some? ==> m.lastAssigned.value < |m.caches|)
    requires forall i :: 0 <= i < |m.caches| ==> KeyOf(m.caches[i].order) != KeyOf(o)
    ensures var m' := AddCache(m, o);
      && Sound(m') && OrdersOf(m') == OrdersOf(m) + [o]
      && forall i: nat :: i < |m'.caches| ==> (IsPresent(m', i) <==> i == |m.caches| || IsPresent(m, i))
  {
    assert OrdersOf(AddCache(m, o)) == OrdersOf(m) + [o];
  }

  lemma {:induction false} FreshKey(m: Tracker, o: Order)
    requires Sound(m) && FreshKeys(OrdersOf(m) + [o])
    ensures forall i :: 0 <= i < |m.caches| ==> KeyOf(m.caches[i].order) != KeyOf(o)
    ensures KeyOf(o) !in m.index && KeyOf(o) !in KeysOf(OrdersOf(m))
  {
    var all := OrdersOf(m) + [o];
    forall i | 0 <= i < |m.caches|
      ensures KeyOf(m.caches[i].order) != KeyOf(o)
    {
      assert all[i] == m.caches[i].order && all[|m.caches|] == o;
      assert all[i].orderId != all[|m.caches|].orderId || all[i].orderUpdateId != all[|m.caches|].orderUpdateId;
    }
  }

  /** The new order is linked to the one assigned before it as long as any order is tracked. */
  lemma {:induction false} AddCacheLinks(m: Tracker, o: Order, decided: nat, current: int, active: bool)
    requires Tracked(m, decided, current, active)
    requires forall i :: 0 <= i < |m.caches| ==> KeyOf(m.caches[i].order) != KeyOf(o)
    ensures var m' := AddCache(m, o);
      forall b: nat, i: nat :: IsPresent(m', b) && b < i < |m'.caches| ==> m'.caches[i].last == Some(i - 1)
  {
    var m' := AddCache(m, o);
    forall b: nat, i: nat | IsPresent(m', b) && b < i < |m'.caches|
      ensures m'.caches[i].last == Some(i - 1)
    {
      assert IsPresent(m, b);
    }
  }

  lemma {:induction false} AssignKeeps(m: Tracker, o: Order, r: Report)
    requires Sim(m, r) && HasBase(o) && FreshKeys(OrdersOf(m) + [o])
    ensures Sim(AssignOrder(m, o), r) && AssignOrder(m, o).events == m.events
    ensures OrdersOf(AssignOrder(m, o)) == OrdersOf(m) + [o]
  {
    AddCacheTracked(m, o, r.shadow.decided, r.shadow.current, IsActive(r.state));
    AssignErrors(m, o, r.state.errors);
  }

  lemma {:induction false} AssignErrors(m: Tracker, o: Order, errors: seq<Rejection>)
    requires ErrorsSettled(m, errors) && KeyOf(o) !in KeysOf(OrdersOf(m))
      && OrdersOf(AddCache(m, o)) == OrdersOf(m) + [o]
    ensures ErrorsSettled(AddCache(m, o), errors)
  {
  }

  // ---------- Delivering, driving, dispatching ----------

  lemma {:induction false} FreshPrefix(a: seq<Order>, b: seq<Order>)
    requires FreshKeys(a + b)
    ensures FreshKeys(a)
  {
    forall i, j | 0 <= i < j < |a|
      ensures a[i].orderId != a[j].orderId || a[i].orderUpdateId != a[j].orderUpdateId
    {
      assert (a + b)[i] == a[i] && (a + b)[j] == a[j];
    }
    forall i | 0 <= i < |a|
      ensures a[i].orderId != "" || a[i].orderUpdateId != 0
    {
      assert (a + b)[i] == a[i];
    }
  }

  lemma {:induction false} VehicleKeeps(x: System, e: Event, channel: seq<Order>)
    requires SystemInv(x) && Enabled(x.agv, e) && Ordinary(x.agv, e)
    requires if e.OrderArrives? then x.channel == [e.order] + channel else x.channel == channel
    ensures SystemInv(x.(agv := Step(x.agv, e), channel := channel))
  {
    StepOrders(x, e, channel);
    StepTells(x.agv, e);
    SeenUnchanged(x, Step(x.agv, e), channel);
  }

  /** An order that is delivered moves from the channel to the orders decided on. */
  lemma {:induction false} StepOrders(x: System, e: Event, channel: seq<Order>)
    requires SystemInv(x) && Enabled(x.agv, e) && Ordinary(x.agv, e)
    requires if e.OrderArrives? then x.channel == [e.order] + channel else x.channel == channel
    ensures OrdersOf(x.master) == Step(x.agv, e).decided + channel
    ensures e.OrderArrives? ==> FreshKeys(x.agv.decided + [e.order])
  {
    StepDecides(x.agv, e);
    if e.OrderArrives? {
      Delivered(OrdersOf(x.master), x.agv.decided, e.order, channel);
    }
  }

  lemma {:induction false} StepDecides(a: Agv, e: Event)
    requires Tells(a) && Enabled(a, e) && Ordinary(a, e)
    ensures Step(a, e).decided == if e.OrderArrives? then a.decided + [e.order] else a.decided
  {
    StepSends(a, e);
  }

  lemma {:induction false} Delivered(all: seq<Order>, decided: seq<Order>, o: Order, channel: seq<Order>)
    requires all == decided + ([o] + channel) && FreshKeys(all)
    ensures all == decided + [o] + channel && FreshKeys(decided + [o])
  {
    assert all == decided + [o] + channel;
    FreshPrefix(decided + [o], channel);
  }

  /** What has been dispatched does not change when the vehicle sends more. */
  lemma {:induction false} SeenUnchanged(x: System, b: Agv, channel: seq<Order>)
    requires SystemInv(x) && Tells(b) && x.agv.sent <= b.sent
    requires OrdersOf(x.master) == b.decided + channel
    ensures SystemInv(x.(agv := b, channel := channel))
  {
    assert b.sent[..x.dispatched] == x.agv.sent[..x.dispatched];
  }

  lemma {:induction false} NextFollows(x: System)
    requires SystemInv(x) && x.dispatched < |x.agv.sent|
    ensures Follows(OrdersOf(x.master), LastSeen(x), x.agv.sent[x.dispatched])
  {
    if x.dispatched > 0 {
      var i := x.dispatched - 1;
      assert Follows(x.agv.decided, x.agv.sent[i], x.agv.sent[i + 1]);
      FollowsWithMore(x.agv.decided, OrdersOf(x.master), x.agv.sent[i], x.agv.sent[i + 1]);
    }
  }

  /** The events raised for the next report. */
  lemma {:induction false} NextEvents(x: System)
    requires SystemInv(x) && CanMove(x, DispatchNext)
    ensures var r, m := x.agv.sent[x.dispatched], Next(x, DispatchNext).master;
      && Faithful(r) && Sim(m, r) && m.events == x.master.events + Progress(LastSeen(x), r) + Notice(LastSeen(x), r)
  {
    NextFollows(x);
    FollowsFaithful(OrdersOf(x.master), LastSeen(x), x.agv.sent[x.dispatched]);
    MasterAgreement.DispatchKeeps(x.master, LastSeen(x), x.agv.sent[x.dispatched]);
  }

  lemma {:induction false} DispatchNextKeeps(x: System)
    requires SystemInv(x) && CanMove(x, DispatchNext)
    ensures SystemInv(Next(x, DispatchNext))
  {
    var n := x.dispatched;
    NextEvents(x);
    DispatchOrders(x.master, x.agv.sent[n].state);
    if n == 0 {
      FirstReportSilent(LastSeen(x));
      assert Story(x.agv.sent[..1]) == [] == Story(x.agv.sent[..0]);
    } else {
      StoryGrows(x.agv.sent, n);
    }
  }

  lemma {:induction false} StoryGrows(sent: seq<Report>, n: nat)
    requires 0 < n < |sent|
    ensures Story(sent[..n + 1]) == Story(sent[..n]) + Progress(sent[n - 1], sent[n]) + Notice(sent[n - 1], sent[n])
  {
    assert sent[..n + 1][..n] == sent[..n];
  }

  /** Seeing the same report again raises no event. */
  lemma {:induction false} FirstReportSilent(r: Report)
    ensures Progress(r, r) == [] && Notice(r, r) == []
  {
  }

  // ---------- All runs ----------

  ghost function Run(x: System, moves: seq<Move>): Option<System> {
    if moves == [] then Some(x)
    else
      var before := Run(x, moves[..|moves| - 1]);
      var mv := moves[|moves| - 1];
      if before.Some? && CanMove(before.value, mv) then Some(Next(before.value, mv)) else None
  }

  lemma {:induction false} AssignMoveKeeps(x: System, o: Order)
    requires SystemInv(x) && CanMove(x, Assign(o))
    ensures SystemInv(Next(x, Assign(o)))
  {
    if KeyOf(o) !in x.master.index {
      NewOrderKeeps(x, o);
    }
  }

  /** An order whose ids are those of a tracked one changes nothing, and is not sent. */
  lemma {:induction false} RepeatedIsDiscarded(x: System, o: Order)
    requires CanMove(x, Assign(o)) && KeyOf(o) in x.master.index
    ensures Next(x, Assign(o)) == x
  {
  }

  lemma {:induction false} NewOrderKeeps(x: System, o: Order)
    requires SystemInv(x) && HasBase(o) && FreshKeys(OrdersOf(x.master) + [o])
    ensures SystemInv(x.(master := AssignOrder(x.master, o), channel := x.channel + [o]))
  {
    AssignKeeps(x.master, o, LastSeen(x));
    OneMoreInChannel(OrdersOf(x.master), x.agv.decided, x.channel, o);
  }

  lemma {:induction false} OneMoreInChannel(all: seq<Order>, decided: seq<Order>, channel: seq<Order>, o: Order)
    requires all == decided + channel
    ensures all + [o] == decided + (channel + [o])
  {
  }

  lemma {:induction false} DeliverKeeps(x: System, c: Checks)
    requires SystemInv(x) && CanMove(x, Deliver(c))
    ensures SystemInv(Next(x, Deliver(c)))
  {
    VehicleKeeps(x, OrderArrives(x.channel[0], c), x.channel[1..]);
  }

  lemma {:induction false} MoveKeeps(x: System, mv: Move)
    requires SystemInv(x) && CanMove(x, mv)
    ensures SystemInv(Next(x, mv))
  {
    match mv
    case Assign(o) => AssignMoveKeeps(x, o);
    case Deliver(c) => DeliverKeeps(x, c);
    case Vehicle(e) => VehicleKeeps(x, e, x.channel);
    case DispatchNext => DispatchNextKeeps(x);
  }

  lemma {:induction false} RunsKeepInv(lastNodeId: string, moves: seq<Move>)
    requires Run(Start(lastNodeId), moves).Some?
    ensures SystemInv(Run(Start(lastNodeId), moves).value)
  {
    if moves == [] {
      StartInv(lastNodeId);
    } else {
      var before := moves[..|moves| - 1];
      RunsKeepInv(lastNodeId, before);
      MoveKeeps(Run(Start(lastNodeId), before).value, moves[|moves| - 1]);
    }
  }

  /** A system reached by some run. */
  ghost predicate Reachable(x: System) {
    exists lastNodeId, moves :: Run(Start(lastNodeId), moves) == Some(x)
  }

  /** Whatever the interleaving, the master has raised exactly the events of the reports dispatched so far. */
  lemma {:induction false} EventsAreStory(x: System)
    requires Reachable(x)
    ensures SystemInv(x) && x.master.events == Story(x.agv.sent[..x.dispatched])
  {
    var lastNodeId, moves :| Run(Start(lastNodeId), moves) == Some(x);
    RunsKeepInv(lastNodeId, moves);
  }

  /**
   Once all reports are dispatched the master holds the very order the vehicle works on, with its place and action
   states.
   */
  lemma {:induction false} CombinedOrderAgrees(x: System)
    requires Reachable(x) && x.dispatched == |x.agv.sent| && IsActive(x.agv.state)
    ensures x.agv.order.Some? && 0 <= x.agv.current < |x.master.caches| && IsPresent(x.master, x.agv.current)
    ensures var c, o := x.master.caches[x.agv.current], x.agv.order.value;
      && c.combined == o
      && 0 <= x.agv.pos < |o.nodes| && c.lastNode == Some(o.nodes[x.agv.pos])
      && forall id :: id in x.agv.state.actionStates ==>
           id in c.lastActions && c.lastActions[id] == x.agv.state.actionStates[id]
  {
    EventsAreStory(x);
    assert LastSeen(x) == Now(x.agv);
  }

  // ---------- The story of an order ----------

  /** The node and edge events among all events. */
  function Traversals(events: seq<MasterEvent>): seq<MasterEvent> {
    if events == [] then []
    else
      var e := events[|events| - 1];
      Traversals(events[..|events| - 1]) + (if e.OnOrderProcessed? then [] else [e])
  }

  lemma {:induction false} TraversalsConcat(a: seq<MasterEvent>, b: seq<MasterEvent>)
    ensures Traversals(a + b) == Traversals(a) + Traversals(b)
  {
    if b == [] {
      assert a + b == a;
    } else {
      var c := b[..|b| - 1];
      assert (a + b)[..|a + b| - 1] == a + c;
      TraversalsConcat(a, c);
    }
  }

  /** Nodes up to `pos` in their order, each edge between its start and its end node. */
  function Route(o: Order, pos: int): seq<MasterEvent>
    requires pos < |o.nodes| && pos <= |o.edges|
    decreases pos + 1
  {
    if pos < 0 then [] else Route(o, pos - 1) + Arrival(o, pos)
  }

  /** The order of `r'` is a new one, not stitched onto that of `r`. */
  predicate Renewed(r: Report, r': Report) {
    r'.shadow.current != r.shadow.current && r'.shadow.pos == -1
  }

  /** The route of a whole order. */
  function WholeRoute(order: Option<Order>): seq<MasterEvent> {
    if order.Some? && |order.value.edges| + 1 == |order.value.nodes| then Route(order.value, |order.value.edges|)
      else []
  }

  /** The routes of the orders before the present one, one after the other. */
  ghost function Earlier(reports: seq<Report>): seq<MasterEvent> {
    if |reports| <= 1 then []
    else
      var n := |reports| - 1;
      Earlier(reports[..n])
        + (if Renewed(reports[n - 1], reports[n]) then WholeRoute(reports[n - 1].shadow.order) else [])
  }

  /** The same, but for actions a node was given by stitching after it had been reached. */
  predicate SamePassage(e: MasterEvent, f: MasterEvent) {
    || e == f
    || (e.OnNodeTraversed? && f.OnNodeTraversed?
        && f.node == e.node.(actions := f.node.actions) && e.node.actions <= f.node.actions)
  }

  predicate SameRoute(events: seq<MasterEvent>, route: seq<MasterEvent>) {
    |events| == |route| && forall i :: 0 <= i < |route| ==> SamePassage(events[i], route[i])
  }

  lemma {:induction false} SameConcat(a: seq<MasterEvent>, b: seq<MasterEvent>, c: seq<MasterEvent>,
                                      d: seq<MasterEvent>)
    requires SameRoute(a, b) && SameRoute(c, d)
    ensures SameRoute(a + c, b + d)
  {
  }

  lemma {:induction false} SameTransitive(a: seq<MasterEvent>, b: seq<MasterEvent>, c: seq<MasterEvent>)
    requires SameRoute(a, b) && SameRoute(b, c)
    ensures SameRoute(a, c)
  {
    forall i | 0 <= i < |c|
      ensures SamePassage(a[i], c[i])
    {
      assert SamePassage(a[i], b[i]) && SamePassage(b[i], c[i]);
    }
  }

  lemma {:induction false} RouteOfStitched(present: Order, o: Order, pos: int)
    requires Stitchable(present, o) && pos < BaseLen(present.nodes)
    ensures pos < |Stitch(present, o).nodes| && pos <= |Stitch(present, o).edges| && pos <= |present.edges|
    ensures SameRoute(Route(present, pos), Route(Stitch(present, o), pos))
    decreases pos + 1
  {
    AlignedEdgeBase(present);
    if pos >= 0 {
      StitchedNodeOwner(present, o, pos);
      StitchedEdgeOwner(present, o, if pos > 0 then pos - 1 else 0);
      RouteOfStitched(present, o, pos - 1);
      assert SameRoute(Arrival(present, pos), Arrival(Stitch(present, o), pos));
      SameConcat(Route(present, pos - 1), Route(Stitch(present, o), pos - 1), Arrival(present, pos),
                 Arrival(Stitch(present, o), pos));
    } else {
      StitchedNodeOwner(present, o, 0);
      StitchedEdgeOwner(present, o, 0);
    }
  }

  ghost predicate AllFaithful(reports: seq<Report>) {
    forall i :: 0 <= i < |reports| ==> Faithful(reports[i])
  }

  lemma {:induction false} FaithfulAt(orders: seq<Order>, reports: seq<Report>, i: nat)
    requires Chained(orders, reports) && i < |reports| && Faithful(reports[0])
    ensures Faithful(reports[i])
  {
    if i > 0 {
      FaithfulAt(orders, reports, i - 1);
      assert Follows(orders, reports[i - 1], reports[i - 1 + 1]);
      FollowsFaithful(orders, reports[i - 1], reports[i]);
    }
  }

  lemma {:induction false} ChainFaithful(orders: seq<Order>, reports: seq<Report>)
    requires Chained(orders, reports) && reports != [] && Faithful(reports[0])
    ensures AllFaithful(reports)
  {
    forall i | 0 <= i < |reports|
      ensures Faithful(reports[i])
    {
      FaithfulAt(orders, reports, i);
    }
  }

  lemma {:induction false} OnlyTraversals(events: seq<MasterEvent>)
    requires forall i :: 0 <= i < |events| ==> !events[i].OnOrderProcessed?
    ensures Traversals(events) == events
  {
    if events != [] {
      OnlyTraversals(events[..|events| - 1]);
      assert events == events[..|events| - 1] + [events[|events| - 1]];
    }
  }

  lemma {:induction false} NoTraversals(events: seq<MasterEvent>)
    requires forall i :: 0 <= i < |events| ==> events[i].OnOrderProcessed?
    ensures Traversals(events) == []
  {
    if events != [] {
      NoTraversals(events[..|events| - 1]);
    }
  }

  lemma {:induction false} ProgressOnly(r: Report, r': Report)
    ensures forall i :: 0 <= i < |Progress(r, r')| ==> !Progress(r, r')[i].OnOrderProcessed?
    ensures forall i :: 0 <= i < |Notice(r, r')| ==> Notice(r, r')[i].OnOrderProcessed?
  {
  }

  lemma {:induction false} TraversalsOfStep(r: Report, r': Report)
    ensures Traversals(Progress(r, r')) == Progress(r, r') && Traversals(Notice(r, r')) == []
  {
    ProgressOnly(r, r');
    OnlyTraversals(Progress(r, r'));
    NoTraversals(Notice(r, r'));
  }

  /** The route of an order that is under way, according to a report. */
  function RouteOf(r: Report): seq<MasterEvent>
    requires r.shadow.order.Some? ==>
      r.shadow.pos < |r.shadow.order.value.nodes| && r.shadow.pos <= |r.shadow.order.value.edges|
  {
    if r.shadow.order.Some? then Route(r.shadow.order.value, r.shadow.pos) else []
  }

  lemma {:induction false} Appended(story: seq<MasterEvent>, p: seq<MasterEvent>, q: seq<MasterEvent>)
    requires Traversals(p) == p && Traversals(q) == []
    ensures Traversals(story + p + q) == Traversals(story) + p
  {
    TraversalsConcat(story, p);
    TraversalsConcat(story + p, q);
  }

  /** A step that goes on with the present order. */
  lemma {:induction false} SameOrderRoute(told: seq<MasterEvent>, earlier: seq<MasterEvent>, route: seq<MasterEvent>,
                                          more: seq<MasterEvent>, route': seq<MasterEvent>)
    requires SameRoute(told, earlier + route) && SameRoute(route + more, route')
    ensures SameRoute(told + more, earlier + [] + route')
  {
    SameConcat(told, earlier + route, more, more);
    assert earlier + route + more == earlier + (route + more);
    SameConcat(earlier, earlier, route + more, route');
    SameTransitive(told + more, earlier + (route + more), earlier + route');
    assert earlier + [] == earlier;
  }

  /** A step that begins an order. */
  lemma {:induction false} NewOrderRoute(told: seq<MasterEvent>, earlier: seq<MasterEvent>, route: seq<MasterEvent>)
    requires SameRoute(told, earlier + route)
    ensures SameRoute(told + [], earlier + route + [])
  {
    assert told + [] == told && earlier + route + [] == earlier + route;
  }

  /**
   In a run the node and edge events are the routes of the earlier orders as a whole, and that of the present order
   up to the place of the vehicle.
   */
  lemma {:induction false} StoryIsRoute(orders: seq<Order>, reports: seq<Report>)
    requires Chained(orders, reports) && reports != [] && Faithful(reports[0]) && reports[0].shadow.order.None?
    ensures Faithful(reports[|reports| - 1])
    ensures SameRoute(Traversals(Story(reports)), Earlier(reports) + RouteOf(reports[|reports| - 1]))
  {
    FaithfulAt(orders, reports, |reports| - 1);
    if |reports| > 1 {
      var n := |reports| - 1;
      var r, r' := reports[n - 1], reports[n];
      var before := reports[..n];
      ChainPrefix(orders, reports, n);
      StoryIsRoute(orders, before);
      assert before[|before| - 1] == r;
      assert Follows(orders, reports[n - 1], reports[n - 1 + 1]);
      TraversalsOfStep(r, r');
      Appended(Story(before), Progress(r, r'), Notice(r, r'));
      RouteStep(orders, r, r');
      if Renewed(r, r') {
        NewOrderRoute(Traversals(Story(before)), Earlier(before), RouteOf(r));
      } else {
        SameOrderRoute(Traversals(Story(before)), Earlier(before), RouteOf(r), Progress(r, r'), RouteOf(r'));
      }
    }
  }

  /** One report extends the route by what it shows; an order begins when the one before was walked as a whole. */
  lemma {:induction false} RouteStep(orders: seq<Order>, r: Report, r': Report)
    requires Faithful(r) && Faithful(r') && Follows(orders, r, r')
    ensures Renewed(r, r') ==> Progress(r, r') == [] && RouteOf(r') == [] && RouteOf(r) == WholeRoute(r.shadow.order)
    ensures !Renewed(r, r') ==> SameRoute(RouteOf(r) + Progress(r, r'), RouteOf(r'))
  {
    if Updated(r, r') {
      RouteStays(r, r');
    } else if Reaches(r, r') {
      RouteGrows(r, r');
    } else {
      var o := orders[r.shadow.decided];
      if Refuses(o, r, r') {
        RouteStays(r, r');
      } else if Begins(o, r, r') {
        RouteBegins(o, r, r');
      } else {
        RouteExtends(o, r, r');
      }
    }
  }

  lemma {:induction false} RouteStays(r: Report, r': Report)
    requires Faithful(r) && r'.shadow == r.shadow.(decided := r'.shadow.decided)
    ensures !Renewed(r, r') && Progress(r, r') == [] && RouteOf(r') == RouteOf(r) + Progress(r, r')
  {
  }

  lemma {:induction false} RouteGrows(r: Report, r': Report)
    requires Faithful(r) && Faithful(r') && Reaches(r, r')
    ensures !Renewed(r, r') && RouteOf(r') == RouteOf(r) + Progress(r, r')
  {
    var o, k := r.shadow.order.value, r'.shadow.pos;
    assert Progress(r, r') == Arrival(o, k);
  }

  lemma {:induction false} RouteBegins(o: Order, r: Report, r': Report)
    requires Faithful(r) && Faithful(r') && Begins(o, r, r')
    ensures Renewed(r, r') && Progress(r, r') == [] && RouteOf(r') == [] && RouteOf(r) == WholeRoute(r.shadow.order)
  {
    if r.shadow.order.Some? {
      NothingLeft(r.shadow.order.value, r);
    }
  }

  /** An order that is no longer active was walked to its last node. */
  lemma {:induction false} NothingLeft(o: Order, r: Report)
    requires Faithful(r) && r.shadow.order == Some(o) && !IsActive(r.state)
    ensures r.shadow.pos == |o.nodes| - 1 == |o.edges|
  {
    RouteStates(o, r);
    assert |NodeStates(o.nodes[r.shadow.pos + 1..])| == |o.nodes| - r.shadow.pos - 1;
  }

  lemma {:induction false} RouteExtends(o: Order, r: Report, r': Report)
    requires Faithful(r) && Faithful(r') && Extends(o, r, r')
    ensures !Renewed(r, r') && Progress(r, r') == [] && SameRoute(RouteOf(r) + Progress(r, r'), RouteOf(r'))
  {
    RouteOfStitched(r.shadow.order.value, o, r.shadow.pos);
    assert RouteOf(r) + [] == RouteOf(r);
  }

  // ---------- Processed orders ----------

  /** The orders reported as processed, one entry a report. */
  function ProcessedIds(events: seq<MasterEvent>): seq<nat> {
    if events == [] then []
    else
      var e := events[|events| - 1];
      ProcessedIds(events[..|events| - 1]) + (if e.OnOrderProcessed? then [e.cache] else [])
  }

  lemma {:induction false} ProcessedIdsConcat(a: seq<MasterEvent>, b: seq<MasterEvent>)
    ensures ProcessedIds(a + b) == ProcessedIds(a) + ProcessedIds(b)
  {
    if b == [] {
      assert a + b == a;
    } else {
      var c := b[..|b| - 1];
      assert (a + b)[..|a + b| - 1] == a + c;
      ProcessedIdsConcat(a, c);
    }
  }

  ghost predicate Distinct(ids: seq<nat>) {
    forall i, j :: 0 <= i < j < |ids| ==> ids[i] != ids[j]
  }

  /** What is known of the processed orders when `r` is the last report. */
  ghost predicate ProcessedInv(ids: seq<nat>, r: Report) {
    && Distinct(ids)
    && forall id :: id in ids ==> id < r.shadow.decided && (id == r.shadow.current ==> BaseDone(r.state))
  }

  lemma {:induction false} ProcessedIdsOfStep(r: Report, r': Report)
    ensures ProcessedIds(Progress(r, r')) == []
    ensures ProcessedIds(Notice(r, r')) == if Notice(r, r') == [] then [] else [Notice(r, r')[0].cache]
  {
    var p := Progress(r, r');
    if |p| > 0 {
      assert p[..|p| - 1] == if |p| == 1 then [] else [p[0]];
      assert |p| == 2 ==> p[..1] == [p[0]] && p[..1][..0] == [];
    }
    var n := Notice(r, r');
    assert n != [] ==> n[..0] == [];
  }

  lemma {:induction false} ProcessedStep(orders: seq<Order>, ids: seq<nat>, r: Report, r': Report)
    requires Faithful(r) && Faithful(r') && Follows(orders, r, r') && ProcessedInv(ids, r)
    ensures ProcessedInv(ids + ProcessedIds(Notice(r, r')), r')
  {
    ProcessedIdsOfStep(r, r');
    if Updated(r, r') {
      if BaseDone(r.state) {
        DoneStays(r, r');
      }
      SameOrderStep(ids, r, r');
    } else if Reaches(r, r') {
      NotDoneBefore(r, r');
      SameOrderStep(ids, r, r');
    } else {
      OrderStep(orders[r.shadow.decided], ids, r, r');
    }
  }

  lemma {:induction false} OrderStep(o: Order, ids: seq<nat>, r: Report, r': Report)
    requires ProcessedInv(ids, r) && Faithful(r) && Faithful(r')
      && (Refuses(o, r, r') || Begins(o, r, r') || Extends(o, r, r'))
    ensures ProcessedInv(ids + ProcessedIds(Notice(r, r')), r')
  {
    ProcessedIdsOfStep(r, r');
    AppendDistinct(ids, r.shadow.decided);
    assert ids + [] == ids;
    assert r'.shadow.current == r.shadow.current ==> (BaseDone(r.state) <==> BaseDone(r'.state));
  }

  lemma {:induction false} DoneStays(r: Report, r': Report)
    requires Updated(r, r') && BaseDone(r.state)
    ensures BaseDone(r'.state)
  {
  }

  lemma {:induction false} SameOrderStep(ids: seq<nat>, r: Report, r': Report)
    requires ProcessedInv(ids, r) && r'.shadow.current == r.shadow.current && r'.shadow.decided == r.shadow.decided
    requires r.shadow.current < r.shadow.decided
    requires BaseDone(r.state) ==> BaseDone(r'.state)
    ensures ProcessedInv(ids + ProcessedIds(Notice(r, r')), r')
  {
    ProcessedIdsOfStep(r, r');
    if Notice(r, r') != [] {
      AppendDistinct(ids, r.shadow.current);
    } else {
      assert ids + [] == ids;
    }
  }

  lemma {:induction false} AppendDistinct(ids: seq<nat>, id: nat)
    requires Distinct(ids) && id !in ids
    ensures Distinct(ids + [id]) && forall x :: x in ids + [id] <==> x in ids || x == id
  {
  }

  lemma {:induction false} ProcessedInRun(orders: seq<Order>, reports: seq<Report>)
    requires Chained(orders, reports) && reports != [] && Faithful(reports[0])
    ensures AllFaithful(reports) && ProcessedInv(ProcessedIds(Story(reports)), reports[|reports| - 1])
  {
    ChainFaithful(orders, reports);
    if |reports| > 1 {
      var n := |reports| - 1;
      var r, r' := reports[n - 1], reports[n];
      ProcessedInRun(orders, reports[..n]);
      assert reports[..n][n - 1] == r;
      var before := Story(reports[..n]);
      ProcessedIdsOfStep(r, r');
      ProcessedIdsConcat(before, Progress(r, r'));
      ProcessedIdsConcat(before + Progress(r, r'), Notice(r, r'));
      assert ProcessedIds(before) + [] == ProcessedIds(before);
      ProcessedStep(orders, ProcessedIds(before), r, r');
    }
  }

  lemma {:induction false} ChainPrefix(orders: seq<Order>, reports: seq<Report>, n: nat)
    requires Chained(orders, reports) && n <= |reports|
    ensures Chained(orders, reports[..n])
  {
    forall i | 0 <= i < n - 1
      ensures Follows(orders, reports[..n][i], reports[..n][i + 1])
    {
      assert Follows(orders, reports[i], reports[i + 1]);
    }
  }

  /** No order is ever reported as processed twice. */
  lemma {:induction false} ProcessedAtMostOnce(x: System)
    requires Reachable(x)
    ensures Distinct(ProcessedIds(x.master.events))
  {
    EventsAreStory(x);
    if x.dispatched > 0 {
      ChainPrefix(x.agv.decided, x.agv.sent, x.dispatched);
      ProcessedInRun(x.agv.decided, x.agv.sent[..x.dispatched]);
    }
  }

  /**
   The node and edge events the master has raised are the routes of the orders in their order: those of the earlier ones
   as a whole, that of the present one up to the place of the vehicle.
   */
  lemma {:induction false} EventsAreRoute(x: System)
    requires Reachable(x) && x.dispatched > 0
    ensures SystemInv(x) && Faithful(LastSeen(x))
    ensures SameRoute(Traversals(x.master.events), Earlier(x.agv.sent[..x.dispatched]) + RouteOf(LastSeen(x)))
  {
    EventsAreStory(x);
    ChainPrefix(x.agv.decided, x.agv.sent, x.dispatched);
    StoryIsRoute(x.agv.decided, x.agv.sent[..x.dispatched]);
  }

  // ---------- Each node and edge once ----------

  /** How often the node was reported as traversed. */
  function NodeEvents(events: seq<MasterEvent>, node: Node): nat {
    if events == [] then 0
    else
      var e := events[|events| - 1];
      NodeEvents(events[..|events| - 1], node)
      + (if e.OnNodeTraversed? && e.node.nodeId == node.nodeId && e.node.sequenceId == node.sequenceId then 1 else 0)
  }

  function EdgeEvents(events: seq<MasterEvent>, edge: Edge): nat {
    if events == [] then 0
    else
      EdgeEvents(events[..|events| - 1], edge) + (if events[|events| - 1] == OnEdgeTraversed(edge) then 1 else 0)
  }

  lemma {:induction false} SameCounts(events: seq<MasterEvent>, route: seq<MasterEvent>, node: Node, edge: Edge)
    requires SameRoute(events, route)
    ensures NodeEvents(events, node) == NodeEvents(route, node) && EdgeEvents(events, edge) == EdgeEvents(route, edge)
  {
    if events != [] {
      var n := |events| - 1;
      assert SamePassage(events[n], route[n]);
      SameCounts(events[..n], route[..n], node, edge);
    }
  }

  lemma {:induction false} CountsAppend(events: seq<MasterEvent>, e: MasterEvent, node: Node, edge: Edge)
    ensures NodeEvents(events + [e], node) == NodeEvents(events, node)
      + (if e.OnNodeTraversed? && e.node.nodeId == node.nodeId && e.node.sequenceId == node.sequenceId then 1 else 0)
    ensures EdgeEvents(events + [e], edge) == EdgeEvents(events, edge) + (if e == OnEdgeTraversed(edge) then 1 else 0)
  {
    assert (events + [e])[..|events|] == events;
  }

  /** On a route each node up to the place occurs once, and each edge before it. */
  lemma {:induction false} RouteCounts(o: Order, pos: int, k: nat)
    requires Chain(o) && pos < |o.nodes| && pos <= |o.edges|
    ensures k < |o.nodes| ==> NodeEvents(Route(o, pos), o.nodes[k]) == if k <= pos then 1 else 0
    ensures k < |o.edges| ==> EdgeEvents(Route(o, pos), o.edges[k]) == if k < pos then 1 else 0
    ensures |Route(o, pos)| == if pos < 0 then 0 else 2 * pos + 1
    decreases pos + 1
  {
    if pos >= 0 {
      RouteCounts(o, pos - 1, k);
      ArrivalCounts(Route(o, pos - 1), o, pos, k);
    }
  }

  lemma {:induction false} ArrivalCounts(route: seq<MasterEvent>, o: Order, pos: nat, k: nat)
    requires Chain(o) && pos < |o.nodes| && pos <= |o.edges|
    ensures k < |o.nodes| ==>
      NodeEvents(route + Arrival(o, pos), o.nodes[k]) == NodeEvents(route, o.nodes[k]) + (if k == pos then 1 else 0)
    ensures k < |o.edges| ==>
      EdgeEvents(route + Arrival(o, pos), o.edges[k]) == EdgeEvents(route, o.edges[k]) + (if k + 1 == pos then 1 else 0)
  {
    var node, edge := o.nodes[if k < |o.nodes| then k else 0], if k < |o.edges| then o.edges[k]
      else Edge("", 0, false, "", "", []);
    var last := OnNodeTraversed(o.nodes[pos]);
    if pos == 0 {
      CountsAppend(route, last, node, edge);
    } else {
      var e := OnEdgeTraversed(o.edges[pos - 1]);
      assert EdgeFits(o, pos - 1);
      assert k < |o.edges| ==> EdgeFits(o, k);
      CountsAppend(route, e, node, edge);
      CountsAppend(route + [e], last, node, edge);
      assert route + Arrival(o, pos) == route + [e] + [last];
    }
  }

  /** Of the present order each node reached was reported once, each edge behind it once, and nothing else. */
  lemma {:induction false} EachOnce(x: System, k: nat)
    requires Reachable(x) && 0 < x.dispatched <= |x.agv.sent| && LastSeen(x).shadow.order.Some?
    ensures var o, pos, n := LastSeen(x).shadow.order.value, LastSeen(x).shadow.pos,
      |Earlier(x.agv.sent[..x.dispatched])|;
      && n <= |Traversals(x.master.events)|
      && var own := Traversals(x.master.events)[n..];
      && |own| == (if pos < 0 then 0 else 2 * pos + 1)
      && (k < |o.nodes| ==> NodeEvents(own, o.nodes[k]) == if k <= pos then 1 else 0)
      && (k < |o.edges| ==> EdgeEvents(own, o.edges[k]) == if k < pos then 1 else 0)
      && (BaseDone(LastSeen(x).state) ==> pos == BaseLen(o.nodes) - 1)
  {
    EventsAreRoute(x);
    OwnEvents(Traversals(x.master.events), Earlier(x.agv.sent[..x.dispatched]), LastSeen(x), k);
  }

  lemma {:induction false} OwnEvents(told: seq<MasterEvent>, earlier: seq<MasterEvent>, r: Report, k: nat)
    requires Faithful(r) && r.shadow.order.Some? && SameRoute(told, earlier + RouteOf(r))
    ensures var o, pos, n := r.shadow.order.value, r.shadow.pos, |earlier|;
      && n <= |told| && |told[n..]| == (if pos < 0 then 0 else 2 * pos + 1)
      && (k < |o.nodes| ==> NodeEvents(told[n..], o.nodes[k]) == if k <= pos then 1 else 0)
      && (k < |o.edges| ==> EdgeEvents(told[n..], o.edges[k]) == if k < pos then 1 else 0)
      && (BaseDone(r.state) ==> pos == BaseLen(o.nodes) - 1)
  {
    var o, pos := r.shadow.order.value, r.shadow.pos;
    SameTail(told, earlier, Route(o, pos));
    TailCounts(told[|earlier|..], o, pos, k);
    if BaseDone(r.state) {
      DoneAtEnd(o, r);
    }
  }

  lemma {:induction false} TailCounts(own: seq<MasterEvent>, o: Order, pos: int, k: nat)
    requires Chain(o) && pos < |o.nodes| && pos <= |o.edges| && SameRoute(own, Route(o, pos))
    ensures |own| == if pos < 0 then 0 else 2 * pos + 1
    ensures k < |o.nodes| ==> NodeEvents(own, o.nodes[k]) == if k <= pos then 1 else 0
    ensures k < |o.edges| ==> EdgeEvents(own, o.edges[k]) == if k < pos then 1 else 0
  {
    RouteCounts(o, pos, k);
    var edge := if k < |o.edges| then o.edges[k] else Edge("", 0, false, "", "", []);
    SameCounts(own, Route(o, pos), o.nodes[if k < |o.nodes| then k else 0], edge);
  }

  lemma {:induction false} SameTail(events: seq<MasterEvent>, a: seq<MasterEvent>, b: seq<MasterEvent>)
    requires SameRoute(events, a + b)
    ensures |a| <= |events| && SameRoute(events[|a|..], b)
  {
    forall i | 0 <= i < |b|
      ensures SamePassage(events[|a|..][i], b[i])
    {
      assert SamePassage(events[|a| + i], (a + b)[|a| + i]);
    }
  }

  /** When the processing of an accepted order is reported, the last node of its base has been. */
  lemma {:induction false} ProcessedAfterLastNode(x: System, y: System, k: nat)
    requires Reachable(x) && CanMove(x, DispatchNext) && y == Next(x, DispatchNext)
    requires |x.master.events| <= k < |y.master.events|
    requires y.master.events[k].OnOrderProcessed? && !y.master.events[k].outcome.Rejected?
    ensures var r := x.agv.sent[x.dispatched];
      && r.shadow.order.Some? && y.master.events[k].cache == r.shadow.current
      && r.shadow.pos == BaseLen(r.shadow.order.value.nodes) - 1
  {
    var r := x.agv.sent[x.dispatched];
    EventsAreStory(x);
    NextEvents(x);
    NoticeOf(LastSeen(x), r, x.master.events, y.master.events, k);
    DoneAtEnd(r.shadow.order.value, r);
  }

  /** A completed base has been walked to its end. */
  lemma {:induction false} DoneAtEnd(o: Order, r: Report)
    requires Faithful(r) && r.shadow.order == Some(o) && BaseDone(r.state)
    ensures r.shadow.pos == BaseLen(o.nodes) - 1
  {
    RouteStates(o, r);
    NothingAhead(o, r.state, r.shadow.pos);
  }

  lemma {:induction false} NothingAhead(o: Order, s: State, pos: int)
    requires StatesAt(o, s, pos) && pos < BaseLen(o.nodes) && BaseDone(s)
    ensures pos == BaseLen(o.nodes) - 1
  {
    if pos + 1 < BaseLen(o.nodes) {
      NodeAhead(o, s, pos);
    }
  }

  lemma {:induction false} NoticeOf(r: Report, r': Report, before: seq<MasterEvent>, after: seq<MasterEvent>, k: nat)
    requires Faithful(r') && after == before + Progress(r, r') + Notice(r, r') && |before| <= k < |after|
    requires after[k].OnOrderProcessed? && !after[k].outcome.Rejected?
    ensures r'.shadow.order.Some? && after[k].cache == r'.shadow.current && BaseDone(r'.state)
  {
    AddedEvent(before, Progress(r, r'), Notice(r, r'), k);
    NoticeMeans(r, r', after[k]);
  }

  lemma {:induction false} AddedEvent(a: seq<MasterEvent>, b: seq<MasterEvent>, c: seq<MasterEvent>, k: nat)
    requires |a| <= k < |a + b + c| && |c| <= 1 && (a + b + c)[k].OnOrderProcessed?
    requires forall i :: 0 <= i < |b| ==> !b[i].OnOrderProcessed?
    ensures c == [(a + b + c)[k]]
  {
    forall i | |a| <= i < |a| + |b|
      ensures !(a + b + c)[i].OnOrderProcessed?
    {
      assert (a + b + c)[i] == b[i - |a|];
    }
    assert k >= |a| + |b|;
  }

  lemma {:induction false} NoticeMeans(r: Report, r': Report, e: MasterEvent)
    requires Faithful(r') && Notice(r, r') == [e] && e.OnOrderProcessed? && !e.outcome.Rejected?
    ensures r'.shadow.order.Some? && e.cache == r'.shadow.current && BaseDone(r'.state)
  {
    assert e == Notice(r, r')[0];
  }
}
