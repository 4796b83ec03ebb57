/** Which arriving orders the vehicle takes over, what it does with the others, and how update ids rise. */
module AgvOrders {
  import opened Orders
  import opened AgvEngine
  import opened AgvInvariants
  import opened AgvReports
  import opened AgvCalls
  import Lists = ActionLists

  // ---------- One order ----------

  /** Nothing but its place and its ids keeps the vehicle from executing the order. */
  predicate Executable(a: Agv, o: Order, c: Checks) {
    && WellFormed(o) && !a.canceling
    && c.routeTraversable && c.actionsExecutable
    && !c.charging && !c.emergencyStop && !c.fieldViolation && c.automatic
  }

  /** The order is an update of the present one, or has another id. */
  predicate IsNewer(a: Agv, o: Order) {
    a.order.Some? && o.orderId == a.order.value.orderId ==> o.orderUpdateId > a.order.value.orderUpdateId
  }

  predicate IsRepeated(a: Agv, o: Order) {
    a.order.Some? && o.orderId == a.order.value.orderId && o.orderUpdateId == a.order.value.orderUpdateId
  }

  /**
   The order starts at the end of the base of an active one; otherwise an update starts at the last node reached, and a
   new order near enough to the vehicle.
   */
  predicate InPlace(a: Agv, o: Order, c: Checks)
    requires |o.nodes| > 0
  {
    if IsActive(a.state) then
      && a.order.Some? && HasBase(a.order.value)
      && o.nodes[0].nodeId == BaseEnd(a.order.value).nodeId
      && o.nodes[0].sequenceId == BaseEnd(a.order.value).sequenceId
    else if a.order.Some? && o.orderId == a.order.value.orderId then
      o.nodes[0].nodeId == a.state.lastNodeId && o.nodes[0].sequenceId == a.state.lastNodeSequenceId
    else
      c.withinDeviation
  }

  predicate Acceptable(a: Agv, o: Order, c: Checks) {
    Executable(a, o, c) && IsNewer(a, o) && InPlace(a, o, c)
  }

  /** The order is the present one from now on: by itself, or stitched onto the one that is still active. */
  predicate TakenOver(a: Agv, o: Order, b: Agv)
    requires |o.nodes| > 0
  {
    && b.order.Some?
    && (if IsActive(a.state) then CanStitch(a, o) && b.order.value == Stitch(a.order.value, o) else b.order.value == o)
    && b.state.orderId == o.orderId && b.state.orderUpdateId == o.orderUpdateId && b.state.errors == []
  }

  /** Everything is as before, except that the reported state has changed to `s` and was published once. */
  predicate OnlyPublishes(a: Agv, o: Order, s: State, b: Agv) {
    b == a.(state := s, decided := a.decided + [o], sent := b.sent)
    && |b.sent| == |a.sent| + 1 && a.sent <= b.sent && b.sent[|a.sent|].state == s
  }

  lemma {:induction false} BeginTakesOver(a: Agv, o: Order)
    requires Chain(o) && !IsActive(a.state)
    ensures TakenOver(a, o, Begin(a, o))
  {
    BeginSends(a, o);
  }

  lemma {:induction false} ExtendTakesOver(a: Agv, o: Order)
    requires Chain(o) && CanStitch(a, o) && IsActive(a.state)
    ensures TakenOver(a, o, Extend(a, o))
  {
    ExtendSends(a, o);
  }

  /**
   An arriving order is taken over if and only if it is acceptable. One that repeats the ids of the present order is
   only answered by the present state, and any other one by one rejection with its ids.
   */
  lemma {:induction false} OrderTakenOverIff(a: Agv, o: Order, c: Checks)
    requires Enabled(a, OrderArrives(o, c))
    ensures var b := Step(a, OrderArrives(o, c));
      && (b.order != a.order <==> Acceptable(a, o, c))
      && (Acceptable(a, o, c) ==> TakenOver(a, o, b))
      && (!Acceptable(a, o, c) && Executable(a, o, c) && IsRepeated(a, o) ==> OnlyPublishes(a, o, a.state, b))
      && (!Acceptable(a, o, c) && !(Executable(a, o, c) && IsRepeated(a, o)) ==>
            var errors := a.state.errors + [Rejection(o.orderId, o.orderUpdateId)];
            OnlyPublishes(a, o, a.state.(errors := errors), b))
  {
    match Decide(a, o, c)
    case AcceptNew => BeginTakesOver(a, o);
    case AcceptUpdate => BeginTakesOver(a, o);
    case AcceptStitch => ExtendTakesOver(a, o);
    case _ =>
  }

  // ---------- The ids of all runs ----------

  /** The reported ids are those of the present order. */
  predicate IdsReported(order: Option<Order>, s: State) {
    order.Some? ==> s.orderId == order.value.orderId && s.orderUpdateId == order.value.orderUpdateId
  }

  /** From one published state to the next no order was taken over, or one with a greater update id. */
  predicate IdsRise(r: Report, r': Report) {
    && IdsReported(r'.shadow.order, r'.state)
    && (r'.shadow.order.None? ==> r.shadow.order.None?)
    && (r.shadow.order.Some? && r'.shadow.current == r.shadow.current ==>
          r'.state.orderId == r.state.orderId && r'.state.orderUpdateId == r.state.orderUpdateId)
    && (r.shadow.order.Some? && r'.shadow.current != r.shadow.current && r'.state.orderId == r.state.orderId ==>
          r'.state.orderUpdateId > r.state.orderUpdateId)
  }

  ghost predicate AllRise(sent: seq<Report>) {
    forall i :: 0 <= i < |sent| - 1 ==> IdsRise(sent[i], sent[i + 1])
  }

  ghost predicate IdsInv(a: Agv) {
    Reported(a) && AllRise(a.sent) && IdsReported(a.order, a.state) && a.current < |a.decided|
  }

  /** Reports that only tell more about the present order. */
  predicate SameOrderReports(a: Agv, reports: seq<Report>) {
    forall i :: 0 <= i < |reports| ==>
      && reports[i].shadow.order == a.order && reports[i].shadow.current == a.current
      && reports[i].state.orderId == a.state.orderId && reports[i].state.orderUpdateId == a.state.orderUpdateId
  }

  lemma {:induction false} RiseMore(a: Agv, b: Agv, reports: seq<Report>)
    requires IdsInv(a) && Sends(a, b, reports) && b.current < |b.decided|
    requires AllRise([Now(a)] + reports)
    ensures IdsInv(b)
  {
    var all, tail := a.sent + reports, [Now(a)] + reports;
    forall i | 0 <= i < |all| - 1
      ensures IdsRise(all[i], all[i + 1])
    {
      if i >= |a.sent| - 1 {
        var j := i - (|a.sent| - 1);
        assert all[i] == tail[j] && all[i + 1] == tail[j + 1];
      }
    }
    if reports != [] {
      var j := |reports| - 1;
      assert IdsRise(tail[j], tail[j + 1]) && tail[j + 1] == Now(b);
    }
  }

  /** A step that takes over no order. */
  ghost predicate KeepsOrder(a: Agv, b: Agv, reports: seq<Report>) {
    && Sends(a, b, reports) && SameOrderReports(a, reports)
    && b.order == a.order && b.current == a.current && b.decided == a.decided
    && b.state.orderId == a.state.orderId && b.state.orderUpdateId == a.state.orderUpdateId
  }

  lemma {:induction false} SilentKeepsOrder(a: Agv, b: Agv, c: Agv, reports: seq<Report>)
    requires KeepsOrder(a, b, reports) && Silent(b, c)
    ensures KeepsOrder(a, c, reports)
  {
  }

  lemma {:induction false} NodeKeepsOrder(a: Agv, k: nat, traversed: Option<nat>) returns (reports: seq<Report>)
    requires a.order.Some? && k < |a.order.value.nodes|
    requires traversed.Some? ==> traversed.value < |a.order.value.edges|
    ensures KeepsOrder(a, ProcessNode(a, k, traversed), reports)
  {
    ProcessNodeIs(a, k, traversed);
    if a.order.value.nodes[k].released {
      var b := AtNodeReached(a, k, traversed);
      reports := [Now(b)];
      StartSilent(b, AtNode(k));
      SilentKeepsOrder(a, b, StartList(b, AtNode(k)), reports);
    } else {
      reports := [];
    }
  }

  lemma {:induction false} UpdateKeepsOrder(a: Agv, w: Owner, i: nat, status: Status) returns (reports: seq<Report>)
    requires Enabled(a, ActionUpdate(w, i, status))
    ensures KeepsOrder(a, Step(a, ActionUpdate(w, i, status)), reports)
  {
    var b := Publish(a.(state := SetStatus(a.state, Id(a.order.value, w, i), status)));
    reports := [Now(b)];
    if Ended(status) {
      var acts := ActionsOf(a.order.value, w);
      var c := b.(running := b.running - {acts[i].actionId}, list := b.list.(ended := b.list.ended + {i}));
      PerformSilent(c, w, Lists.Reaction(acts, EndedIndices(b.state, acts), i));
      SilentKeepsOrder(a, b, Step(a, ActionUpdate(w, i, status)), reports);
    }
  }

  lemma {:induction false} OtherKeepsOrder(a: Agv, e: Event) returns (reports: seq<Report>)
    requires Enabled(a, e) && !e.OrderArrives?
    ensures KeepsOrder(a, Step(a, e), reports)
  {
    if e.ActionUpdate? {
      reports := UpdateKeepsOrder(a, e.owner, e.index, e.status);
    } else if e.EdgeTraversed? && !a.canceling {
      var n := EndNode(a.order.value.nodes, a.order.value.edges[e.edge]).value;
      reports := NodeKeepsOrder(a.(traversing := a.traversing - multiset{e.edge}), n, Some(e.edge));
    } else if e.EdgeTraversed? || e.CallReturns? {
      reports := [];
    } else {
      reports := [Now(Step(a, e))];
    }
  }

  lemma {:induction false} SameOrderRises(a: Agv, reports: seq<Report>)
    requires IdsReported(a.order, a.state) && SameOrderReports(a, reports)
    ensures AllRise([Now(a)] + reports)
  {
  }

  lemma {:induction false} OrderRises(a: Agv, o: Order, c: Checks)
    requires IdsReported(a.order, a.state) && a.current < |a.decided| && Enabled(a, OrderArrives(o, c))
    ensures AllRise([Now(a)] + Adds(a, OrderArrives(o, c)))
    ensures Step(a, OrderArrives(o, c)).current <= |a.decided|
  {
    OrderSends(a, o, c);
  }

  lemma {:induction false} IdsKept(a: Agv, e: Event)
    requires IdsInv(a) && Enabled(a, e)
    ensures IdsInv(Step(a, e))
  {
    if e.OrderArrives? {
      OrderSends(a, e.order, e.checks);
      OrderRises(a, e.order, e.checks);
      RiseMore(a, Step(a, e), Adds(a, e));
    } else {
      var reports := OtherKeepsOrder(a, e);
      SameOrderRises(a, reports);
      RiseMore(a, Step(a, e), reports);
    }
  }

  lemma {:induction false} CourseIds(lastNodeId: string, events: seq<Event>)
    requires Course(Initial(lastNodeId), events).Some?
    ensures IdsInv(Course(Initial(lastNodeId), events).value)
  {
    if events != [] {
      var before, e := events[..|events| - 1], events[|events| - 1];
      CourseIds(lastNodeId, before);
      IdsKept(Course(Initial(lastNodeId), before).value, e);
    }
  }

  /**
   In every run, with any orders and cancelations, the published update id does not decrease as long as the order id
   stays the same, and each order that is taken over under the same order id has a greater one.
   */
  lemma {:induction false} UpdateIdsRise(lastNodeId: string, events: seq<Event>, i: nat)
    requires Course(Initial(lastNodeId), events).Some?
    requires i + 1 < |Course(Initial(lastNodeId), events).value.sent|
    ensures var sent := Course(Initial(lastNodeId), events).value.sent;
      var r, r' := sent[i], sent[i + 1];
      r.shadow.order.Some? && r'.state.orderId == r.state.orderId ==>
        && r.state.orderUpdateId <= r'.state.orderUpdateId
        && (r'.shadow.current != r.shadow.current ==> r.state.orderUpdateId < r'.state.orderUpdateId)
  {
    CourseIds(lastNodeId, events);
    var sent := Course(Initial(lastNodeId), events).value.sent;
    assert IdsRise(sent[i], sent[i + 1]);
  }
}
