/** How one report of the vehicle follows from the one before. */
module ReportChain {
  import opened Orders
  import opened AgvEngine
  import opened AgvInvariants
  import opened AgvReports

  // ---------- What a single report says ----------

  ghost predicate Starting(o: Order, s: State) {
    && s.nodeStates == NodeStates(o.nodes) && s.edgeStates == EdgeStates(o.edges)
    && s.actionStates.Keys == BaseActionIds(o)
    && s.orderId == o.orderId && s.orderUpdateId == o.orderUpdateId
  }

  ghost predicate Faithful(r: Report) {
    match r.shadow.order
    case None =>
      && r.shadow.pos == -1 && r.shadow.current == -1
      && r.state.orderId == "" && r.state.orderUpdateId == 0
      && !IsActive(r.state)
    case Some(o) =>
      && Tame(o) && 0 <= r.shadow.current < r.shadow.decided
      && -1 <= r.shadow.pos
      && (r.shadow.pos == -1 ==> Starting(o, r.state))
      && (r.shadow.pos >= 0 ==> OnRoute(o, r.state, r.shadow.pos))
  }

  // ---------- Successive reports ----------

  /** At most the status of actions has changed, and none that had ended. */
  ghost predicate Updated(r: Report, r': Report) {
    && r'.shadow == r.shadow
    && r'.state == r.state.(actionStates := r'.state.actionStates)
    && r'.state.actionStates.Keys == r.state.actionStates.Keys
    && forall id :: id in r.state.actionStates && Ended(r.state.actionStates[id]) ==> Ended(r'.state.actionStates[id])
  }

  /** The next node of the base has been reached. */
  ghost predicate Reaches(r: Report, r': Report) {
    && r.shadow.order.Some?
    && var o, k := r.shadow.order.value, r.shadow.pos + 1;
    && 0 <= k < BaseLen(o.nodes) && k <= |o.edges|
    && r' == Report(r.state.(nodeStates := NodeStates(o.nodes[k + 1..]), edgeStates := EdgeStates(o.edges[k..]),
                             lastNodeId := o.nodes[k].nodeId, lastNodeSequenceId := o.nodes[k].sequenceId),
                    r.shadow.(pos := k))
  }

  ghost predicate Refuses(o: Order, r: Report, r': Report) {
    r' == Report(r.state.(errors := r.state.errors + [Rejection(o.orderId, o.orderUpdateId)]),
                 r.shadow.(decided := r.shadow.decided + 1))
  }

  /** An order begins that is not stitched. */
  ghost predicate Begins(o: Order, r: Report, r': Report) {
    && !IsActive(r.state) && Tame(o)
    && r' == Report(StateOf(o, r.state), Shadow(Some(o), -1, r.shadow.decided, r.shadow.decided + 1))
  }

  /** An order is stitched onto the active one. */
  ghost predicate Extends(o: Order, r: Report, r': Report) {
    && IsActive(r.state) && r.shadow.order.Some? && r.shadow.pos >= 0 && Stitchable(r.shadow.order.value, o)
    && r' == Report(StitchedState(r.shadow.order.value, o, r.state),
                    Shadow(Some(Stitch(r.shadow.order.value, o)), r.shadow.pos, r.shadow.decided, r.shadow.decided + 1))
  }

  /** `r'` follows `r`; `orders` are the orders the vehicle decides on, one after the other. */
  ghost predicate Follows(orders: seq<Order>, r: Report, r': Report) {
    || Updated(r, r')
    || Reaches(r, r')
    || (r.shadow.decided < |orders| &&
        var o := orders[r.shadow.decided]; Refuses(o, r, r') || Begins(o, r, r') || Extends(o, r, r'))
  }

  ghost predicate Chained(orders: seq<Order>, reports: seq<Report>) {
    forall i :: 0 <= i < |reports| - 1 ==> Follows(orders, reports[i], reports[i + 1])
  }

  // ---------- Every run sends such a chain ----------

  /** No cancelation has taken place. */
  ghost predicate Uncanceled(a: Agv) {
    Walking(a) || (AtRest(a) && a.cursor.Nowhere? && a.pos == -1 && a.current == -1 && a.state.orderId == ""
      && a.state.orderUpdateId == 0)
  }

  /** Each order has its own pair of ids, and none is that of a vehicle without order. */
  ghost predicate FreshKeys(orders: seq<Order>) {
    && (forall i, j :: 0 <= i < j < |orders| ==>
          orders[i].orderId != orders[j].orderId || orders[i].orderUpdateId != orders[j].orderUpdateId)
    && (forall i :: 0 <= i < |orders| ==> orders[i].orderId != "" || orders[i].orderUpdateId != 0)
  }

  /** The ids in the present state are those of the order accepted last. */
  predicate CurrentIds(a: Agv) {
    a.order.Some? ==>
      0 <= a.current < |a.decided| &&
      a.state.orderId == a.decided[a.current].orderId && a.state.orderUpdateId == a.decided[a.current].orderUpdateId
  }

  ghost predicate Tells(a: Agv) {
    && Uncanceled(a) && Reported(a) && CurrentIds(a)
    && Chained(a.decided, a.sent)
    && Faithful(a.sent[0]) && a.sent[0].shadow.order.None?
  }

  lemma {:induction false} UpdateFollows(a: Agv, w: Owner, i: nat, status: Status)
    requires Walking(a) && Enabled(a, ActionUpdate(w, i, status))
    ensures Updated(Now(a), Adds(a, ActionUpdate(w, i, status))[0])
  {
    RunningNotEnded(a, a.order.value, w, i);
    StatusUpdates(Now(a), Id(a.order.value, w, i), status);
  }

  lemma {:induction false} RunningNotEnded(a: Agv, o: Order, w: Owner, i: nat)
    requires Walking(a) && a.order == Some(o) && Enabled(a, ActionUpdate(w, i, Running))
    ensures var id := Id(o, w, i); id in a.state.actionStates && !Ended(a.state.actionStates[id])
  {
    RunningIsHere(a, o, w, i);
    BaseId(o, w, i);
    assert i !in EndedIndices(a.state, ActionsOf(o, w));
  }

  lemma {:induction false} StatusUpdates(r: Report, id: string, status: Status)
    requires id in r.state.actionStates && !Ended(r.state.actionStates[id])
    ensures Updated(r, Report(SetStatus(r.state, id, status), r.shadow))
  {
  }

  lemma {:induction false} ReachFollows(a: Agv, k: nat)
    requires Walking(a) && Enabled(a, EdgeTraversed(k))
    ensures k + 1 < |a.order.value.nodes| && Reaches(Now(a), NextNode(Now(a), a.order.value, k))
  {
    var o := a.order.value;
    var b := TraversedStartsList(a, o, k);
    BaseOwners(o, AtNode(k + 1));
  }

  lemma {:induction false} BeginFollows(a: Agv, o: Order)
    requires !IsActive(a.state) && Tame(o)
    ensures Begins(o, Now(a), Beginning(Now(a), o)[0]) && Reaches(Beginning(Now(a), o)[0], Beginning(Now(a), o)[1])
  {
    assert o.edges[0..] == o.edges;
  }

  /** No fresh order is silently discarded. */
  lemma {:induction false} NoDiscard(a: Agv, o: Order, c: Checks)
    requires Uncanceled(a) && CurrentIds(a) && FreshKeys(a.decided + [o])
    ensures !Decide(a, o, c).Discard?
  {
    var all := a.decided + [o];
    if a.order.Some? {
      assert all[a.current] == a.decided[a.current] && all[|a.decided|] == o;
    }
  }

  /** Unless it is discarded, the decision on an order is told by the reports that follow. */
  lemma {:induction false} DecisionFollows(a: Agv, o: Order, c: Checks)
    requires a.order.Some? && IsActive(a.state) ==> a.pos >= 0
    requires Enabled(a, OrderArrives(o, c)) && Ordinary(a, OrderArrives(o, c)) && !Decide(a, o, c).Discard?
    ensures |Adds(a, OrderArrives(o, c))| == if Decide(a, o, c).AcceptNew? || Decide(a, o, c).AcceptUpdate? then 2
      else 1
    ensures var adds := Adds(a, OrderArrives(o, c));
      && (Refuses(o, Now(a), adds[0]) || Begins(o, Now(a), adds[0]) || Extends(o, Now(a), adds[0]))
      && (|adds| == 2 ==> Reaches(adds[0], adds[1]))
  {
    match Decide(a, o, c)
    case AcceptNew => BeginFollows(a, o);
    case AcceptUpdate => BeginFollows(a, o);
    case _ =>
  }

  lemma {:induction false} ChainOfOrder(orders: seq<Order>, o: Order, r: Report, adds: seq<Report>)
    requires r.shadow.decided == |orders| && 1 <= |adds| <= 2
    requires Refuses(o, r, adds[0]) || Begins(o, r, adds[0]) || Extends(o, r, adds[0])
    requires |adds| == 2 ==> Reaches(adds[0], adds[1])
    ensures Chained(orders + [o], [r] + adds)
  {
    var all := [r] + adds;
    assert Follows(orders + [o], all[0], all[1]);
    assert |adds| == 2 ==> Follows(orders + [o], all[1], all[2]);
  }

  lemma {:induction false} ChainOfTwo(orders: seq<Order>, r: Report, adds: seq<Report>)
    requires adds == [] || (|adds| == 1 && Follows(orders, r, adds[0]))
    ensures Chained(orders, [r] + adds)
  {
  }

  lemma {:induction false} UpdateChain(a: Agv, w: Owner, i: nat, status: Status)
    requires Walking(a) && Enabled(a, ActionUpdate(w, i, status))
    ensures Chained(a.decided, [Now(a)] + Adds(a, ActionUpdate(w, i, status)))
  {
    UpdateFollows(a, w, i, status);
    ChainOfTwo(a.decided, Now(a), Adds(a, ActionUpdate(w, i, status)));
  }

  lemma {:induction false} ReachChain(a: Agv, k: nat)
    requires Walking(a) && Enabled(a, EdgeTraversed(k))
    ensures Chained(a.decided, [Now(a)] + Adds(a, EdgeTraversed(k)))
  {
    ReachFollows(a, k);
    ChainOfTwo(a.decided, Now(a), Adds(a, EdgeTraversed(k)));
  }

  /** On its way, an uncanceled vehicle has an order. */
  lemma {:induction false} UncanceledWalks(a: Agv)
    requires Uncanceled(a)
    ensures Undisturbed(a) && (a.order.Some? ==> Walking(a) && a.pos >= 0)
  {
  }

  lemma {:induction false} OrderChain(a: Agv, o: Order, c: Checks)
    requires Uncanceled(a) && CurrentIds(a) && Ordinary(a, OrderArrives(o, c)) && FreshKeys(a.decided + [o])
    requires Enabled(a, OrderArrives(o, c))
    ensures Chained(a.decided + [o], [Now(a)] + Adds(a, OrderArrives(o, c)))
  {
    NoDiscard(a, o, c);
    UncanceledWalks(a);
    DecisionFollows(a, o, c);
    ChainOfOrder(a.decided, o, Now(a), Adds(a, OrderArrives(o, c)));
  }

  /** No news. */
  lemma {:induction false} QuietChain(a: Agv, e: Event)
    requires Enabled(a, e) && (e.CallReturns? || e.StateDue?)
    ensures Chained(a.decided, [Now(a)] + Adds(a, e))
  {
    ChainOfTwo(a.decided, Now(a), Adds(a, e));
  }

  /** Each report a step sends follows from the one before it. */
  lemma {:induction false} AddsFollow(a: Agv, e: Event)
    requires Uncanceled(a) && CurrentIds(a) && Enabled(a, e) && Ordinary(a, e)
    requires e.OrderArrives? ==> FreshKeys(a.decided + [e.order])
    ensures Chained(if e.OrderArrives? then a.decided + [e.order] else a.decided, [Now(a)] + Adds(a, e))
  {
    UncanceledWalks(a);
    OrdinaryEvents(a, e);
    match e
    case OrderArrives(o, c) => OrderChain(a, o, c);
    case ActionUpdate(w, i, status) => UpdateChain(a, w, i, status);
    case EdgeTraversed(k) => ReachChain(a, k);
    case _ => QuietChain(a, e);
  }

  lemma {:induction false} FollowsWithMore(orders: seq<Order>, more: seq<Order>, r: Report, r': Report)
    requires Follows(orders, r, r') && orders <= more
    ensures Follows(more, r, r')
  {
  }

  lemma {:induction false} ChainGrows(orders: seq<Order>, more: seq<Order>, sent: seq<Report>, adds: seq<Report>)
    requires Chained(orders, sent) && sent != [] && orders <= more
    requires Chained(more, [sent[|sent| - 1]] + adds)
    ensures Chained(more, sent + adds)
  {
    var all := sent + adds;
    forall i | 0 <= i < |all| - 1
      ensures Follows(more, all[i], all[i + 1])
    {
      if i < |sent| - 1 {
        FollowsWithMore(orders, more, sent[i], sent[i + 1]);
      } else {
        var rest := [sent[|sent| - 1]] + adds;
        var j := i - (|sent| - 1);
        assert Follows(more, rest[j], rest[j + 1]);
      }
    }
  }

  lemma {:induction false} StaysUncanceled(a: Agv, e: Event)
    requires Uncanceled(a) && Enabled(a, e) && Ordinary(a, e)
    ensures Uncanceled(Step(a, e))
  {
    StepKeeps(a, e);
  }

  lemma {:induction false} StepCurrentIds(a: Agv, e: Event)
    requires Uncanceled(a) && CurrentIds(a) && Enabled(a, e) && Ordinary(a, e)
    requires e.OrderArrives? ==> FreshKeys(a.decided + [e.order])
    ensures CurrentIds(Step(a, e))
  {
    StepSends(a, e);
    UncanceledWalks(a);
    OrdinaryEvents(a, e);
    match e
    case OrderArrives(o, c) => OrderCurrentIds(a, o, c, Step(a, e));
    case EdgeTraversed(k) => ReachFollows(a, k);
    case _ =>
  }

  lemma {:induction false} OrderCurrentIds(a: Agv, o: Order, c: Checks, b: Agv)
    requires Uncanceled(a) && CurrentIds(a) && FreshKeys(a.decided + [o]) && Enabled(a, OrderArrives(o, c))
    requires Sends(a, b, Adds(a, OrderArrives(o, c))) && b.decided == a.decided + [o]
    ensures CurrentIds(b)
  {
    NoDiscard(a, o, c);
  }

  lemma {:induction false} StepTells(a: Agv, e: Event)
    requires Tells(a) && Enabled(a, e) && Ordinary(a, e)
    requires e.OrderArrives? ==> FreshKeys(a.decided + [e.order])
    ensures Tells(Step(a, e))
    ensures Step(a, e).sent == a.sent + Adds(a, e)
  {
    StepSends(a, e);
    AddsFollow(a, e);
    StaysUncanceled(a, e);
    StepCurrentIds(a, e);
    TellsMore(a, Step(a, e), Adds(a, e));
  }

  lemma {:induction false} TellsMore(a: Agv, b: Agv, adds: seq<Report>)
    requires Tells(a) && Sends(a, b, adds) && a.decided <= b.decided
    requires Chained(b.decided, [Now(a)] + adds) && Uncanceled(b) && CurrentIds(b)
    ensures Tells(b)
  {
    ChainGrows(a.decided, b.decided, a.sent, adds);
  }

  // ---------- Consequences for single reports ----------

  lemma {:induction false} FollowsFaithful(orders: seq<Order>, r: Report, r': Report)
    requires Faithful(r) && Follows(orders, r, r')
    ensures Faithful(r') && r.shadow.decided <= r'.shadow.decided
  {
    if Updated(r, r') {
      UpdatedFaithful(r, r');
    } else if Reaches(r, r') {
      ReachedFaithful(r, r');
    } else {
      var o := orders[r.shadow.decided];
      if Refuses(o, r, r') {
        RefusedFaithful(o, r, r');
      } else if Begins(o, r, r') {
        BegunFaithful(o, r, r');
      } else {
        ExtendedFaithful(o, r, r');
      }
    }
  }

  lemma {:induction false} UpdatedFaithful(r: Report, r': Report)
    requires Faithful(r) && Updated(r, r')
    ensures Faithful(r') && r.shadow.decided <= r'.shadow.decided
  {
  }

  lemma {:induction false} ReachedFaithful(r: Report, r': Report)
    requires Faithful(r) && Reaches(r, r')
    ensures Faithful(r') && r.shadow.decided <= r'.shadow.decided
  {
    var o := r.shadow.order.value;
    assert o.nodes[0..] == o.nodes && o.edges[0..] == o.edges;
  }

  lemma {:induction false} RefusedFaithful(o: Order, r: Report, r': Report)
    requires Faithful(r) && Refuses(o, r, r')
    ensures Faithful(r') && r.shadow.decided <= r'.shadow.decided
  {
  }

  lemma {:induction false} BegunFaithful(o: Order, r: Report, r': Report)
    requires Faithful(r) && Begins(o, r, r')
    ensures Faithful(r') && r.shadow.decided <= r'.shadow.decided
  {
    assert ActionStates(o).Keys == BaseActionIds(o);
  }

  lemma {:induction false} ExtendedFaithful(o: Order, r: Report, r': Report)
    requires Faithful(r) && Extends(o, r, r')
    ensures Faithful(r') && r.shadow.decided <= r'.shadow.decided
  {
    StitchedRoute(r.shadow.order.value, o, r.state, r.shadow.pos);
  }
}
