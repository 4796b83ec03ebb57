/**
 What the order engine reports: the reports sent in a run, one after the other, tell the whole story of its orders.
 */
module AgvReports {
  import opened Orders
  import opened AgvEngine
  import opened AgvInvariants
  import Lists = ActionLists

  function Now(a: Agv): Report {
    Report(a.state, Shadow(a.order, a.pos, a.current, |a.decided|))
  }

  /** The last report sent is the present state. */
  predicate Reported(a: Agv) {
    a.sent != [] && a.sent[|a.sent| - 1] == Now(a)
  }

  // ---------- Processing is silent ----------

  /** Nothing was sent and nothing that is reported has changed. */
  predicate Silent(a: Agv, b: Agv) {
    b.sent == a.sent && Now(b) == Now(a) && b.decided == a.decided
  }

  lemma {:induction false} PerformSilent(a: Agv, w: Owner, work: Lists.Work)
    requires a.order.Some? && InOrder(a.order.value, w) && Lists.Fits(ActionsOf(a.order.value, w), work)
    ensures Silent(a, Perform(a, w, work))
    decreases if w.AtNode? then 4 else 1
  {
    if work.Proceed? && w.AtNode? {
      EdgeSilent(a.(list := Lists.Perform(a.list, work)), w.index);
    }
  }

  lemma {:induction false} EdgeSilent(a: Agv, k: nat)
    requires a.order.Some? && k < |a.order.value.nodes|
    ensures Silent(a, ProcessEdge(a, k))
    decreases 3
  {
    var o := a.order.value;
    var e := TrailingEdge(o.edges, o.nodes[k]);
    if e.Some? && o.edges[e.value].released {
      StartSilent(a, OnEdge(e.value));
    }
  }

  lemma {:induction false} StartSilent(a: Agv, w: Owner)
    requires a.order.Some? && InOrder(a.order.value, w)
    ensures Silent(a, StartList(a, w))
    decreases if w.AtNode? then 5 else 2
  {
    PerformSilent(a.(cursor := Processing(w), list := Lists.Run([], {}, [], 0)), w,
                  Lists.Open(ActionsOf(a.order.value, w), 0));
  }

  // ---------- What each step reports ----------

  /** State and position once the end node of edge `k` has been reached. */
  function NextNode(r: Report, o: Order, k: nat): Report
    requires k + 1 < |o.nodes| && k + 1 <= |o.edges|
  {
    Report(r.state.(edgeStates := EdgeStates(o.edges[k + 1..]), nodeStates := NodeStates(o.nodes[k + 2..]),
                    lastNodeId := o.nodes[k + 1].nodeId, lastNodeSequenceId := o.nodes[k + 1].sequenceId),
           r.shadow.(pos := k + 1))
  }

  /** The reports a step sends, in order. */
  function Adds(a: Agv, e: Event): seq<Report>
    requires Enabled(a, e)
  {
    var r := Now(a);
    match e
    case OrderArrives(o, c) =>
      var n := |a.decided|;
      (match Decide(a, o, c)
       case Reject => [Report(r.state.(errors := r.state.errors + [Rejection(o.orderId, o.orderUpdateId)]),
                              r.shadow.(decided := n + 1))]
       case Discard => [Report(r.state, r.shadow.(decided := n + 1))]
       case AcceptNew => Beginning(r, o)
       case AcceptUpdate => Beginning(r, o)
       case AcceptStitch => [Report(StitchedState(a.order.value, o, r.state),
                                    Shadow(Some(Stitch(a.order.value, o)), r.shadow.pos, n, n + 1))])
    case ActionUpdate(w, i, status) => [Report(SetStatus(r.state, Id(a.order.value, w, i), status), r.shadow)]
    case EdgeTraversed(k) =>
      if k + 1 < |a.order.value.nodes| then [NextNode(r, a.order.value, k)] else []
    case StateDue => [r]
    case _ => []
  }

  function Beginning(r: Report, o: Order): seq<Report>
    requires |o.nodes| > 0
  {
    var n := r.shadow.decided;
    [Report(StateOf(o, r.state), Shadow(Some(o), -1, n, n + 1)),
     Report(FirstState(o, r.state), Shadow(Some(o), 0, n, n + 1))]
  }

  /** `b` is reached from `a` by sending exactly `reports`, and its present state is the last of them. */
  predicate Sends(a: Agv, b: Agv, reports: seq<Report>) {
    b.sent == a.sent + reports && Now(b) == (if reports == [] then Now(a) else reports[|reports| - 1])
  }

  lemma {:induction false} BeginSends(a: Agv, o: Order)
    requires Chain(o)
    ensures Sends(a, Begin(a, o), Beginning(Now(a), o)) && Begin(a, o).decided == a.decided + [o]
  {
    BeginStartsList(a, o);
    StartSilent(Begun(a, o), AtNode(0));
    var b := a.sent + [Beginning(Now(a), o)[0]] + [Beginning(Now(a), o)[1]];
    assert b == a.sent + Beginning(Now(a), o);
  }

  lemma {:induction false} ExtendSends(a: Agv, o: Order)
    requires Chain(o) && CanStitch(a, o)
    ensures var n := |a.decided|;
      Sends(a, Extend(a, o),
            [Report(StitchedState(a.order.value, o, a.state), Shadow(Some(Stitch(a.order.value, o)), a.pos, n, n + 1))])
    ensures Extend(a, o).decided == a.decided + [o]
  {
    var end := BaseLen(a.order.value.nodes) - 1;
    EdgeSilent(Extended(a, o), end);
    assert Extend(a, o) == Extended(a, o) || Extend(a, o) == ProcessEdge(Extended(a, o), end);
  }

  lemma {:induction false} OrderSends(a: Agv, o: Order, c: Checks)
    requires Enabled(a, OrderArrives(o, c))
    ensures Sends(a, ProcessOrder(a, o, c), Adds(a, OrderArrives(o, c)))
    ensures ProcessOrder(a, o, c).decided == a.decided + [o]
  {
    match Decide(a, o, c)
    case AcceptNew => BeginSends(a, o);
    case AcceptUpdate => BeginSends(a, o);
    case AcceptStitch => ExtendSends(a, o);
    case _ =>
  }

  lemma {:induction false} UpdateSends(a: Agv, w: Owner, i: nat, status: Status)
    requires Undisturbed(a) && Enabled(a, ActionUpdate(w, i, status))
    ensures Sends(a, Step(a, ActionUpdate(w, i, status)), Adds(a, ActionUpdate(w, i, status)))
    ensures Step(a, ActionUpdate(w, i, status)).decided == a.decided
  {
    if Ended(status) {
      var acts := ActionsOf(a.order.value, w);
      var b := Publish(a.(state := SetStatus(a.state, acts[i].actionId, status)));
      var c := b.(running := b.running - {acts[i].actionId}, list := b.list.(ended := b.list.ended + {i}));
      PerformSilent(c, w, Lists.Reaction(acts, EndedIndices(b.state, acts), i));
    }
  }

  lemma {:induction false} TraversedSends(a: Agv, o: Order, k: nat)
    requires Walking(a) && a.order == Some(o) && Enabled(a, EdgeTraversed(k))
    ensures k + 1 < |o.nodes| && k == a.pos
    ensures Sends(a, Step(a, EdgeTraversed(k)), [NextNode(Now(a), o, k)])
      && Step(a, EdgeTraversed(k)).decided == a.decided
  {
    var b := TraversedStartsList(a, o, k);
    StartSilent(b, AtNode(k + 1));
  }

  lemma {:induction false} StepSends(a: Agv, e: Event)
    requires Inv(a) && Enabled(a, e) && Ordinary(a, e)
    ensures Sends(a, Step(a, e), Adds(a, e))
    ensures Step(a, e).decided == if e.OrderArrives? then a.decided + [e.order] else a.decided
  {
    match e
    case OrderArrives(o, c) => OrderSends(a, o, c);
    case ActionUpdate(w, i, status) => UpdateSends(a, w, i, status);
    case EdgeTraversed(k) =>
      NotAtRest(a, k);
      TraversedSends(a, a.order.value, k);
    case _ => OtherSends(a, e);
  }

  lemma {:induction false} NotAtRest(a: Agv, k: nat)
    requires Inv(a) && Enabled(a, EdgeTraversed(k))
    ensures Walking(a)
  {
    assert a.traversing != multiset{};
  }

  lemma {:induction false} OtherSends(a: Agv, e: Event)
    requires Undisturbed(a) && Enabled(a, e) && (e.CallReturns? || e.StateDue? || e.Stopped? || e.DrivingToNextNode?)
    ensures Sends(a, Step(a, e), Adds(a, e)) && Step(a, e).decided == a.decided
  {
  }
}
