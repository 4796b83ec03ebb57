/** Stitching onto an active order: when the actions of its first node are executed, and what happens otherwise. */
module AgvStitching {
  import opened Orders
  import opened AgvEngine
  import opened AgvInvariants
  import opened AgvRuns
  import AgvCalls
  import Lists = ActionLists

  // ---------- Exactly when a stitched order goes on ----------

  /**
   An order that is accepted to be stitched goes on, with all its actions, if and only if something still leads to the
   actions of its first node. Otherwise these actions are overlooked, and nothing is called.
   */
  lemma {:induction false} StitchContinuesIff(a: Agv, o: Order, c: Checks)
    requires Walking(a) && Enabled(a, OrderArrives(o, c)) && Decide(a, o, c).AcceptStitch?
      && Mergeable(a.order.value, o)
    ensures var present, b := a.order.value, Step(a, OrderArrives(o, c));
      && (Tame(Stitch(present, o)) ==> (Walking(b) <==> Continues(present, o, a.state)))
      && (!Continues(present, o, a.state) ==>
            b.calls == a.calls && Overlooked(b, BaseLen(present.nodes) - 1, |BaseEnd(present).actions|))
  {
    StitchStep(a, o, c);
    ExtendContinuesIff(a, o);
  }

  lemma {:induction false} StitchStep(a: Agv, o: Order, c: Checks)
    requires Enabled(a, OrderArrives(o, c)) && Decide(a, o, c).AcceptStitch?
    ensures a.todo == [] && Chain(o) && CanStitch(a, o) && Step(a, OrderArrives(o, c)) == Extend(a, o)
  {
  }

  lemma {:induction false} ExtendContinuesIff(a: Agv, o: Order)
    requires Walking(a) && a.todo == [] && Mergeable(a.order.value, o) && CanStitch(a, o)
    ensures Tame(Stitch(a.order.value, o)) ==> (Walking(Extend(a, o)) <==> Continues(a.order.value, o, a.state))
    ensures !Continues(a.order.value, o, a.state) ==>
      && Extend(a, o).calls == a.calls
      && Overlooked(Extend(a, o), BaseLen(a.order.value.nodes) - 1, |BaseEnd(a.order.value).actions|)
  {
    if !Continues(a.order.value, o, a.state) {
      StitchOverlooks(a, o);
    } else if Tame(Stitch(a.order.value, o)) {
      ExtendKeeps(a, o);
    }
  }

  /** Nothing leads to the added actions: they are at the end of the base, where the vehicle is. */
  lemma {:induction false} StitchOverlooks(a: Agv, o: Order)
    requires Walking(a) && a.todo == [] && Mergeable(a.order.value, o) && CanStitch(a, o)
    requires !Continues(a.order.value, o, a.state)
    ensures Extend(a, o) == Extended(a, o) && !Walking(Extend(a, o))
    ensures Overlooked(Extend(a, o), BaseLen(a.order.value.nodes) - 1, |BaseEnd(a.order.value).actions|)
  {
    var present := a.order.value;
    BaseEndReached(present, a.state, a.pos);
    match a.cursor
    case Idle => IdleOverlooks(a, o);
    case Processing(w) =>
      BaseOwners(present, w);
      ProcessingOverlooks(a, o);
    case Driving(k) => BaseOwners(present, OnEdge(k));
    case _ =>
  }

  /** The first added action is new, and waits for its dispatch. */
  lemma {:induction false} FirstAdded(a: Agv, o: Order)
    requires Walking(a) && Mergeable(a.order.value, o) && CanStitch(a, o) && o.nodes[0].actions != []
    ensures var present, b := a.order.value, Extended(a, o);
      var end, n, x := BaseLen(present.nodes) - 1, |BaseEnd(present).actions|, o.nodes[0].actions[0];
      && Overlooking(b.order.value, b.state, end, n)
      && b.order.value.nodes[end].actions == BaseEnd(present).actions + o.nodes[0].actions
      && b.order.value.nodes[end].actions[n] == x
      && x.actionId !in a.state.actionStates
      && !AllEnded(a.state, b.order.value.nodes[end].actions)
      && BaseActionIds(present) <= BaseActionIds(b.order.value)
  {
    var present := a.order.value;
    var end := BaseLen(present.nodes) - 1;
    StitchKeepsAlignedChain(present, o);
    StitchedIds(present, o);
    BaseId(o, AtNode(0), 0);
    assert Id(o, AtNode(0), 0) == o.nodes[0].actions[0].actionId;
    var acts := Stitch(present, o).nodes[end].actions;
    assert acts[|BaseEnd(present).actions|] == o.nodes[0].actions[0];
  }

  lemma {:induction false} IdleOverlooks(a: Agv, o: Order)
    requires Walking(a) && a.cursor.Idle? && Mergeable(a.order.value, o) && CanStitch(a, o)
    requires !Continues(a.order.value, o, a.state)
    ensures Extend(a, o) == Extended(a, o) && !Walking(Extend(a, o))
    ensures Overlooked(Extend(a, o), BaseLen(a.order.value.nodes) - 1, |BaseEnd(a.order.value).actions|)
  {
    FirstAdded(a, o);
    NothingStarted(a, o);
    NotSettled(Extended(a, o), Stitch(a.order.value, o), a.pos, |BaseEnd(a.order.value).actions|);
    OverlookedAfter(a, o, a.pos);
  }

  /** At the end of the base nothing waits. */
  lemma {:induction false} NotSettled(b: Agv, o: Order, end: nat, n: nat)
    requires b.order == Some(o) && b.cursor.Idle? && b.pos == end < |o.nodes| && o.nodes[end].released
    requires n < |o.nodes[end].actions| && !IsEnded(b.state, o.nodes[end].actions[n].actionId)
    ensures !Walking(b)
  {
    assert IsAction(o, AtNode(end), n) && InBase(o, AtNode(end)) && !IsEnded(b.state, Id(o, AtNode(end), n));
    assert !Settled(o, b.state, 2 * end + 1);
  }

  lemma {:induction false} NotInOrder(b: Agv, o: Order, w: Owner)
    requires b.order == Some(o) && InOrder(o, w) && b.cursor == Processing(w) && !Lists.Inv(ActionsOf(o, w), b.list)
    ensures !Walking(b)
  {
  }

  lemma {:induction false} ProcessingOverlooks(a: Agv, o: Order)
    requires Walking(a) && a.todo == [] && Mergeable(a.order.value, o) && CanStitch(a, o)
    requires a.cursor == Processing(AtNode(BaseLen(a.order.value.nodes) - 1)) && !Continues(a.order.value, o, a.state)
    ensures Extend(a, o) == Extended(a, o) && !Walking(Extend(a, o))
    ensures Overlooked(Extend(a, o), BaseLen(a.order.value.nodes) - 1, |BaseEnd(a.order.value).actions|)
  {
    var present, end := a.order.value, BaseLen(a.order.value.nodes) - 1;
    ExtendWhileProcessing(a, o);
    ListOverlooks(a, present, end, o);
    FirstAdded(a, o);
    NotInOrder(Extended(a, o), Stitch(present, o), AtNode(end));
    RunningOverlooks(a, present, Stitch(present, o), end, o.nodes[0].actions);
    OverlookedAfter(a, o, end);
  }

  /** The list under way will not lead to the actions it is given. */
  lemma {:induction false} ListOverlooks(a: Agv, present: Order, end: nat, o: Order)
    requires Walking(a) && a.todo == [] && a.order == Some(present) && |o.nodes| > 0
    requires end == BaseLen(present.nodes) - 1 && a.cursor == Processing(AtNode(end)) && !Continues(present, o, a.state)
    ensures var acts, added := BaseEnd(present).actions, o.nodes[0].actions;
      added != [] && !Lists.Inv(acts + added, a.list) && Lists.Overlooks(acts + added, a.list, |acts|)
  {
    var acts, added := BaseEnd(present).actions, o.nodes[0].actions;
    ContinuesIsJoins(a, present, o);
    assert Lists.UnderWay(acts, a.list);
    Lists.AppendKeepsIff(acts, added, a.list);
    Lists.OverlooksUnlessJoins(acts, added, a.list);
  }

  lemma {:induction false} OverlookedAfter(a: Agv, o: Order, end: nat)
    requires Walking(a) && a.todo == [] && a.traversing == multiset{} && |o.nodes| > 0 && CanStitch(a, o)
    requires end == BaseLen(a.order.value.nodes) - 1
    requires var b := Extended(a, o);
      var n := |BaseEnd(a.order.value).actions|;
      && Overlooking(b.order.value, b.state, end, n)
      && a.running <= BaseActionIds(b.order.value)
      && (forall w, i :: IsAction(b.order.value, w, i) && Id(b.order.value, w, i) in a.running ==>
            Passed(b.order.value, w, i, end, n))
    ensures Overlooked(Extended(a, o), end, |BaseEnd(a.order.value).actions|)
  {
  }

  /** What is running are actions of the base end with no HARD one between themselves and the added ones. */
  lemma {:induction false} RunningOverlooks(a: Agv, present: Order, s: Order, end: nat, added: seq<Action>)
    requires Walking(a) && a.order == Some(present) && a.cursor == Processing(AtNode(end)) && added != []
    requires UniqueIds(s) && InBase(s, AtNode(end)) && s.nodes[end].actions == present.nodes[end].actions + added
    requires Lists.Overlooks(s.nodes[end].actions, a.list, |present.nodes[end].actions|)
    ensures forall w, i :: IsAction(s, w, i) && Id(s, w, i) in a.running ==>
      Passed(s, w, i, end, |present.nodes[end].actions|)
    ensures a.running <= BaseActionIds(s)
  {
    var acts, all := present.nodes[end].actions, s.nodes[end].actions;
    forall id | id in a.running
      ensures id in BaseActionIds(s)
      ensures forall w, i :: IsAction(s, w, i) && Id(s, w, i) == id ==> Passed(s, w, i, end, |acts|)
    {
      var j: nat :| j < |acts| && j < |a.list.log| && j !in a.list.ended && acts[j].actionId == id;
      assert all[j] == acts[j];
      assert Id(s, AtNode(end), j) == id;
      BaseId(s, AtNode(end), j);
    }
  }

  // ---------- Overlooked actions ----------

  /** Action `i` of `w` comes after node `end`, or is one of its actions that will not lead to action `n`. */
  ghost predicate Passed(o: Order, w: Owner, i: nat, end: nat, n: nat)
    requires end < |o.nodes| && n < |o.nodes[end].actions|
  {
    || Rank(w) > 2 * end
    || (w == AtNode(end) && i < n && forall j :: i <= j <= n ==> !o.nodes[end].actions[j].blockingType.Hard?)
  }

  /** Action `n` of node `end` waits, and whatever is outstanding will not lead to its dispatch. */
  ghost predicate Overlooked(a: Agv, end: nat, n: nat) {
    && Undisturbed(a) && a.order.Some?
    && Overlooking(a.order.value, a.state, end, n)
    && a.running <= BaseActionIds(a.order.value)
    && (forall w, i :: IsAction(a.order.value, w, i) && Id(a.order.value, w, i) in a.running ==>
          Passed(a.order.value, w, i, end, n))
    && (forall k :: k in a.traversing ==> k >= end)
    && (forall p :: p in a.todo ==> InBase(a.order.value, p.owner) && Rank(p.owner) > 2 * end)
  }

  ghost predicate Overlooking(o: Order, s: State, end: nat, n: nat) {
    && AlignedChain(o) && UniqueIds(o) && end < BaseLen(o.nodes) && n < |o.nodes[end].actions|
    && o.nodes[end].actions[n].actionId in s.actionStates && s.actionStates[o.nodes[end].actions[n].actionId].Waiting?
  }

  /** `b` is reached from `a` without executing anything of node `end`. */
  ghost predicate Shuns(a: Agv, b: Agv, end: nat) {
    && a.calls <= b.calls
    && forall k :: |a.calls| <= k < |b.calls| && b.calls[k].ExecuteAction? ==> b.calls[k].owner != AtNode(end)
  }

  /** Dispatching an action behind node `end`. */
  lemma {:induction false} DispatchOverlooks(a: Agv, p: Pending, end: nat, n: nat)
    requires Overlooked(a, end, n) && IsAction(a.order.value, p.owner, p.loop.next)
    requires InBase(a.order.value, p.owner) && Rank(p.owner) > 2 * end
    ensures Overlooked(Iterate(a, p), end, n) && Shuns(a, Iterate(a, p), end)
  {
    var o, b := a.order.value, Iterate(a, p);
    BaseId(o, p.owner, p.loop.next);
    forall w, i | IsAction(o, w, i) && Id(o, w, i) in b.running
      ensures Passed(o, w, i, end, n)
    {
      if Id(o, w, i) !in a.running {
        assert Id(o, w, i) == Id(o, p.owner, p.loop.next);
      }
    }
  }

  lemma {:induction false} WorkOverlooks(a: Agv, w: Owner, work: Lists.Work, end: nat, n: nat)
    requires Overlooked(a, end, n) && InBase(a.order.value, w) && Lists.Fits(ActionsOf(a.order.value, w), work)
    requires Rank(w) > 2 * end || (w == AtNode(end) && (work.Nothing? || work.Proceed?))
    ensures Overlooked(Perform(a, w, work), end, n) && Shuns(a, Perform(a, w, work), end)
    decreases if w.AtNode? then 4 else 1
  {
    var b := a.(list := Lists.Perform(a.list, work));
    match work
    case Nothing =>
    case Single(i) => DispatchOverlooks(b, Pending(w, Lists.Loop(i, i + 1, true)), end, n);
    case Block(from, stop, stopDriving) =>
      DispatchOverlooks(b, Pending(w, Lists.Loop(from, stop, stopDriving)), end, n);
    case Proceed =>
      if w.AtNode? {
        EdgeOverlooks(b, w.index, end, n);
      }
  }

  lemma {:induction false} EdgeOverlooks(a: Agv, k: nat, end: nat, n: nat)
    requires Overlooked(a, end, n) && end <= k < |a.order.value.nodes|
    ensures Overlooked(ProcessEdge(a, k), end, n) && Shuns(a, ProcessEdge(a, k), end)
    decreases 3
  {
    var o := a.order.value;
    TrailingEdgeOnChain(o, k, 0);
    if k < |o.edges| && o.edges[k].released {
      StartOverlooks(a, OnEdge(k), end, n);
    }
  }

  lemma {:induction false} StartOverlooks(a: Agv, w: Owner, end: nat, n: nat)
    requires Overlooked(a, end, n) && InBase(a.order.value, w) && Rank(w) > 2 * end
    ensures Overlooked(StartList(a, w), end, n) && Shuns(a, StartList(a, w), end)
    decreases if w.AtNode? then 5 else 2
  {
    WorkOverlooks(a.(cursor := Processing(w), list := Lists.Run([], {}, [], 0)), w,
                  Lists.Open(ActionsOf(a.order.value, w), 0), end, n);
  }

  lemma {:induction false} UpdateOverlooks(a: Agv, w: Owner, i: nat, status: Status, end: nat, n: nat)
    requires Overlooked(a, end, n) && Enabled(a, ActionUpdate(w, i, status))
    ensures var b := Step(a, ActionUpdate(w, i, status)); Overlooked(b, end, n) && Shuns(a, b, end)
  {
    var o := a.order.value;
    var acts, id := ActionsOf(o, w), Id(o, w, i);
    var v, j := OwnerOfId(o, id);
    assert Passed(o, w, i, end, n);
    NotOverlooked(o, w, i, end, n);
    var b := Publish(a.(state := SetStatus(a.state, id, status)));
    if Ended(status) {
      var c := b.(running := b.running - {id}, list := b.list.(ended := b.list.ended + {i}));
      var work := Lists.Reaction(acts, EndedIndices(b.state, acts), i);
      if w == AtNode(end) {
        Lists.ReactionOverlooks(acts, EndedIndices(b.state, acts), i, n);
      }
      WorkOverlooks(c, w, work, end, n);
    }
  }

  /** The overlooked action is none of those running. */
  lemma {:induction false} NotOverlooked(o: Order, w: Owner, i: nat, end: nat, n: nat)
    requires UniqueIds(o) && IsAction(o, w, i) && end < |o.nodes| && n < |o.nodes[end].actions|
      && Passed(o, w, i, end, n)
    ensures Id(o, w, i) != o.nodes[end].actions[n].actionId
  {
    assert Id(o, AtNode(end), n) == o.nodes[end].actions[n].actionId;
  }

  lemma {:induction false} TraversedOverlooks(a: Agv, k: nat, end: nat, n: nat)
    requires Overlooked(a, end, n) && Enabled(a, EdgeTraversed(k))
    ensures var b := Step(a, EdgeTraversed(k)); Overlooked(b, end, n) && Shuns(a, b, end)
  {
    var o := a.order.value;
    EndNodeOnChain(o, k);
    if o.nodes[k + 1].released {
      ReachOverlooks(a, o, k, end, n);
    } else {
      SameOverlooked(a, Step(a, EdgeTraversed(k)), end, n);
    }
  }

  lemma {:induction false} ReachOverlooks(a: Agv, o: Order, k: nat, end: nat, n: nat)
    requires Overlooked(a, end, n) && a.order == Some(o) && Enabled(a, EdgeTraversed(k))
    requires EndNode(o.nodes, o.edges[k]) == Some(k + 1) && k + 1 < |o.nodes| && o.nodes[k + 1].released
    ensures var b := Step(a, EdgeTraversed(k)); Overlooked(b, end, n) && Shuns(a, b, end)
  {
    var b := ReachedNode(a, o, k);
    ReachedOverlooks(a, b, o, k, end, n);
    StartOverlooks(b, AtNode(k + 1), end, n);
    ShunsOn(a, b, StartList(b, AtNode(k + 1)), end);
  }

  lemma {:induction false} ShunsOn(a: Agv, b: Agv, c: Agv, end: nat)
    requires Shuns(a, b, end) && Shuns(b, c, end)
    ensures Shuns(a, c, end)
  {
  }

  lemma {:induction false} ReachedOverlooks(a: Agv, b: Agv, o: Order, k: nat, end: nat, n: nat)
    requires Overlooked(a, end, n) && a.order == Some(o) && k < |o.edges|
    requires b == a.(traversing := a.traversing - multiset{k}, calls := a.calls + FinishCalls(a.state, o, k),
                     pos := k + 1, state := b.state, sent := b.sent)
    requires b.state.actionStates == a.state.actionStates
    ensures Overlooked(b, end, n) && Shuns(a, b, end)
  {
    AgvCalls.FinishCallsOnly(a.state, o, k, 0);
    SameOverlooked(a, b, end, n);
  }

  /** What counts for an overlooked action. */
  lemma {:induction false} SameOverlooked(a: Agv, b: Agv, end: nat, n: nat)
    requires Overlooked(a, end, n) && b.order == a.order && b.state.actionStates == a.state.actionStates
    requires Undisturbed(b) && b.running == a.running && b.traversing <= a.traversing && b.todo == a.todo
    ensures Overlooked(b, end, n)
  {
  }

  /** The vehicle once a node was reached, before its list is started. */
  lemma {:induction false} ReachedNode(a: Agv, o: Order, k: nat) returns (b: Agv)
    requires Undisturbed(a) && a.order == Some(o) && Enabled(a, EdgeTraversed(k))
    requires EndNode(o.nodes, o.edges[k]) == Some(k + 1) && k + 1 < |o.nodes| && o.nodes[k + 1].released
    ensures b == a.(traversing := a.traversing - multiset{k}, calls := a.calls + FinishCalls(a.state, o, k),
                    pos := k + 1, state := b.state, sent := b.sent)
    ensures b.state.actionStates == a.state.actionStates
    ensures Step(a, EdgeTraversed(k)) == StartList(b, AtNode(k + 1))
  {
    var node := o.nodes[k + 1];
    var s := a.state.(edgeStates := DropEdgeState(a.state.edgeStates, o.edges[k]));
    b := Publish(a.(traversing := a.traversing - multiset{k}, calls := a.calls + FinishCalls(a.state, o, k),
      pos := k + 1,
      state := s.(nodeStates := DropNodeState(s.nodeStates, node), lastNodeId := node.nodeId,
                  lastNodeSequenceId := node.sequenceId)));
  }

  lemma {:induction false} ReturnOverlooks(a: Agv, end: nat, n: nat)
    requires Overlooked(a, end, n) && Enabled(a, CallReturns)
    ensures var b := Step(a, CallReturns); Overlooked(b, end, n) && Shuns(a, b, end)
  {
    var p := a.todo[|a.todo| - 1];
    assert p in a.todo;
    DispatchOverlooks(a.(todo := a.todo[..|a.todo| - 1], list := Lists.Iterate(a.list.(stack := []), p.loop)),
                      p, end, n);
  }

  /** Orders stitched later do not change what is overlooked. */
  lemma {:induction false} ExtendOverlooks(a: Agv, o: Order, end: nat, n: nat)
    requires Overlooked(a, end, n) && |o.nodes| > 0 && CanStitch(a, o) && Mergeable(a.order.value, o)
    ensures Overlooked(Extend(a, o), end, n) && Shuns(a, Extend(a, o), end)
  {
    ExtendedOverlooks(a, o, end, n);
    var b, k := Extended(a, o), BaseLen(a.order.value.nodes) - 1;
    if Extend(a, o) != b {
      StitchedNodeOwner(a.order.value, o, k);
      EdgeOverlooks(b, k, end, n);
    }
  }

  lemma {:induction false} ExtendedOverlooks(a: Agv, o: Order, end: nat, n: nat)
    requires Overlooked(a, end, n) && |o.nodes| > 0 && CanStitch(a, o) && Mergeable(a.order.value, o)
    ensures Overlooked(Extended(a, o), end, n)
  {
    var present, s := a.order.value, Stitch(a.order.value, o);
    StitchedOverlooking(present, o, a.state, end, n);
    forall id | id in a.running
      ensures id in BaseActionIds(s)
      ensures forall w, i :: IsAction(s, w, i) && Id(s, w, i) == id ==> Passed(s, w, i, end, n)
    {
      StitchedPassed(a, o, id, end, n);
    }
    forall p | p in a.todo
      ensures InBase(s, p.owner)
    {
      BaseOwners(present, p.owner);
      StitchedOwner(present, o, p.owner);
    }
  }

  lemma {:induction false} StitchedOverlooking(present: Order, o: Order, s: State, end: nat, n: nat)
    requires Overlooking(present, s, end, n) && Mergeable(present, o)
    ensures Overlooking(Stitch(present, o), StitchedState(present, o, s), end, n)
    ensures forall j :: 0 <= j <= n ==> Stitch(present, o).nodes[end].actions[j] == present.nodes[end].actions[j]
  {
    StitchKeepsAlignedChain(present, o);
    StitchedNodeOwner(present, o, end);
  }

  lemma {:induction false} StitchedPassed(a: Agv, o: Order, id: string, end: nat, n: nat)
    requires Overlooked(a, end, n) && Mergeable(a.order.value, o) && id in a.running
    ensures var s := Stitch(a.order.value, o);
      && end < |s.nodes| && n < |s.nodes[end].actions| && id in BaseActionIds(s)
      && forall w, i :: IsAction(s, w, i) && Id(s, w, i) == id ==> Passed(s, w, i, end, n)
  {
    var present, s := a.order.value, Stitch(a.order.value, o);
    StitchedOverlooking(present, o, a.state, end, n);
    var v, j := OwnerOfId(present, id);
    assert Passed(present, v, j, end, n);
    KeptAction(present, o, v, j);
    OnlyOwner(s, v, j, id, end, n);
  }

  /** An action of the present base keeps its place. */
  lemma {:induction false} KeptAction(present: Order, o: Order, v: Owner, j: nat)
    requires Mergeable(present, o) && IsAction(present, v, j) && InBase(present, v)
    ensures var s := Stitch(present, o);
      IsAction(s, v, j) && InBase(s, v) && Id(s, v, j) == Id(present, v, j) && Id(s, v, j) in BaseActionIds(s)
  {
    BaseOwners(present, v);
    StitchedOwner(present, o, v);
    BaseId(Stitch(present, o), v, j);
  }

  lemma {:induction false} OnlyOwner(s: Order, v: Owner, j: nat, id: string, end: nat, n: nat)
    requires UniqueIds(s) && IsAction(s, v, j) && Id(s, v, j) == id
    requires end < |s.nodes| && n < |s.nodes[end].actions| && Passed(s, v, j, end, n)
    ensures forall w, i :: IsAction(s, w, i) && Id(s, w, i) == id ==> Passed(s, w, i, end, n)
  {
  }

  /** Anything but a cancelation, or an order that breaks the chain or uses ids of the present one again. */
  ghost predicate GoesOn(a: Agv, e: Event) {
    && !e.CancelArrives?
    && (e.OrderArrives? && Decide(a, e.order, e.checks).AcceptStitch? ==> Mergeable(a.order.value, e.order))
  }

  lemma {:induction false} OrderOverlooks(a: Agv, o: Order, c: Checks, end: nat, n: nat)
    requires Overlooked(a, end, n) && GoesOn(a, OrderArrives(o, c))
    ensures Overlooked(ProcessOrder(a, o, c), end, n) && Shuns(a, ProcessOrder(a, o, c), end)
  {
    OverlookedDecides(a, o, c, end, n);
    match Decide(a, o, c)
    case AcceptStitch => ExtendOverlooks(a, o, end, n);
    case _ => SameOverlooked(a, ProcessOrder(a, o, c), end, n);
  }

  /** The order stays active, so that no other one is begun. */
  lemma {:induction false} OverlookedDecides(a: Agv, o: Order, c: Checks, end: nat, n: nat)
    requires Overlooked(a, end, n)
    ensures IsActive(a.state) && !Decide(a, o, c).AcceptNew? && !Decide(a, o, c).AcceptUpdate?
    ensures Decide(a, o, c).AcceptStitch? ==> |o.nodes| > 0 && CanStitch(a, o)
  {
  }

  /**
   Short of a cancelation, every step keeps an overlooked action overlooked, and executes nothing more of its node.
   */
  lemma {:induction false} StepOverlooks(a: Agv, e: Event, end: nat, n: nat)
    requires Overlooked(a, end, n) && Enabled(a, e) && GoesOn(a, e)
    ensures Overlooked(Step(a, e), end, n) && Shuns(a, Step(a, e), end)
  {
    match e
    case OrderArrives(o, c) => OrderOverlooks(a, o, c, end, n);
    case ActionUpdate(w, i, status) => UpdateOverlooks(a, w, i, status, end, n);
    case EdgeTraversed(k) => TraversedOverlooks(a, k, end, n);
    case CallReturns => ReturnOverlooks(a, end, n);
    case _ =>
  }

  /** The vehicle after such events, if they can happen one after the other. */
  ghost function Onward(a: Agv, events: seq<Event>): Option<Agv> {
    if events == [] then Some(a)
    else
      var before := Onward(a, events[..|events| - 1]);
      var e := events[|events| - 1];
      if before.Some? && Enabled(before.value, e) && GoesOn(before.value, e) then Some(Step(before.value, e)) else None
  }

  /** An overlooked action is never executed, so that the order stays active and no other one is ever begun. */
  lemma {:induction false} OverlookedForever(a: Agv, end: nat, n: nat, events: seq<Event>)
    requires Overlooked(a, end, n) && Onward(a, events).Some?
    ensures var b := Onward(a, events).value;
      && Overlooked(b, end, n) && Shuns(a, b, end) && IsActive(b.state)
      && forall o, c :: Decide(b, o, c).Reject? || Decide(b, o, c).Discard? || Decide(b, o, c).AcceptStitch?
  {
    if events != [] {
      var before, e := events[..|events| - 1], events[|events| - 1];
      OverlookedForever(a, end, n, before);
      StepOverlooks(Onward(a, before).value, e, end, n);
    }
    OverlookedMeans(Onward(a, events).value, end, n);
  }

  lemma {:induction false} OverlookedMeans(b: Agv, end: nat, n: nat)
    requires Overlooked(b, end, n)
    ensures IsActive(b.state)
    ensures forall o, c :: Decide(b, o, c).Reject? || Decide(b, o, c).Discard? || Decide(b, o, c).AcceptStitch?
  {
    forall o, c
      ensures !Decide(b, o, c).AcceptNew? && !Decide(b, o, c).AcceptUpdate?
    {
      OverlookedDecides(b, o, c, end, n);
    }
  }

  // ---------- Stitching at the end of the base ----------

  /** At the end of the base, a stitching order is continued at once exactly when its first node carries no actions. */
  lemma {:induction false} StitchAtBaseEndProceedsIff(a: Agv, o: Order)
    requires Walking(a) && a.cursor.Idle? && Chain(o) && CanStitch(a, o)
    requires forall i :: 0 <= i < |o.nodes[0].actions| ==> o.nodes[0].actions[i].actionId !in a.state.actionStates
    ensures var end := a.pos;
      && (o.nodes[0].actions == [] ==> Extend(a, o) == ProcessEdge(Extended(a, o), end))
      && (o.nodes[0].actions != [] ==> Extend(a, o) == Extended(a, o) && Stuck(Extend(a, o)))
  {
    var present, end := a.order.value, a.pos;
    BaseEndReached(present, a.state, a.pos);
    EndSettled(present, a.state, end);
    var acts := Stitch(present, o).nodes[end].actions;
    assert acts == present.nodes[end].actions + o.nodes[0].actions;
    if o.nodes[0].actions == [] {
      assert acts == present.nodes[end].actions;
    } else {
      var i := |present.nodes[end].actions|;
      assert acts[i] == o.nodes[0].actions[0];
      StitchStuck(a, o);
    }
  }

  /**
   Nothing is outstanding, and the end of the base is either not reached or waits for an action that nothing starts.
   */
  ghost predicate Stuck(a: Agv) {
    && Undisturbed(a) && Quiet(a) && IsActive(a.state)
    && a.order.Some? && |a.order.value.nodes| > 0 && a.order.value.nodes[0].released
    && (Ahead(a.state, BaseEnd(a.order.value)) || Unended(a.state, BaseEnd(a.order.value)))
  }

  predicate Ahead(s: State, node: Node) {
    exists st :: st in s.nodeStates && st.released && st.nodeId == node.nodeId && st.sequenceId == node.sequenceId
  }

  predicate Unended(s: State, node: Node) {
    exists i :: 0 <= i < |node.actions| && node.actions[i].actionId in s.actionStates
      && !Ended(s.actionStates[node.actions[i].actionId])
  }

  lemma {:induction false} StitchStuck(a: Agv, o: Order)
    requires Walking(a) && a.cursor.Idle? && Chain(o) && CanStitch(a, o) && o.nodes[0].actions != []
    requires forall i :: 0 <= i < |o.nodes[0].actions| ==> o.nodes[0].actions[i].actionId !in a.state.actionStates
    ensures Stuck(Extended(a, o))
  {
    var b := Extended(a, o);
    var x := o.nodes[0].actions[0];
    assert o.nodes[0] in o.nodes && x in o.nodes[0].actions;
    assert x.actionId in BaseActionIds(o);
    assert b.state.actionStates[x.actionId].Waiting?;
    StitchedEnd(a.order.value, o);
    if BaseLen(o.nodes) > 1 {
      AddedAhead(a.state, o);
    } else {
      var i := |BaseEnd(a.order.value).actions|;
      assert BaseEnd(b.order.value).actions[i] == x;
    }
  }

  lemma {:induction false} StitchedEnd(present: Order, o: Order)
    requires |present.nodes| > 0 && present.nodes[0].released && Chain(o)
    ensures var s := Stitch(present, o);
      && |s.nodes| > 0 && s.nodes[0].released
      && (BaseLen(o.nodes) > 1 ==> BaseEnd(s) == o.nodes[BaseLen(o.nodes) - 1])
      && (BaseLen(o.nodes) == 1 ==>
            BaseEnd(s) == BaseEnd(present).(actions := BaseEnd(present).actions + o.nodes[0].actions))
  {
    var b, s := BaseLen(present.nodes), Stitch(present, o);
    forall i | 0 <= i < |s.nodes|
      ensures i < b - 1 ==> s.nodes[i] == present.nodes[i]
      ensures i >= b ==> s.nodes[i] == o.nodes[i - (b - 1)]
    {
    }
    BaseLenIs(s.nodes, b - 1 + BaseLen(o.nodes));
  }

  lemma {:induction false} AddedAhead(s: State, o: Order)
    requires Chain(o) && BaseLen(o.nodes) > 1
    ensures Ahead(s.(nodeStates := ReleasedNodes(s.nodeStates) + NodeStates(o.nodes[1..])),
                  o.nodes[BaseLen(o.nodes) - 1])
  {
    var k := BaseLen(o.nodes) - 1;
    var states := ReleasedNodes(s.nodeStates) + NodeStates(o.nodes[1..]);
    var i := |ReleasedNodes(s.nodeStates)| + k - 1;
    assert states[i] == NodeStates(o.nodes[1..])[k - 1];
    assert states[i] in states;
  }

  lemma {:induction false} ReleasedKept(states: seq<NodeState>, st: NodeState)
    requires st in states && st.released
    ensures st in ReleasedNodes(states)
  {
    if states[0] != st {
      ReleasedKept(states[1..], st);
    }
  }

  /** A stuck vehicle stays stuck: short of a cancelation no message makes it call the adapter again. */
  lemma {:induction false} StuckForever(a: Agv, e: Event)
    requires Stuck(a) && Enabled(a, e) && !e.CancelArrives?
    ensures Stuck(Step(a, e)) && Step(a, e).calls == a.calls
  {
    match e
    case OrderArrives(o, c) =>
      match Decide(a, o, c) {
        case AcceptStitch => StitchOntoStuck(a, o);
        case _ =>
      }
    case _ =>
  }

  lemma {:induction false} StitchOntoStuck(a: Agv, o: Order)
    requires Stuck(a) && Chain(o) && CanStitch(a, o)
    ensures Stuck(Extend(a, o)) && Extend(a, o).calls == a.calls
  {
    var present, s' := a.order.value, StitchedState(a.order.value, o, a.state);
    StuckStaysActive(a, o);
    StuckEnd(present, o, a.state);
    NothingStarted(a, o);
  }

  /** The base end is still ahead, or waits for an action as before. */
  lemma {:induction false} StuckEnd(present: Order, o: Order, s: State)
    requires HasBase(present) && Chain(o) && (Ahead(s, BaseEnd(present)) || Unended(s, BaseEnd(present)))
    ensures var stitched, s' := Stitch(present, o), StitchedState(present, o, s);
      && HasBase(stitched) && (Ahead(s', BaseEnd(stitched)) || Unended(s', BaseEnd(stitched)))
      && (HasNodeState(s.nodeStates, BaseEnd(present))
            || !AllEnded(s, stitched.nodes[BaseLen(present.nodes) - 1].actions))
  {
    StitchedEnd(present, o);
    if Unended(s, BaseEnd(present)) {
      UnendedKept(s, present, o);
    }
    if BaseLen(o.nodes) > 1 {
      AddedAhead(s, o);
    } else if Ahead(s, BaseEnd(present)) {
      AheadKept(s, BaseEnd(present), NodeStates(o.nodes[1..]));
    }
  }

  lemma {:induction false} StuckStaysActive(a: Agv, o: Order)
    requires Stuck(a) && |o.nodes| > 0
    ensures IsActive(StitchedState(a.order.value, o, a.state))
  {
    var s' := StitchedState(a.order.value, o, a.state);
    if Ahead(a.state, BaseEnd(a.order.value)) {
      AheadKept(a.state, BaseEnd(a.order.value), NodeStates(o.nodes[1..]));
    } else {
      var acts := BaseEnd(a.order.value).actions;
      var i :| 0 <= i < |acts| && acts[i].actionId in a.state.actionStates
        && !Ended(a.state.actionStates[acts[i].actionId]);
      assert acts[i].actionId in s'.actionStates && !Ended(s'.actionStates[acts[i].actionId]);
    }
  }

  lemma {:induction false} AheadKept(s: State, node: Node, added: seq<NodeState>)
    requires Ahead(s, node)
    ensures Ahead(s.(nodeStates := ReleasedNodes(s.nodeStates) + added), node) && |ReleasedNodes(s.nodeStates)| > 0
  {
    var st :| st in s.nodeStates && st.released && st.nodeId == node.nodeId && st.sequenceId == node.sequenceId;
    ReleasedKept(s.nodeStates, st);
    assert st in ReleasedNodes(s.nodeStates) + added;
  }

  /** An action that has not ended keeps the base end from being left, in the old state and in the stitched one. */
  lemma {:induction false} UnendedKept(s: State, present: Order, o: Order)
    requires |present.nodes| > 0 && present.nodes[0].released && |o.nodes| > 0
    requires Unended(s, BaseEnd(present))
    ensures var node := BaseEnd(present).(actions := BaseEnd(present).actions + o.nodes[0].actions);
      Unended(StitchedState(present, o, s), node) && !AllEnded(s, node.actions)
  {
    var acts, all := BaseEnd(present).actions, BaseEnd(present).actions + o.nodes[0].actions;
    var i :| 0 <= i < |acts| && acts[i].actionId in s.actionStates && !Ended(s.actionStates[acts[i].actionId]);
    assert all[i] == acts[i];
    var status := StitchedState(present, o, s).actionStates[all[i].actionId];
    assert status == Waiting || status == s.actionStates[all[i].actionId];
  }

  // ---------- An action that is left behind ----------

  /** One node with an action, and an order that goes on from there with a further action. */
  const FIRST: Order := Order("first", 0, [Node("a", 0, true, [Action("load", Soft)])], [])

  const SECOND: Order := Order("second", 0,
    [Node("a", 0, true, [Action("beep", NoBlocking)]), Node("b", 2, true, [])], [Edge("ab", 1, true, "a", "b", [])])

  lemma {:induction false} FirstTame()
    ensures Tame(FIRST) && BaseLen(FIRST.nodes) == 1
  {
    BaseLenIs(FIRST.nodes, 1);
    forall w, i | IsAction(FIRST, w, i)
      ensures w == AtNode(0) && i == 0
    {
    }
  }

  lemma {:induction false} SecondChain()
    ensures AlignedChain(SECOND) && BaseLen(SECOND.nodes) == 2
  {
    BaseLenIs(SECOND.nodes, 2);
    assert EdgeFits(SECOND, 0);
  }

  lemma {:induction false} SecondMergeable()
    ensures Mergeable(FIRST, SECOND) && WellFormed(SECOND)
    ensures Stitch(FIRST, SECOND).nodes[0].actions == [Action("load", Soft), Action("beep", NoBlocking)]
    ensures Stitch(FIRST, SECOND).edges == SECOND.edges
  {
    FirstTame();
    SecondChain();
    StitchParts(FIRST, SECOND);
    DistinctIds(Stitch(FIRST, SECOND));
  }

  lemma {:induction false} DistinctIds(s: Order)
    requires |s.nodes| == 2 && s.nodes[0].actions == [Action("load", Soft), Action("beep", NoBlocking)]
    requires s.nodes[1].actions == [] && s.edges == SECOND.edges
    ensures UniqueIds(s)
  {
    forall w, i | IsAction(s, w, i)
      ensures w == AtNode(0) && Id(s, w, i) == if i == 0 then "load" else "beep"
    {
    }
  }

  /** While the first order waits for its only action, the second is accepted; its action is left behind at the node. */
  lemma {:induction false} LeftBehind(lastNodeId: string, c: Checks) returns (a: Agv)
    requires c.routeTraversable && c.actionsExecutable && !c.charging && !c.emergencyStop && !c.fieldViolation
    requires c.automatic && c.withinDeviation
    ensures Reachable(a) && Walking(a) && a.cursor == Processing(AtNode(0))
    ensures Enabled(a, OrderArrives(SECOND, c)) && Decide(a, SECOND, c).AcceptStitch?
    ensures !Continues(a.order.value, SECOND, a.state)
    ensures var b := Step(a, OrderArrives(SECOND, c));
      && Enabled(b, ActionUpdate(AtNode(0), 0, Finished))
      && Step(b, ActionUpdate(AtNode(0), 0, Finished)).calls == a.calls + [TraverseEdge(0)]
  {
    var i := Initial(lastNodeId);
    a := Begin(i, FIRST);
    FirstTame();
    assert After(i, []) == Some(i);
    assert Step(i, OrderArrives(FIRST, c)) == a;
    ReachableThen(i, OrderArrives(FIRST, c));
    FirstUnderWay(i);
    SecondMergeable();
    SecondAccepted(a, c);
    AgvRuns.ReachableInv(a);
    SecondLeaves(a, c);
  }

  lemma {:induction false} FirstUnderWay(i: Agv)
    requires i.order.None? && i.todo == [] && i.running == {} && !i.canceling && Tame(FIRST)
    ensures var a := Begin(i, FIRST);
      && a.order == Some(FIRST) && a.todo == [] && a.running == {"load"} && !a.canceling
      && a.cursor == Processing(AtNode(0))
      && a.state.actionStates == map["load" := Waiting] && a.state.nodeStates == []
  {
    BeginStartsList(i, FIRST);
    BaseId(FIRST, AtNode(0), 0);
    assert BaseActionIds(FIRST) == {"load"};
    assert Lists.Open(FIRST.nodes[0].actions, 0) == Lists.Block(0, 1, true) by {
      assert FIRST.nodes[0].actions[0].blockingType.Soft?;
    }
  }

  lemma {:induction false} SecondAccepted(a: Agv, c: Checks)
    requires a.order == Some(FIRST) && a.todo == [] && !a.canceling && WellFormed(SECOND) && BaseLen(FIRST.nodes) == 1
    requires a.state.actionStates == map["load" := Waiting] && a.state.nodeStates == []
    requires c.routeTraversable && c.actionsExecutable && !c.charging && !c.emergencyStop && !c.fieldViolation
    requires c.automatic
    ensures Enabled(a, OrderArrives(SECOND, c)) && Decide(a, SECOND, c).AcceptStitch?
    ensures !Continues(FIRST, SECOND, a.state)
  {
    assert "load" in a.state.actionStates && !Ended(a.state.actionStates["load"]);
  }

  lemma {:induction false} SecondLeaves(a: Agv, c: Checks)
    requires a.order == Some(FIRST) && a.running == {"load"} && !a.canceling && Mergeable(FIRST, SECOND)
    requires a.state.actionStates == map["load" := Waiting] && a.state.nodeStates == [] && BaseLen(FIRST.nodes) == 1
    requires Enabled(a, OrderArrives(SECOND, c)) && Decide(a, SECOND, c).AcceptStitch?
    requires Stitch(FIRST, SECOND).nodes[0].actions == [Action("load", Soft), Action("beep", NoBlocking)]
    requires Stitch(FIRST, SECOND).edges == SECOND.edges
    ensures var b := Step(a, OrderArrives(SECOND, c));
      && Enabled(b, ActionUpdate(AtNode(0), 0, Finished))
      && Step(b, ActionUpdate(AtNode(0), 0, Finished)).calls == a.calls + [TraverseEdge(0)]
  {
    var s := Stitch(FIRST, SECOND);
    assert s.nodes[0].actions[0].actionId == "load" && !IsEnded(a.state, "load");
    NothingStarted(a, SECOND);
    var b := Extended(a, SECOND);
    StitchKeepsAlignedChain(FIRST, SECOND);
    TrailingEdgeOnChain(s, 0, 0);
    LastSoftLeaves(b, s);
  }

  /** The end of the only SOFT action leaves the node, whatever else is in its list. */
  lemma {:induction false} LastSoftLeaves(b: Agv, s: Order)
    requires b.order == Some(s) && b.running == {"load"} && !b.canceling
    requires |s.nodes| > 0 && s.nodes[0].actions == [Action("load", Soft), Action("beep", NoBlocking)]
    requires s.edges == SECOND.edges && TrailingEdge(s.edges, s.nodes[0]) == Some(0)
    ensures Enabled(b, ActionUpdate(AtNode(0), 0, Finished))
    ensures Step(b, ActionUpdate(AtNode(0), 0, Finished)).calls == b.calls + [TraverseEdge(0)]
  {
    var acts := s.nodes[0].actions;
    assert ActionsOf(s, AtNode(0)) == acts && Id(s, AtNode(0), 0) == "load";
    var a1 := Publish(b.(state := SetStatus(b.state, "load", Finished)));
    assert Lists.FirstHard(acts, 1) == 2;
    var work := Lists.Reaction(acts, EndedIndices(a1.state, acts), 0);
    assert work == Lists.Proceed;
    var a2 := a1.(running := a1.running - {"load"}, list := a1.list.(ended := a1.list.ended + {0}));
    assert Step(b, ActionUpdate(AtNode(0), 0, Finished)) == Perform(a2, AtNode(0), work);
    EmptyEdgeTraversed(a2.(list := Lists.Perform(a2.list, work)), s);
  }

  lemma {:induction false} EmptyEdgeTraversed(d: Agv, s: Order)
    requires d.order == Some(s) && |s.nodes| > 0 && s.edges == SECOND.edges
    requires TrailingEdge(s.edges, s.nodes[0]) == Some(0)
    ensures ProcessEdge(d, 0).calls == d.calls + [TraverseEdge(0)]
  {
    assert Lists.Open(s.edges[0].actions, 0) == Lists.Proceed;
    assert ProcessEdge(d, 0) == StartList(d, OnEdge(0));
  }
}
