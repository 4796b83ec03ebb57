/**
 The queue of instant actions. Messages append to it, endings remove from it, and the dispatch loop
 indexes the very array that endings shorten.
 */
module InstantActions {
  import opened Orders
  import Lists = ActionLists

  /** A dispatch loop that goes on with index `next` of the live queue when the adapter call returns. */
  datatype Loop = Loop(next: nat, stop: nat)

  datatype Queue = Queue(
    items: seq<Action>,            // queued actions: running ones, then waiting ones
    ended: set<string>,            // ids of actions in status FINISHED or FAILED
    loops: seq<Loop>,
    dispatched: seq<Action>,       // in the order of their dispatch
    crashed: bool,                 // a loop has run past the end of the queue
    arrived: seq<Action>)          // history: all actions accepted, in the order of their arrival

  datatype Event =
    | Arrives(actions: seq<Action>)
    | Ends(index: nat)             // the action at this place of the queue ends
    | Returns                      // the adapter call of a dispatch loop returns

  function IsRunning(q: Queue, i: nat): bool {
    i < |q.items| && q.items[i] in q.dispatched && q.items[i].actionId !in q.ended
  }

  predicate Enabled(q: Queue, e: Event) {
    && !q.crashed
    && match e
       case Arrives(_) => q.loops == []
       case Ends(i) => IsRunning(q, i)
       case Returns => q.loops != []
  }

  function Dispatch(q: Queue, i: nat): Queue {
    if i < |q.items| then q.(dispatched := q.dispatched + [q.items[i]]) else q.(crashed := true)
  }

  function Iterate(q: Queue, loop: Loop): Queue {
    var q' := Dispatch(q, loop.next);
    if loop.next + 1 < loop.stop then q'.(loops := q'.loops + [Loop(loop.next + 1, loop.stop)]) else q'
  }

  /** Dispatches from index `from` on: the NONE and SOFT actions up to the next HARD one, or that one itself. */
  function Chunk(q: Queue, from: nat, skipInitialHard: bool): Queue
    requires from <= |q.items|
  {
    match Lists.Open(q.items, from)
    case Single(i) => if skipInitialHard then q else Dispatch(q, i)
    case Block(i, stop, _) => Iterate(q, Loop(i, stop))
    case _ => q
  }

  predicate HasHard(items: seq<Action>) {
    exists a :: a in items && a.blockingType.Hard?
  }

  function Arrive(q: Queue, actions: seq<Action>): Queue {
    var n := |q.items|;
    var q' := q.(items := q.items + actions, arrived := q.arrived + actions);
    if HasHard(q.items) then q' else Chunk(q', n, n > 0)
  }

  function Remove(items: seq<Action>, i: nat): seq<Action>
    requires i < |items|
  {
    items[..i] + items[i + 1..]
  }

  /** Indices of the ended actions still queued; only the one ending is among them, as others have been removed. */
  function EndedIndices(items: seq<Action>, ended: set<string>): set<nat> {
    set i: nat | i < |items| && items[i].actionId in ended
  }

  function End(q: Queue, i: nat): Queue
    requires i < |q.items|
  {
    var a := q.items[i];
    var q1 := q.(ended := q.ended + {a.actionId});
    var rest := q1.(items := Remove(q.items, i));
    if a.blockingType.Hard? then
      Chunk(rest, 0, false)
    else
      var hard := Lists.FirstHard(q.items, i + 1);
      if hard < |q.items| && Lists.ParallelEnded(q.items, EndedIndices(q.items, q1.ended), i, false) then
        Dispatch(rest, hard - 1)
      else rest
  }

  function Step(q: Queue, e: Event): Queue
    requires Enabled(q, e)
  {
    match e
    case Arrives(actions) => Arrive(q, actions)
    case Ends(i) => End(q, i)
    case Returns => Iterate(q.(loops := q.loops[..|q.loops| - 1]), q.loops[|q.loops| - 1])
  }

  const EMPTY := Queue([], {}, [], [], false, [])

  // ---------- The invariant ----------

  ghost predicate DistinctIds(actions: seq<Action>) {
    forall i, j :: 0 <= i < j < |actions| ==> actions[i].actionId != actions[j].actionId
  }

  /** Number of queued actions that have been dispatched. */
  function RunningCount(q: Queue): int {
    |q.items| - (|q.arrived| - |q.dispatched|)
  }

  /** What was dispatched is a prefix of what arrived; the queue is what runs of it, followed by all that is left. */
  ghost predicate InLine(q: Queue) {
    var d := RunningCount(q);
    && !q.crashed && DistinctIds(q.arrived)
    && |q.dispatched| <= |q.arrived| && q.dispatched == q.arrived[..|q.dispatched|]
    && 0 <= d <= |q.items| && q.items[d..] == q.arrived[|q.dispatched|..]
    && (forall i :: 0 <= i < d ==> q.items[i] in q.dispatched && q.items[i].actionId !in q.ended)
    && DistinctIds(q.items)
    && (forall a :: a in q.dispatched && a !in q.items[..d] ==> a.actionId in q.ended)
    && (forall id :: id in q.ended ==> exists a :: a in q.dispatched && a.actionId == id)
  }

  /**
   What runs is a HARD action alone before anything, or a block of NONE and SOFT actions before nothing or a HARD
   action.
   */
  ghost predicate Blocked(q: Queue) {
    var d := RunningCount(q);
    && |q.loops| <= 1
    && 0 <= d <= |q.items|
    && (q.items != [] ==> d > 0)
    && (if d == 1 && q.items[0].blockingType.Hard? then q.loops == []
        else
          && (forall i :: 0 <= i < d ==> !q.items[i].blockingType.Hard?)
          && (q.loops == [] ==> d == |q.items| || q.items[d].blockingType.Hard?)
          && (q.loops != [] ==> LoopInv(q, d, q.loops[0])))
  }

  ghost predicate Inv(q: Queue) {
    InLine(q) && Blocked(q)
  }

  ghost predicate LoopInv(q: Queue, d: int, loop: Loop) {
    && loop.next == d < loop.stop <= |q.items|
    && (forall i :: d <= i < loop.stop ==> !q.items[i].blockingType.Hard?)
    && (loop.stop == |q.items| || q.items[loop.stop].blockingType.Hard?)
  }

  /** Messages bring fresh ids, and no action ends while a dispatch loop goes on. */
  ghost predicate Orderly(q: Queue, e: Event) {
    match e
    case Arrives(actions) => DistinctIds(q.arrived + actions)
    case Ends(_) => q.loops == []
    case Returns => true
  }

  // ---------- Every step keeps the invariant, if and only if it is orderly ----------

  lemma {:induction false} DistinctPrefix(a: seq<Action>, b: seq<Action>)
    requires DistinctIds(a + b)
    ensures DistinctIds(a)
    ensures forall x, y :: x in a && y in b ==> x.actionId != y.actionId
  {
    forall i, j | 0 <= i < j < |a|
      ensures a[i].actionId != a[j].actionId
    {
      assert (a + b)[i] == a[i] && (a + b)[j] == a[j];
    }
    forall x, y | x in a && y in b
      ensures x.actionId != y.actionId
    {
      var i :| 0 <= i < |a| && a[i] == x;
      var j :| 0 <= j < |b| && b[j] == y;
      assert (a + b)[i] == x && (a + b)[|a| + j] == y;
    }
  }

  /** What has not been dispatched has neither ended nor the id of a dispatched action. */
  lemma {:induction false} WaitingIsFresh(q: Queue, i: nat)
    requires Inv(q) && RunningCount(q) <= i < |q.items|
    ensures q.items[i] !in q.dispatched && q.items[i].actionId !in q.ended
    ensures forall a :: a in q.dispatched ==> a.actionId != q.items[i].actionId
  {
    var d, n := RunningCount(q), |q.dispatched|;
    assert q.items[i] == q.items[d..][i - d] == q.arrived[n..][i - d];
    assert q.arrived == q.arrived[..n] + q.arrived[n..];
    DistinctPrefix(q.arrived[..n], q.arrived[n..]);
  }

  lemma {:induction false} RunningIsPrefix(q: Queue, i: nat)
    requires Inv(q) && i < |q.items|
    ensures IsRunning(q, i) <==> i < RunningCount(q)
  {
    if i >= RunningCount(q) {
      WaitingIsFresh(q, i);
    }
  }

  /** Dispatching the first waiting action. */
  lemma {:induction false} DispatchKeepsLine(q: Queue)
    requires InLine(q) && RunningCount(q) < |q.items|
    ensures InLine(Dispatch(q, RunningCount(q))) && RunningCount(Dispatch(q, RunningCount(q))) == RunningCount(q) + 1
  {
    var d, n := RunningCount(q), |q.dispatched|;
    var q' := Dispatch(q, d);
    assert q.items[d] == q.items[d..][0] == q.arrived[n..][0];
    assert q'.dispatched == q.arrived[..n + 1];
    assert q'.items[d + 1..] == q.items[d..][1..] == q.arrived[n..][1..] == q.arrived[n + 1..];
    assert q.arrived == q.arrived[..n] + q.arrived[n..];
    DistinctPrefix(q.arrived[..n], q.arrived[n..]);
    assert q'.items[..d + 1] == q.items[..d] + [q.items[d]];
  }

  lemma {:induction false} IterateKeeps(q: Queue, loop: Loop)
    requires InLine(q) && q.loops == [] && LoopInv(q, RunningCount(q), loop)
    requires forall i :: 0 <= i < RunningCount(q) ==> !q.items[i].blockingType.Hard?
    ensures Inv(Iterate(q, loop))
  {
    DispatchKeepsLine(q);
    var q' := Dispatch(q, RunningCount(q));
    if loop.next + 1 < loop.stop {
      SameLine(q', [Loop(loop.next + 1, loop.stop)]);
      assert Iterate(q, loop) == q'.(loops := [Loop(loop.next + 1, loop.stop)]);
    }
    IterateBlocked(q, loop);
  }

  /** Being in line does not depend on the dispatch loops. */
  lemma {:induction false} SameLine(q: Queue, loops: seq<Loop>)
    requires InLine(q)
    ensures InLine(q.(loops := loops))
  {
  }

  lemma {:induction false} IterateBlocked(q: Queue, loop: Loop)
    requires !q.crashed && q.loops == [] && 0 <= RunningCount(q) && LoopInv(q, RunningCount(q), loop)
    requires forall i :: 0 <= i < RunningCount(q) ==> !q.items[i].blockingType.Hard?
    ensures Blocked(Iterate(q, loop))
  {
    assert RunningCount(Iterate(q, loop)) == RunningCount(q) + 1;
  }

  /** Opening the waiting part of a queue of which nothing, or only NONE and SOFT actions run. */
  lemma {:induction false} ChunkKeeps(q: Queue, skipInitialHard: bool)
    requires InLine(q) && q.loops == []
    requires forall i :: 0 <= i < RunningCount(q) ==> !q.items[i].blockingType.Hard?
    requires skipInitialHard <==> RunningCount(q) > 0
    ensures Inv(Chunk(q, RunningCount(q), skipInitialHard))
  {
    var d := RunningCount(q);
    match Lists.Open(q.items, d)
    case Single(i) =>
      assert i == d;
      if !skipInitialHard {
        DispatchKeepsLine(q);
      }
    case Block(i, stop, _) => IterateKeeps(q, Loop(i, stop));
    case _ =>
  }

  lemma {:induction false} AppendKeepsLine(q: Queue, actions: seq<Action>)
    requires InLine(q) && DistinctIds(q.arrived + actions)
    ensures InLine(q.(items := q.items + actions, arrived := q.arrived + actions))
  {
    var q' := q.(items := q.items + actions, arrived := q.arrived + actions);
    var d, n := RunningCount(q), |q.dispatched|;
    assert q'.items[d..] == q.items[d..] + actions;
    assert q'.arrived[n..] == q.arrived[n..] + actions;
    assert q'.items[..d] == q.items[..d];
    DistinctPrefix(q.arrived, actions);
    forall i | 0 <= i < |q.items|
      ensures q.items[i] in q.arrived
    {
      if i >= d {
        assert q.items[i] == q.items[d..][i - d] == q.arrived[n + (i - d)];
      }
    }
    forall i, j | 0 <= i < j < |q'.items|
      ensures q'.items[i].actionId != q'.items[j].actionId
    {
      if i >= |q.items| {
        var k := |q.arrived| - |q.items|;
        assert q'.arrived[k + i] == q'.items[i] && q'.arrived[k + j] == q'.items[j];
      }
    }
  }

  lemma {:induction false} ArriveKeeps(q: Queue, actions: seq<Action>)
    requires Inv(q) && q.loops == [] && DistinctIds(q.arrived + actions)
    ensures Inv(Arrive(q, actions))
  {
    AppendKeepsLine(q, actions);
    var q' := q.(items := q.items + actions, arrived := q.arrived + actions);
    var n := |q.items|;
    if HasHard(q.items) {
      if q.items[0].blockingType.Hard? {
      } else {
        var a :| a in q.items && a.blockingType.Hard?;
        assert RunningCount(q) < n;
      }
      assert Blocked(q');
    } else {
      assert forall i :: 0 <= i < n ==> q.items[i] in q.items;
      assert RunningCount(q) == n;
      ChunkKeeps(q', n > 0);
    }
  }

  lemma {:induction false} Removed(items: seq<Action>, i: nat, d: nat)
    requires DistinctIds(items) && i < d <= |items|
    ensures DistinctIds(Remove(items, i)) && Remove(items, i)[d - 1..] == items[d..]
    ensures forall k :: 0 <= k < |items| - 1 ==> Remove(items, i)[k] == items[if k < i then k else k + 1]
    ensures forall b :: b in items[..d] && b != items[i] ==> b in Remove(items, i)[..d - 1]
  {
    var rest := Remove(items, i);
    forall b | b in items[..d] && b != items[i]
      ensures b in rest[..d - 1]
    {
      var k :| 0 <= k < d && items[k] == b;
      assert rest[..d - 1][if k < i then k else k - 1] == b;
    }
  }

  lemma {:induction false} RemoveKeepsLine(q: Queue, i: nat)
    requires InLine(q) && i < RunningCount(q)
    ensures InLine(q.(items := Remove(q.items, i), ended := q.ended + {q.items[i].actionId}))
  {
    Removed(q.items, i, RunningCount(q));
    RemoveKeepsRunning(q.items, q.dispatched, q.ended, i, RunningCount(q));
  }

  /** The actions that run without the one that has ended. */
  lemma {:induction false} RemoveKeepsRunning(items: seq<Action>, dispatched: seq<Action>, ended: set<string>, i: nat,
                                              d: nat)
    requires DistinctIds(items) && i < d <= |items|
    requires forall k :: 0 <= k < d ==> items[k] in dispatched && items[k].actionId !in ended
    requires forall a :: a in dispatched && a !in items[..d] ==> a.actionId in ended
    requires forall id :: id in ended ==> exists a :: a in dispatched && a.actionId == id
    ensures var rest, ended' := Remove(items, i), ended + {items[i].actionId};
      && (forall k :: 0 <= k < d - 1 ==> rest[k] in dispatched && rest[k].actionId !in ended')
      && (forall a :: a in dispatched && a !in rest[..d - 1] ==> a.actionId in ended')
      && (forall id :: id in ended' ==> exists a :: a in dispatched && a.actionId == id)
  {
    var rest, ended' := Remove(items, i), ended + {items[i].actionId};
    Removed(items, i, d);
    forall k | 0 <= k < d - 1
      ensures rest[k] in dispatched && rest[k].actionId !in ended'
    {
      var j := if k < i then k else k + 1;
      assert rest[k] == items[j];
    }
  }

  /**
   In a block that runs, the end of one action lets the HARD action behind it start if and only if it was the last
   one.
   */
  lemma {:induction false} BlockEnds(q: Queue, i: nat)
    requires Inv(q) && q.loops == [] && i < RunningCount(q) && !q.items[i].blockingType.Hard?
    ensures Lists.FirstHard(q.items, i + 1) == RunningCount(q)
    ensures Lists.ParallelEnded(q.items, EndedIndices(q.items, q.ended + {q.items[i].actionId}), i, false) <==>
      RunningCount(q) == 1
  {
    var d, ended := RunningCount(q), EndedIndices(q.items, q.ended + {q.items[i].actionId});
    if d > 1 {
      var k := if i == 0 then 1 else 0;
      assert q.items[k].actionId != q.items[i].actionId;
      assert k !in ended;
    }
  }

  lemma {:induction false} EndKeeps(q: Queue, i: nat)
    requires Inv(q) && q.loops == [] && i < RunningCount(q)
    ensures Inv(End(q, i))
  {
    if q.items[i].blockingType.Hard? {
      RemoveKeepsLine(q, i);
      ChunkKeeps(q.(items := Remove(q.items, i), ended := q.ended + {q.items[i].actionId}), false);
    } else {
      BlockEndKeeps(q, i);
    }
  }

  lemma {:induction false} BlockEndKeeps(q: Queue, i: nat)
    requires Inv(q) && q.loops == [] && i < RunningCount(q) && !q.items[i].blockingType.Hard?
    ensures Inv(End(q, i))
  {
    var d := RunningCount(q);
    var rest := q.(items := Remove(q.items, i), ended := q.ended + {q.items[i].actionId});
    RemoveKeepsLine(q, i);
    BlockEnds(q, i);
    Removed(q.items, i, d);
    if d == 1 && d < |q.items| {
      assert rest.items[0] == q.items[1];
      DispatchKeepsLine(rest);
    }
  }

  lemma {:induction false} ReturnsKeeps(q: Queue)
    requires Inv(q) && q.loops != []
    ensures Inv(Step(q, Returns))
  {
    ReturnsIterate(q);
    IterateKeeps(q.(loops := []), q.loops[0]);
  }

  lemma {:induction false} ReturnsIterate(q: Queue)
    requires !q.crashed && |q.loops| == 1
    ensures Step(q, Returns) == Iterate(q.(loops := []), q.loops[0])
  {
    assert q.loops[..|q.loops| - 1] == [];
  }

  /** A queue in order stays in order after a step if and only if the step is orderly. */
  lemma {:induction false} StepKeepsIffOrderly(q: Queue, e: Event)
    requires Inv(q) && Enabled(q, e)
    ensures Inv(Step(q, e)) <==> Orderly(q, e)
  {
    match e
    case Arrives(actions) =>
      if Orderly(q, e) {
        ArriveKeeps(q, actions);
      }
    case Ends(i) =>
      RunningIsPrefix(q, i);
      if q.loops == [] {
        EndKeeps(q, i);
      } else {
        EndInLoop(q, i);
      }
    case Returns => ReturnsKeeps(q);
  }

  // ---------- An action that ends while a dispatch loop goes on ----------

  /** The end only shortens the queue under the loop. */
  lemma {:induction false} EndInLoop(q: Queue, i: nat)
    requires Inv(q) && q.loops != [] && i < RunningCount(q)
    ensures End(q, i) == q.(items := Remove(q.items, i), ended := q.ended + {q.items[i].actionId})
    ensures !Inv(End(q, i))
  {
    var d, ended := RunningCount(q), EndedIndices(q.items, q.ended + {q.items[i].actionId});
    assert Lists.RunStart(q.items, i) == 0;
    WaitingIsFresh(q, d);
    assert d !in ended;
    assert Lists.FirstHard(q.items, i + 1) > d;
    assert !Lists.ParallelEnded(q.items, ended, i, false);
  }

  lemma {:induction false} LoopMisses(q: Queue, i: nat)
    requires Inv(q) && q.loops != [] && i < RunningCount(q)
    ensures
      var n := |q.dispatched|;
      var d := q.loops[0].next;
      var after := Dispatch(q.(items := Remove(q.items, i)), d);
      if n + 1 == |q.arrived| then after.crashed else after.dispatched == q.dispatched + [q.arrived[n + 1]]
  {
    var d, n := RunningCount(q), |q.dispatched|;
    Removed(q.items, i, d);
    assert q.items[d..] == q.arrived[n..];
    if n + 1 < |q.arrived| {
      assert q.items[d + 1] == q.items[d..][1] == q.arrived[n..][1];
    }
  }

  /**
   The loop then leaves out the action that was next, or runs past the end of the queue: an action handled by
   the controller itself, which ends inside its dispatch, must be the last one of its block.
   */
  lemma {:induction false} LoopSkipsOrCrashes(q: Queue, i: nat)
    requires Inv(q) && q.loops != [] && Enabled(q, Ends(i))
    ensures
      var n, after := |q.dispatched|, Step(Step(q, Ends(i)), Returns);
      if n + 1 == |q.arrived| then after.crashed
      else after.dispatched == q.dispatched + [q.arrived[n + 1]]
  {
    RunningIsPrefix(q, i);
    EndInLoop(q, i);
    LoopMisses(q, i);
  }

  // ---------- Runs ----------

  datatype Outcome = Reached(queue: Queue) | Stuck

  function Play(events: seq<Event>): Outcome {
    if events == [] then Reached(EMPTY)
    else
      var before, e := Play(events[..|events| - 1]), events[|events| - 1];
      if before.Reached? && Enabled(before.queue, e) then Reached(Step(before.queue, e)) else Stuck
  }

  ghost predicate OrderlyRun(events: seq<Event>) {
    forall k :: 0 <= k < |events| && Play(events[..k]).Reached? ==> Orderly(Play(events[..k]).queue, events[k])
  }

  lemma {:induction false} RunsKeep(events: seq<Event>)
    requires OrderlyRun(events) && Play(events).Reached?
    ensures Inv(Play(events).queue)
  {
    if events == [] {
    } else {
      var before, e := events[..|events| - 1], events[|events| - 1];
      forall k | 0 <= k < |before| && Play(before[..k]).Reached?
        ensures Orderly(Play(before[..k]).queue, before[k])
      {
        assert before[..k] == events[..k];
      }
      RunsKeep(before);
      StepKeepsIffOrderly(Play(before).queue, e);
    }
  }

  /**
   Under every interleaving of messages and endings the actions are dispatched in the order of their arrival,
   each at most once; a HARD action runs alone; and what waits, waits for something that runs.
   */
  lemma {:induction false} QueueSafety(events: seq<Event>)
    requires OrderlyRun(events) && Play(events).Reached?
    ensures
      var q := Play(events).queue;
      && !q.crashed
      && DistinctIds(q.dispatched) && q.dispatched <= q.arrived
      && (forall i: nat, j: nat :: IsRunning(q, i) && IsRunning(q, j) && q.items[i].blockingType.Hard? ==> i == j)
      && (q.items != [] ==> IsRunning(q, 0))
      && (q.items == [] ==> q.dispatched == q.arrived && forall a :: a in q.arrived ==> a.actionId in q.ended)
      && (forall i :: 0 <= i < |q.items| && !IsRunning(q, i) ==> q.items[i] !in q.dispatched)
  {
    RunsKeep(events);
    var q := Play(events).queue;
    forall i: nat | i < |q.items|
      ensures IsRunning(q, i) <==> i < RunningCount(q)
      ensures !IsRunning(q, i) ==> q.items[i] !in q.dispatched
    {
      RunningIsPrefix(q, i);
      if i >= RunningCount(q) {
        WaitingIsFresh(q, i);
      }
    }
    if q.items == [] {
      assert q.arrived[|q.dispatched|..] == [];
      assert q.arrived[..|q.dispatched|] == q.arrived;
    }
  }
}
