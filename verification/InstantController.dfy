/**
 The queue of instant actions in its imperative form: the array is spliced and indexed in place, for an adapter
 that reports back after its calls have returned. Every method is a run of the machine in `InstantActions`.
 */
module InstantControllers {
  import opened Orders
  import Lists = ActionLists
  import opened ListControllers
  import opened InstantActions

  /** The calls of the pending dispatch loop return, one after the other. */
  function Drain(q: Queue): (r: Queue)
    requires |q.loops| <= 1
    ensures r.loops == []
    decreases if q.loops == [] then 0 else 1 + q.loops[0].stop - q.loops[0].next
  {
    if q.loops == [] then q
    else if q.loops[0].next >= q.loops[0].stop then q.(loops := [])
    else Drain(Iterate(q.(loops := []), q.loops[0]))
  }

  /** The waiting actions from `i` up to `stop` may be dispatched beside those that run. */
  ghost predicate BeforeBlock(q: Queue, i: nat, stop: nat) {
    && InLine(q) && q.loops == [] && LoopInv(q, RunningCount(q), Loop(i, stop))
    && forall k :: 0 <= k < RunningCount(q) ==> !q.items[k].blockingType.Hard?
  }

  /** The queue when the actions from `i` up to `stop` have been dispatched one after the other. */
  function BlockDispatched(q: Queue, i: nat, stop: nat): Queue
    requires i <= stop
    decreases stop - i
  {
    if i == stop then q else BlockDispatched(Dispatch(q, i), i + 1, stop)
  }

  lemma {:induction false} NextOfBlock(q: Queue, i: nat, stop: nat)
    requires BeforeBlock(q, i, stop)
    ensures i + 1 < stop ==> BeforeBlock(Dispatch(q, i), i + 1, stop)
    ensures i + 1 == stop ==> Inv(Dispatch(q, i))
  {
    DispatchKeepsLine(q);
  }

  lemma {:induction false} BlockDrains(q: Queue, i: nat, stop: nat)
    requires BeforeBlock(q, i, stop)
    ensures |Iterate(q, Loop(i, stop)).loops| <= 1
    ensures Drain(Iterate(q, Loop(i, stop))) == BlockDispatched(q, i, stop)
    ensures Inv(BlockDispatched(q, i, stop)) && BlockDispatched(q, i, stop).loops == []
    decreases stop - i
  {
    NextOfBlock(q, i, stop);
    var next := Iterate(q, Loop(i, stop));
    if i + 1 < stop {
      assert next.(loops := []) == Dispatch(q, i);
      BlockDrains(Dispatch(q, i), i + 1, stop);
    }
  }

  /** The queue when the action at index `i` has ended and been taken out. */
  function Spliced(q: Queue, i: nat): Queue
    requires i < |q.items|
  {
    q.(items := Remove(q.items, i), ended := q.ended + {q.items[i].actionId})
  }

  lemma {:induction false} HardEnds(q: Queue, i: nat)
    requires Inv(q) && q.loops == [] && i < RunningCount(q) && q.items[i].blockingType.Hard?
    ensures End(q, i) == Chunk(Spliced(q, i), 0, false)
    ensures InLine(Spliced(q, i)) && RunningCount(Spliced(q, i)) == 0
  {
    RemoveKeepsLine(q, i);
  }

  lemma {:induction false} ParallelEnds(q: Queue, i: nat)
    requires i < |q.items| && !q.items[i].blockingType.Hard?
    ensures
      var hard := Lists.FirstHard(q.items, i + 1);
      End(q, i) == if hard < |q.items|
        && Lists.ParallelEnded(q.items, EndedIndices(q.items, Spliced(q, i).ended), i, false)
                   then Dispatch(Spliced(q, i), hard - 1) else Spliced(q, i)
    ensures End(q, i).loops == q.loops
  {
  }

  /** What is opened from `from` on, where the waiting actions start. */
  lemma {:induction false} ChunkCases(q: Queue, from: nat, skipInitialHard: bool)
    requires InLine(q) && q.loops == [] && from == RunningCount(q)
    requires forall i :: 0 <= i < from ==> !q.items[i].blockingType.Hard?
    requires skipInitialHard <==> from > 0
    ensures Inv(Chunk(q, from, skipInitialHard))
    ensures var stop := Lists.FirstHard(q.items, from);
      if stop > from then Chunk(q, from, skipInitialHard) == Iterate(q, Loop(from, stop)) && BeforeBlock(q, from, stop)
      else Chunk(q, from, skipInitialHard) == if stop < |q.items| && !skipInitialHard then Dispatch(q, stop) else q
  {
    ChunkKeeps(q, skipInitialHard);
  }

  class InstantController {
    var currentInstantActions: seq<Action>
    var ended: set<string>              // ids of actions in status FINISHED or FAILED
    var dispatched: seq<Action>         // calls of executeAction so far
    ghost var queue: Queue

    ghost predicate At(q: Queue)
      reads this
    {
      q.items == currentInstantActions && q.ended == ended && q.dispatched == dispatched
    }

    ghost predicate Valid()
      reads this
    {
      At(queue) && Inv(queue) && queue.loops == []
    }

    constructor ()
      ensures Valid() && queue == EMPTY
    {
      currentInstantActions, ended, dispatched := [], {}, [];
      queue := EMPTY;
    }

    /** A message with executable actions arrives. */
    method ProcessInstantActions(actions: seq<Action>)
      requires Valid() && DistinctIds(queue.arrived + actions)
      modifies this
      ensures |Arrive(old(queue), actions).loops| <= 1
      ensures Valid() && queue == Drain(Arrive(old(queue), actions))
    {
      ArriveKeeps(queue, actions);
      AppendKeepsLine(queue, actions);
      var n := |currentInstantActions|;
      var hasPendingHardAction := HasPendingHardAction();
      currentInstantActions := currentInstantActions + actions;
      ghost var before := queue;
      queue := queue.(items := queue.items + actions, arrived := queue.arrived + actions);
      if !hasPendingHardAction {
        NothingWaits(before);
        ProcessChunk(n, n > 0);
      }
    }

    lemma {:induction false} NothingWaits(q: Queue)
      requires Inv(q) && q.loops == [] && !HasHard(q.items)
      ensures RunningCount(q) == |q.items|
      ensures forall i :: 0 <= i < |q.items| ==> !q.items[i].blockingType.Hard?
    {
      assert forall i :: 0 <= i < |q.items| ==> q.items[i] in q.items;
    }

    method HasPendingHardAction() returns (pending: bool)
      ensures pending <==> HasHard(currentInstantActions)
    {
      var i := 0;
      while i < |currentInstantActions|
        invariant 0 <= i <= |currentInstantActions|
        invariant forall k :: 0 <= k < i ==> !currentInstantActions[k].blockingType.Hard?
      {
        if currentInstantActions[i].blockingType.Hard? {
          return true;
        }
        i := i + 1;
      }
      return false;
    }

    /** Dispatches from index `from` on, where the waiting actions start. */
    method ProcessChunk(from: nat, skipInitialHard: bool)
      requires At(queue) && InLine(queue) && queue.loops == [] && from == RunningCount(queue)
      requires forall i :: 0 <= i < from ==> !currentInstantActions[i].blockingType.Hard?
      requires skipInitialHard <==> from > 0
      modifies this
      ensures |Chunk(old(queue), from, skipInitialHard).loops| <= 1
      ensures Valid() && queue == Drain(Chunk(old(queue), from, skipInitialHard))
    {
      ChunkCases(queue, from, skipInitialHard);
      var actions := currentInstantActions;
      var hardIndex := FindHard(actions, from);
      var stopIndex := if hardIndex == -1 then |actions| else hardIndex;
      if stopIndex == from {
        if hardIndex != -1 && !skipInitialHard {
          ProcessAction(stopIndex);
        }
      } else {
        ProcessBlock(from, stopIndex);
      }
    }

    method ProcessBlock(from: nat, stop: nat)
      requires At(queue) && BeforeBlock(queue, from, stop)
      modifies this
      ensures |Iterate(old(queue), Loop(from, stop)).loops| <= 1
      ensures Valid() && queue == Drain(Iterate(old(queue), Loop(from, stop)))
    {
      BlockDrains(queue, from, stop);
      ghost var goal := BlockDispatched(queue, from, stop);
      var i := from;
      while i < stop
        invariant from <= i <= stop <= |currentInstantActions|
        invariant At(queue)
        invariant BlockDispatched(queue, i, stop) == goal
      {
        ProcessAction(i);
        i := i + 1;
      }
    }

    method ProcessAction(i: nat)
      requires At(queue) && i < |currentInstantActions|
      modifies this
      ensures queue == Dispatch(old(queue), i) && At(queue) && currentInstantActions == old(currentInstantActions)
    {
      dispatched := dispatched + [currentInstantActions[i]];
      queue := Dispatch(queue, i);
    }

    /** Callback of executeAction: the action at index `i` has ended. */
    method UpdateActionStatus(i: nat)
      requires Valid() && IsRunning(queue, i)
      modifies this
      ensures |End(old(queue), i).loops| <= 1
      ensures Valid() && queue == Drain(End(old(queue), i))
    {
      RunningIsPrefix(queue, i);
      if currentInstantActions[i].blockingType.Hard? {
        HardEnds(queue, i);
        Splice(i);
        ProcessChunk(0, false);
      } else {
        EndParallelAction(i);
        EndKeeps(old(queue), i);
      }
    }

    method EndParallelAction(i: nat)
      requires At(queue) && i < |currentInstantActions| && !currentInstantActions[i].blockingType.Hard?
      modifies this
      ensures At(queue) && queue == End(old(queue), i) && queue.loops == old(queue.loops)
    {
      ParallelEnds(queue, i);
      var actions := currentInstantActions;
      Splice(i);
      ContinueAfter(actions, i);
    }

    method Splice(i: nat)
      requires At(queue) && i < |currentInstantActions|
      modifies this
      ensures queue == Spliced(old(queue), i) && At(queue)
    {
      ended := ended + {currentInstantActions[i].actionId};
      currentInstantActions := currentInstantActions[..i] + currentInstantActions[i + 1..];
      queue := Spliced(queue, i);
    }

    /** The NONE or SOFT action at index `i` of the former queue `actions` has ended and left the queue. */
    method ContinueAfter(actions: seq<Action>, i: nat)
      requires At(queue) && i < |actions| && currentInstantActions == Remove(actions, i)
      modifies this
      ensures At(queue)
      ensures
        var hard := Lists.FirstHard(actions, i + 1);
        queue == if hard < |actions| && Lists.ParallelEnded(actions, EndedIndices(actions, old(ended)), i, false)
                 then Dispatch(old(queue), hard - 1) else old(queue)
    {
      var nextHard := FindHard(actions, i + 1);
      if nextHard != -1 {
        var all := AreParallelActionsEnded(actions, EndedIndices(actions, ended), i, false);
        if all {
          ProcessAction(nextHard - 1);
        }
      }
    }
  }
}
