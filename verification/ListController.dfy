/**
 The list processing of the AGV controller in its own, re-entrant form: an adapter may report endings
 inside the very call that dispatches an action. Every execution is a run of `ActionLists`.
 */
module ListControllers {
  import opened Orders
  import opened ActionLists

  /** What an adapter does next inside a call: report the end of an action, or return. */
  datatype Reply = Report(index: nat) | Return

  /** The stack while a dispatch loop has reached `next`: its frame is gone once nothing is left to dispatch. */
  function Frames(rest: seq<Loop>, next: nat, stop: nat, stopDriving: bool): seq<Loop> {
    if next < stop then rest + [Loop(next, stop, stopDriving)] else rest
  }

  /** When the adapter call returns, a loop with actions left dispatches the next one. */
  lemma {:induction false} LoopGoesOn(acts: seq<Action>, events: seq<Event>, r: Run, rest: seq<Loop>, loop: Loop)
    returns (next: Run)
    requires Play(acts, events) == Reached(r) && r.stack == rest + [loop]
    ensures Play(acts, events + [Returns]) == Reached(next)
    ensures next.log == r.log + [Dispatch(loop.next, loop.stopDriving)] && next.ended == r.ended
      && next.proceeds == r.proceeds
    ensures next.stack == Frames(rest, loop.next + 1, loop.stop, loop.stopDriving)
  {
    Extend(acts, events, Returns);
    assert r.stack[..|r.stack| - 1] == rest;
    next := Step(acts, r, Returns);
  }

  // ---------- Searching a list ----------

  method FindHard(actions: seq<Action>, from: nat) returns (index: int)
    requires from <= |actions|
    ensures index == if FirstHard(actions, from) == |actions| then -1 else FirstHard(actions, from)
  {
    var i := from;
    while i < |actions|
      invariant from <= i <= |actions|
      invariant FirstHard(actions, from) == FirstHard(actions, i)
    {
      if actions[i].blockingType.Hard? {
        return i;
      }
      i := i + 1;
    }
    return -1;
  }

  method FindSoft(actions: seq<Action>, from: nat) returns (index: int)
    requires from <= |actions|
    ensures index == -1 ==> forall k :: from <= k < |actions| ==> !actions[k].blockingType.Soft?
    ensures index != -1 ==> from <= index < |actions| && actions[index].blockingType.Soft?
    ensures index != -1 ==> forall k :: from <= k < index ==> !actions[k].blockingType.Soft?
  {
    var i := from;
    while i < |actions|
      invariant from <= i <= |actions|
      invariant forall k :: from <= k < i ==> !actions[k].blockingType.Soft?
    {
      if actions[i].blockingType.Soft? {
        return i;
      }
      i := i + 1;
    }
    return -1;
  }

  method AreParallelActionsEnded(actions: seq<Action>, ended: set<nat>, index: nat, softOnly: bool) returns (all: bool)
    requires index < |actions|
    ensures all <==> ParallelEnded(actions, ended, index, softOnly)
  {
    ghost var lo, hi := RunStart(actions, index), FirstHard(actions, index + 1);
    var i: int := index - 1;
    while i >= 0
      invariant lo - 1 <= i < index
      invariant i == -1 ==> lo == 0
      invariant RunStart(actions, i + 1) == lo
      invariant forall j :: i < j < index && (softOnly ==> actions[j].blockingType.Soft?) ==> j in ended
    {
      if actions[i].blockingType.Hard? {
        break;
      } else if (!softOnly || actions[i].blockingType.Soft?) && i !in ended {
        return false;
      }
      i := i - 1;
    }
    assert i == lo - 1;
    var k := index + 1;
    while k < |actions|
      invariant index < k <= hi
      invariant FirstHard(actions, k) == hi
      invariant forall j :: lo <= j < k && j != index && (softOnly ==> actions[j].blockingType.Soft?) ==> j in ended
    {
      if actions[k].blockingType.Hard? {
        return true;
      } else if (!softOnly || actions[k].blockingType.Soft?) && k !in ended {
        return false;
      }
      k := k + 1;
    }
    return true;
  }

  // ---------- The controller ----------

  class ListController {
    const actions: seq<Action>
    /** The adapter: its next move inside a call, given everything that has happened on this list. */
    const adapter: seq<Event> -> Reply

    var ended: set<nat>              // actions in status FINISHED or FAILED
    var dispatched: seq<Dispatch>    // calls of executeAction so far
    var proceeds: nat                // how often the following step was triggered
    var events: seq<Event>
    ghost var run: Run

    /** The fields are those of `r`. */
    ghost predicate At(r: Run)
      reads this
    {
      r.log == dispatched && r.ended == ended && r.proceeds == proceeds
    }

    ghost predicate Valid()
      reads this
    {
      At(run) && Play(actions, events) == Reached(run)
    }

    /** The fields are those of `r`, and carrying out `w` is what the controller has to do now. */
    ghost predicate Owes(r: Run, w: Work)
      reads this
    {
      At(r) && Play(actions, events) == Reached(Perform(r, w))
    }

    constructor (actions: seq<Action>, adapter: seq<Event> -> Reply)
      ensures this.actions == actions && this.adapter == adapter
      ensures events == [] && Owes(Run([], {}, [], 0), Open(actions, 0))
    {
      this.actions, this.adapter := actions, adapter;
      ended, dispatched, proceeds, events := {}, [], 0, [];
    }

    /** Action `index` has been dispatched and has not ended. */
    predicate IsRunning(index: nat)
      reads this
    {
      index < |actions| && index !in ended && exists k :: 0 <= k < |dispatched| && dispatched[k].index == index
    }

    function Unended(): nat
      reads this
    {
      if |ended| <= |actions| then |actions| - |ended| else 0
    }

    /** Starts the part of the list that begins at `from`. */
    method ProcessActions(from: nat, ghost r: Run)
      requires from <= |actions| && Owes(r, Open(actions, from))
      modifies this
      ensures Valid() && run.stack == r.stack
      ensures old(ended) <= ended
      decreases Unended(), 4
    {
      var hardIndex := FindHard(actions, from);
      var softIndex := FindSoft(actions, from);
      var stopIndex := if hardIndex == -1 then |actions| else hardIndex;
      var stopDriving := softIndex != -1 && softIndex < stopIndex;
      assert stopDriving == HasSoft(actions, from, stopIndex);
      if stopIndex == from {
        if hardIndex == -1 {
          proceeds := proceeds + 1;
          run := Perform(r, Proceed);
        } else {
          ProcessAction(stopIndex, true, Perform(r, Single(stopIndex)));
        }
      } else {
        assert Open(actions, from) == Block(from, stopIndex, stopDriving);
        ProcessBlock(from, stopIndex, stopDriving, r);
      }
    }

    /** Dispatches the NONE and SOFT actions of a block one after the other. */
    method ProcessBlock(from: nat, stopIndex: nat, stopDriving: bool, ghost r: Run)
      requires from < stopIndex && Owes(r, Block(from, stopIndex, stopDriving))
      modifies this
      ensures Valid() && run.stack == r.stack
      ensures old(ended) <= ended
      decreases Unended(), 3
    {
      ProcessAction(from, stopDriving, Perform(r, Block(from, stopIndex, stopDriving)));
      var i := from + 1;
      while i < stopIndex
        invariant from < i <= stopIndex
        invariant Valid()
        invariant run.stack == Frames(r.stack, i, stopIndex, stopDriving)
        invariant old(ended) <= ended
      {
        LeqCard(old(ended), ended);
        ProcessNext(i, stopIndex, stopDriving, r.stack);
        i := i + 1;
      }
    }

    /** The adapter call has returned, and the loop goes on. */
    method ProcessNext(i: nat, stopIndex: nat, stopDriving: bool, ghost rest: seq<Loop>)
      requires Valid() && i < stopIndex && run.stack == rest + [Loop(i, stopIndex, stopDriving)]
      modifies this
      ensures Valid() && run.stack == Frames(rest, i + 1, stopIndex, stopDriving)
      ensures old(ended) <= ended
      decreases Unended(), 2
    {
      ghost var next := LoopGoesOn(actions, events, run, rest, Loop(i, stopIndex, stopDriving));
      events := events + [Returns];
      assert Unended() == old(Unended());
      ProcessAction(i, stopDriving, next);
    }

    /** One call of executeAction, which leads to run `r`. */
    method ProcessAction(index: nat, stopDriving: bool, ghost r: Run)
      requires Play(actions, events) == Reached(r)
      requires At(r.(log := dispatched)) && r.log == dispatched + [Dispatch(index, stopDriving)]
      modifies this
      ensures Valid() && run.stack == r.stack
      ensures old(ended) <= ended
      decreases Unended(), 1
    {
      dispatched := dispatched + [Dispatch(index, stopDriving)];
      run := r;
      assert Unended() == old(Unended());
      while true
        invariant Valid() && run.stack == r.stack
        invariant old(ended) <= ended
        decreases Unended()
      {
        var reply := adapter(events);
        if reply == Return || !IsRunning(reply.index) {
          break;
        }
        LeqCard(old(ended), ended);
        ghost var before := ended;
        UpdateActionStatus(reply.index);
        LeqCard(before + {reply.index}, ended);
        EndedSmaller();
      }
    }

    /** The adapter reports that a running action has ended. */
    method UpdateActionStatus(index: nat)
      requires Valid() && IsRunning(index)
      modifies this
      ensures Valid() && run.stack == old(run.stack)
      ensures old(ended) + {index} <= ended
      decreases Unended(), 0
    {
      ghost var r := run.(ended := run.ended + {index});
      EndedSmaller();
      Extend(actions, events, Ends(index));
      events := events + [Ends(index)];
      ended := ended + {index};
      assert Owes(r, Reaction(actions, ended, index));
      if actions[index].blockingType.Hard? {
        ProcessActions(index + 1, r);
      } else {
        ContinueAfter(index, r);
      }
    }

    /** A NONE or SOFT action has ended. */
    method ContinueAfter(index: nat, ghost r: Run)
      requires index < |actions| && !actions[index].blockingType.Hard? && Owes(r, Reaction(actions, ended, index))
      modifies this
      ensures Valid() && run.stack == r.stack
      ensures old(ended) <= ended
      decreases Unended(), 4
    {
      var nextHard := FindHard(actions, index + 1);
      var all := AreParallelActionsEnded(actions, ended, index, nextHard == -1);
      if nextHard != -1 && all {
        ProcessAction(nextHard, true, Perform(r, Single(nextHard)));
      } else if nextHard == -1 && all {
        proceeds := proceeds + 1;
        run := Perform(r, Proceed);
      } else {
        run := r;
      }
    }

    lemma {:induction false} EndedSmaller()
      requires Valid()
      ensures |ended| <= |actions|
      ensures forall i :: 0 <= i < |actions| && i !in ended ==> |ended| < |actions|
    {
      PlayKeeps(actions, events);
      EndedBound(ended, |actions|);
      forall i | 0 <= i < |actions| && i !in ended
        ensures |ended| < |actions|
      {
        EndedBound(ended + {i}, |actions|);
      }
    }

    lemma {:induction false} LeqCard(s: set<nat>, t: set<nat>)
      requires s <= t
      ensures |s| <= |t|
    {
      if s != {} {
        var x :| x in s;
        LeqCard(s - {x}, t - {x});
      }
    }

    /** The whole run of a list: its start and every later report, for any adapter. */
    method Execute(reports: seq<nat>)
      requires events == [] && Owes(Run([], {}, [], 0), Open(actions, 0))
      modifies this
      ensures Valid()
      ensures forall k :: 0 <= k < |dispatched| ==> dispatched[k].index == k
      ensures |dispatched| <= |actions|
      ensures forall k :: 0 <= k < |dispatched| ==> (dispatched[k].stopDriving <==> Stops(actions, k))
      ensures proceeds > 0 ==> forall k :: 0 <= k < |actions| && Blocking(actions[k]) ==> k in ended
      ensures (forall k :: 0 <= k < |dispatched| ==> k in ended) ==>
        |dispatched| == |actions| && proceeds > 0 && (Clean(actions) ==> proceeds == 1)
    {
      ProcessActions(0, Run([], {}, [], 0));
      var i := 0;
      while i < |reports|
        invariant Valid() && run.stack == []
      {
        var k := reports[i];
        if IsRunning(k) {
          UpdateActionStatus(k);
        }
        i := i + 1;
      }
      SchedulerSafety(actions, events);
      PlayKeeps(actions, events);
    }
  }
}
