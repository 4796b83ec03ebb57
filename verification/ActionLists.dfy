/** Blocking types: how one list of node or edge actions is dispatched, and what the end of an action triggers. */
module ActionLists {
  import opened Orders

  // ---------- Decisions on a list ----------

  /** Index of the first HARD action at or after `from`; the length of the list if there is none. */
  function FirstHard(acts: seq<Action>, from: nat): (n: nat)
    requires from <= |acts|
    ensures from <= n <= |acts|
    ensures forall i :: from <= i < n ==> !acts[i].blockingType.Hard?
    ensures n < |acts| ==> acts[n].blockingType.Hard?
    decreases |acts| - from
  {
    if from == |acts| || acts[from].blockingType.Hard? then from else FirstHard(acts, from + 1)
  }

  /** Start of the run of NONE and SOFT actions that ends just before index `to`. */
  function RunStart(acts: seq<Action>, to: nat): (n: nat)
    requires to <= |acts|
    ensures n <= to
    ensures forall i :: n <= i < to ==> !acts[i].blockingType.Hard?
    ensures n > 0 ==> acts[n - 1].blockingType.Hard?
  {
    if to == 0 || acts[to - 1].blockingType.Hard? then to else RunStart(acts, to - 1)
  }

  predicate HasSoft(acts: seq<Action>, from: nat, to: nat)
    requires from <= to <= |acts|
  {
    exists i :: from <= i < to && acts[i].blockingType.Soft?
  }

  /** What the controller does next with a list. */
  datatype Work =
    | Nothing
    | Single(index: nat)                                 // dispatch one HARD action
    | Block(from: nat, stop: nat, stopDriving: bool)     // dispatch NONE and SOFT actions in a loop
    | Proceed                                            // leave the list: process or traverse the next edge

  predicate Fits(acts: seq<Action>, w: Work) {
    match w
    case Single(i) => i < |acts|
    case Block(from, stop, _) => from < stop <= |acts|
    case _ => true
  }

  /** Processing of a list from index `from` on. */
  function Open(acts: seq<Action>, from: nat): (w: Work)
    requires from <= |acts|
    ensures Fits(acts, w)
  {
    var stop := FirstHard(acts, from);
    if stop == from then
      if stop == |acts| then Proceed else Single(stop)
    else
      Block(from, stop, HasSoft(acts, from, stop))
  }

  /**
   All NONE and SOFT actions around action `i` up to the next HARD ones have ended (only the SOFT ones if `softOnly`).
   */
  predicate ParallelEnded(acts: seq<Action>, ended: set<nat>, i: nat, softOnly: bool)
    requires i < |acts|
  {
    forall j ::
      RunStart(acts, i) <= j < FirstHard(acts, i + 1) && j != i && (softOnly ==> acts[j].blockingType.Soft?) ==>
        j in ended
  }

  /** Reaction to the end of action `i`, which is in `ended` already. */
  function Reaction(acts: seq<Action>, ended: set<nat>, i: nat): (w: Work)
    requires i < |acts|
    ensures Fits(acts, w)
  {
    if acts[i].blockingType.Hard? then
      Open(acts, i + 1)
    else
      var hard := FirstHard(acts, i + 1);
      if hard < |acts| then
        if ParallelEnded(acts, ended, i, false) then Single(hard) else Nothing
      else
        if ParallelEnded(acts, ended, i, true) then Proceed else Nothing
  }

  // ---------- One list under every interleaving of endings ----------

  datatype Dispatch = Dispatch(index: nat, stopDriving: bool)

  /** A dispatch loop that still has actions `next..stop` to dispatch once the current adapter call returns. */
  datatype Loop = Loop(next: nat, stop: nat, stopDriving: bool)

  datatype Run = Run(log: seq<Dispatch>, ended: set<nat>, stack: seq<Loop>, proceeds: nat)

  /**
   `Ends(i)` may happen at any time after the dispatch of `i`, inside an adapter call as well; `Returns` ends the
   innermost call.
   */
  datatype Event = Ends(index: nat) | Returns

  predicate IsDispatched(r: Run, i: nat) {
    exists k :: 0 <= k < |r.log| && r.log[k].index == i
  }

  function Iterate(r: Run, loop: Loop): Run {
    r.(log := r.log + [Dispatch(loop.next, loop.stopDriving)],
       stack := if loop.next + 1 < loop.stop then r.stack + [loop.(next := loop.next + 1)] else r.stack)
  }

  function Perform(r: Run, w: Work): Run {
    match w
    case Nothing => r
    case Single(i) => r.(log := r.log + [Dispatch(i, true)])
    case Block(from, stop, stopDriving) => Iterate(r, Loop(from, stop, stopDriving))
    case Proceed => r.(proceeds := r.proceeds + 1)
  }

  function Start(acts: seq<Action>): Run {
    Perform(Run([], {}, [], 0), Open(acts, 0))
  }

  predicate Enabled(acts: seq<Action>, r: Run, e: Event) {
    match e
    case Ends(i) => i < |acts| && IsDispatched(r, i) && i !in r.ended
    case Returns => r.stack != []
  }

  function Step(acts: seq<Action>, r: Run, e: Event): Run
    requires Enabled(acts, r, e)
  {
    match e
    case Ends(i) =>
      var r' := r.(ended := r.ended + {i});
      Perform(r', Reaction(acts, r'.ended, i))
    case Returns =>
      Iterate(r.(stack := r.stack[..|r.stack| - 1]), r.stack[|r.stack| - 1])
  }

  /** The run of a list under a sequence of events, or nothing if an event is not possible. */
  datatype Outcome = Reached(run: Run) | Stuck

  function Play(acts: seq<Action>, events: seq<Event>): Outcome {
    if events == [] then Reached(Start(acts))
    else
      var before := Play(acts, events[..|events| - 1]);
      var e := events[|events| - 1];
      if before.Reached? && Enabled(acts, before.run, e) then Reached(Step(acts, before.run, e)) else Stuck
  }

  // ---------- The invariant ----------

  function Limit(r: Run): nat {
    if r.stack == [] then |r.log| else r.stack[|r.stack| - 1].stop
  }

  /** Start of the part of the list that was opened last: a HARD action or a run of NONE and SOFT actions. */
  function PartStart(acts: seq<Action>, limit: nat): (n: nat)
    requires limit <= |acts|
    ensures n <= limit
  {
    if limit > 0 && acts[limit - 1].blockingType.Hard? then limit - 1 else RunStart(acts, limit)
  }

  predicate Blocking(a: Action) {
    !a.blockingType.NoBlocking?
  }

  /** Index range of the actions after the last HARD one. */
  function TrailingStart(acts: seq<Action>): nat {
    RunStart(acts, |acts|)
  }

  /** The trailing block is empty, a single action, or all SOFT. */
  predicate Clean(acts: seq<Action>) {
    || TrailingStart(acts) + 1 >= |acts|
    || forall i :: TrailingStart(acts) <= i < |acts| ==> acts[i].blockingType.Soft?
  }

  /** Every action dispatched so far has ended. */
  predicate AllEnded(r: Run) {
    forall k :: 0 <= k < |r.log| ==> k in r.ended
  }

  /** The log is a prefix of the list, and at most one dispatch loop is still going on, right behind the log. */
  ghost predicate Shape(acts: seq<Action>, r: Run) {
    var d, limit := |r.log|, Limit(r);
    && d <= limit <= |acts|
    && (forall k :: 0 <= k < d ==> r.log[k].index == k)
    && (forall k :: 0 <= k < d && Blocking(acts[k]) ==> r.log[k].stopDriving)
    && (forall k :: k in r.ended ==> 0 <= k < d)
    && |r.stack| <= 1
    && (r.stack != [] ==> LoopInv(acts, d, r.stack[0]))
    && (acts == [] || limit > 0)
    && (limit < |acts| ==> acts[limit].blockingType.Hard? || acts[limit - 1].blockingType.Hard?)
    && (forall k :: 0 <= k < PartStart(acts, limit) ==> k in r.ended)
  }

  ghost predicate Progress(acts: seq<Action>, r: Run) {
    && (r.proceeds > 0 ==> Limit(r) == |acts| && forall k :: 0 <= k < |acts| && Blocking(acts[k]) ==> k in r.ended)
    && (r.stack == [] && AllEnded(r) ==> |r.log| == |acts| && r.proceeds > 0)
    && (Clean(acts) ==> r.proceeds <= 1)
    && (Clean(acts) && r.proceeds == 1 ==> r.stack == [] && forall k :: 0 <= k < |acts| ==> k in r.ended)
  }

  ghost predicate Inv(acts: seq<Action>, r: Run) {
    Shape(acts, r) && Progress(acts, r)
  }

  ghost predicate LoopInv(acts: seq<Action>, d: nat, loop: Loop) {
    && 0 < d == loop.next < loop.stop <= |acts|
    && (forall k :: d - 1 <= k < loop.stop ==> !acts[k].blockingType.Hard?)
    && (forall k :: d <= k < loop.stop && Blocking(acts[k]) ==> loop.stopDriving)
  }

  // ---------- Every reachable run satisfies the invariant ----------

  lemma {:induction false} OpenKeeps(acts: seq<Action>, r: Run, from: nat)
    requires from <= |acts| && |r.log| == from && r.stack == [] && r.proceeds == 0
    requires from > 0 ==> acts[from - 1].blockingType.Hard?
    requires forall k :: 0 <= k < from ==> r.log[k].index == k && k in r.ended
    requires forall k :: 0 <= k < from && Blocking(acts[k]) ==> r.log[k].stopDriving
    requires forall k :: k in r.ended ==> 0 <= k < from
    ensures Inv(acts, Perform(r, Open(acts, from)))
  {
    if from < |acts| {
      if acts[from].blockingType.Hard? {
        OpenHardKeeps(acts, r, from);
      } else {
        OpenBlockKeeps(acts, r, from);
      }
    }
  }

  lemma {:induction false} OpenHardKeeps(acts: seq<Action>, r: Run, from: nat)
    requires from < |acts| && |r.log| == from && r.stack == [] && r.proceeds == 0 && acts[from].blockingType.Hard?
    requires forall k :: 0 <= k < from ==> r.log[k].index == k && k in r.ended
    requires forall k :: 0 <= k < from && Blocking(acts[k]) ==> r.log[k].stopDriving
    requires forall k :: k in r.ended ==> 0 <= k < from
    ensures Inv(acts, Perform(r, Single(from)))
  {
    var r' := Perform(r, Single(from));
    assert from < |r'.log| && from !in r'.ended;
  }

  lemma {:induction false} OpenBlockKeeps(acts: seq<Action>, r: Run, from: nat)
    requires from < |acts| && |r.log| == from && r.stack == [] && r.proceeds == 0 && !acts[from].blockingType.Hard?
    requires from > 0 ==> acts[from - 1].blockingType.Hard?
    requires forall k :: 0 <= k < from ==> r.log[k].index == k && k in r.ended
    requires forall k :: 0 <= k < from && Blocking(acts[k]) ==> r.log[k].stopDriving
    requires forall k :: k in r.ended ==> 0 <= k < from
    ensures Inv(acts, Perform(r, Open(acts, from)))
  {
    var r', stop := Perform(r, Open(acts, from)), FirstHard(acts, from);
    assert from < |r'.log| && from !in r'.ended;
    RunStartWithin(acts, from, stop);
  }

  /** The part opened last is the run around any unended action that is not HARD. */
  lemma {:induction false} RunAround(acts: seq<Action>, r: Run, i: nat)
    requires Inv(acts, r) && i < |r.log| && i !in r.ended && !acts[i].blockingType.Hard?
    ensures RunStart(acts, i) == PartStart(acts, Limit(r)) == RunStart(acts, Limit(r))
    ensures FirstHard(acts, i + 1) == Limit(r)
  {
    RunStartWithin(acts, i, Limit(r));
  }

  lemma {:induction false} RunStartWithin(acts: seq<Action>, i: nat, to: nat)
    requires to <= |acts| && RunStart(acts, to) <= i <= to
    ensures RunStart(acts, i) == RunStart(acts, to)
  {
    if i < to {
      RunStartWithin(acts, i, to - 1);
    }
  }

  lemma {:induction false} HardEndKeeps(acts: seq<Action>, r: Run, i: nat)
    requires Inv(acts, r) && Enabled(acts, r, Ends(i)) && acts[i].blockingType.Hard?
    ensures Inv(acts, Step(acts, r, Ends(i)))
  {
    OpenKeeps(acts, r.(ended := r.ended + {i}), i + 1);
  }

  lemma {:induction false} ShapeUnderEnd(acts: seq<Action>, r: Run, i: nat)
    requires Shape(acts, r) && i < |r.log|
    ensures Shape(acts, r.(ended := r.ended + {i}))
  {
  }

  /** Nothing happens: some opened action `j` has not ended. */
  lemma {:induction false} NothingKeeps(acts: seq<Action>, r: Run, i: nat, j: nat)
    requires Inv(acts, r) && i < |r.log| && i !in r.ended && j < Limit(r) && j != i && j !in r.ended
    ensures Inv(acts, r.(ended := r.ended + {i}))
  {
    ShapeUnderEnd(acts, r, i);
    assert j < |r.log| || r.stack != [];
  }

  /** The next HARD action is dispatched: everything before it has ended. */
  lemma {:induction false} SingleKeeps(acts: seq<Action>, r: Run)
    requires Shape(acts, r) && r.proceeds == 0 && r.stack == [] && |r.log| < |acts| && acts[|r.log|].blockingType.Hard?
    requires forall k :: 0 <= k < |r.log| ==> k in r.ended
    ensures Inv(acts, Perform(r, Single(|r.log|)))
  {
    var r' := Perform(r, Single(|r.log|));
    assert |r.log| < |r'.log| && |r.log| !in r'.ended;
  }

  /** The list is left: all its SOFT and HARD actions have ended, and all others as well if it is clean. */
  lemma {:induction false} ProceedKeeps(acts: seq<Action>, r: Run, i: nat)
    requires Inv(acts, r) && i < |r.log| && i !in r.ended && Limit(r) == |acts|
    requires forall k :: 0 <= k < |acts| && Blocking(acts[k]) ==> k in r.ended + {i}
    requires Clean(acts) ==> r.stack == [] && forall k :: 0 <= k < |acts| ==> k in r.ended + {i}
    ensures Inv(acts, Perform(r.(ended := r.ended + {i}), Proceed))
  {
    ShapeUnderEnd(acts, r, i);
  }

  lemma {:induction false} InnerEndKeeps(acts: seq<Action>, r: Run, i: nat)
    requires Inv(acts, r) && Enabled(acts, r, Ends(i)) && !acts[i].blockingType.Hard?
    requires FirstHard(acts, i + 1) < |acts|
    ensures Inv(acts, Step(acts, r, Ends(i)))
  {
    RunAround(acts, r, i);
    var r' := r.(ended := r.ended + {i});
    var lo, limit := RunStart(acts, i), Limit(r);
    if ParallelEnded(acts, r'.ended, i, false) {
      ShapeUnderEnd(acts, r, i);
      RunEnded(acts, r', i, lo, limit);
      SingleKeeps(acts, r');
    } else {
      var j :| lo <= j < limit && j != i && j !in r'.ended;
      NothingKeeps(acts, r, i, j);
    }
  }

  lemma {:induction false} RunEnded(acts: seq<Action>, r: Run, i: nat, lo: nat, limit: nat)
    requires Shape(acts, r) && i in r.ended && limit == Limit(r) > 0 && lo == PartStart(acts, limit)
    requires forall j :: lo <= j < limit && j != i ==> j in r.ended
    ensures r.stack == [] && |r.log| == limit && forall k :: 0 <= k < limit ==> k in r.ended
  {
    assert limit - 1 in r.ended;
  }

  lemma {:induction false} TrailingEndKeeps(acts: seq<Action>, r: Run, i: nat)
    requires Inv(acts, r) && Enabled(acts, r, Ends(i)) && !acts[i].blockingType.Hard?
    requires FirstHard(acts, i + 1) == |acts|
    ensures Inv(acts, Step(acts, r, Ends(i)))
  {
    RunAround(acts, r, i);
    var r' := r.(ended := r.ended + {i});
    var lo := RunStart(acts, i);
    if ParallelEnded(acts, r'.ended, i, true) {
      assert forall k :: 0 <= k < |acts| && Blocking(acts[k]) ==> k in r'.ended;
      if Clean(acts) {
        ShapeUnderEnd(acts, r, i);
        assert forall k :: lo <= k < |acts| && k != i ==> k in r'.ended;
        RunEnded(acts, r', i, lo, |acts|);
      }
      ProceedKeeps(acts, r, i);
    } else {
      var j :| lo <= j < |acts| && j != i && acts[j].blockingType.Soft? && j !in r'.ended;
      NothingKeeps(acts, r, i, j);
    }
  }

  lemma {:induction false} EndKeeps(acts: seq<Action>, r: Run, i: nat)
    requires Inv(acts, r) && Enabled(acts, r, Ends(i))
    ensures Inv(acts, Step(acts, r, Ends(i)))
  {
    if acts[i].blockingType.Hard? {
      HardEndKeeps(acts, r, i);
    } else if FirstHard(acts, i + 1) < |acts| {
      InnerEndKeeps(acts, r, i);
    } else {
      TrailingEndKeeps(acts, r, i);
    }
  }

  lemma {:induction false} ReturnKeeps(acts: seq<Action>, r: Run)
    requires Inv(acts, r) && Enabled(acts, r, Returns)
    ensures Inv(acts, Step(acts, r, Returns))
  {
    var r' := Step(acts, r, Returns);
    assert |r.log| < |r'.log| && |r.log| !in r'.ended;
  }

  lemma {:induction false} PlayKeeps(acts: seq<Action>, events: seq<Event>)
    requires Play(acts, events).Reached?
    ensures Inv(acts, Play(acts, events).run)
  {
    if events == [] {
      OpenKeeps(acts, Run([], {}, [], 0), 0);
    } else {
      var before, e := events[..|events| - 1], events[|events| - 1];
      PlayKeeps(acts, before);
      match e
      case Ends(i) => EndKeeps(acts, Play(acts, before).run, i);
      case Returns => ReturnKeeps(acts, Play(acts, before).run);
    }
  }

  // ---------- Which dispatches stop the vehicle ----------

  /** No HARD action at `i`, at `j` or between them. */
  ghost predicate Together(acts: seq<Action>, i: nat, j: nat) {
    forall k :: (i <= k <= j || j <= k <= i) && k < |acts| ==> !acts[k].blockingType.Hard?
  }

  /** Action `k` is SOFT or HARD, or some SOFT action is next to it with no HARD one in between. */
  ghost predicate Stops(acts: seq<Action>, k: nat)
    requires k < |acts|
  {
    || Blocking(acts[k])
    || exists j: nat :: j < |acts| && acts[j].blockingType.Soft? && Together(acts, j, k)
  }

  /** What is left of a dispatch loop stops the vehicle exactly as its actions demand. */
  ghost predicate LoopStops(acts: seq<Action>, loop: Loop) {
    && loop.next < loop.stop <= |acts|
    && forall k :: loop.next <= k < loop.stop ==> (loop.stopDriving <==> Stops(acts, k))
  }

  ghost predicate WorkStops(acts: seq<Action>, w: Work) {
    match w
    case Single(i) => i < |acts| && Stops(acts, i)
    case Block(from, stop, stopDriving) => LoopStops(acts, Loop(from, stop, stopDriving))
    case _ => true
  }

  /** A run of NONE and SOFT actions from behind a HARD one up to the next. */
  lemma {:induction false} RunStops(acts: seq<Action>, from: nat, stop: nat, k: nat)
    requires from <= k < stop <= |acts| && forall i :: from <= i < stop ==> !acts[i].blockingType.Hard?
    requires from > 0 ==> acts[from - 1].blockingType.Hard?
    requires stop < |acts| ==> acts[stop].blockingType.Hard?
    ensures Stops(acts, k) <==> exists i :: from <= i < stop && acts[i].blockingType.Soft?
  {
    if i :| from <= i < stop && acts[i].blockingType.Soft? {
      assert Together(acts, i, k);
    }
    forall j: nat | j < |acts| && Together(acts, j, k)
      ensures from <= j < stop
    {
      assert j < from ==> from - 1 >= j;
    }
  }

  lemma {:induction false} OpenStops(acts: seq<Action>, from: nat)
    requires from <= |acts| && (from > 0 ==> acts[from - 1].blockingType.Hard?)
    ensures WorkStops(acts, Open(acts, from))
  {
    var stop := FirstHard(acts, from);
    forall k | from <= k < stop
      ensures HasSoft(acts, from, stop) <==> Stops(acts, k)
    {
      RunStops(acts, from, stop, k);
    }
  }

  lemma {:induction false} ReactionStops(acts: seq<Action>, ended: set<nat>, i: nat)
    requires i < |acts|
    ensures WorkStops(acts, Reaction(acts, ended, i))
  {
    if acts[i].blockingType.Hard? {
      OpenStops(acts, i + 1);
    }
  }

  /** Everything dispatched so far, and everything the pending loops will dispatch. */
  ghost predicate AllStops(acts: seq<Action>, r: Run) {
    && (forall k :: 0 <= k < |r.log| ==>
          r.log[k].index < |acts| && (r.log[k].stopDriving <==> Stops(acts, r.log[k].index)))
    && (forall k :: 0 <= k < |r.stack| ==> LoopStops(acts, r.stack[k]))
  }

  lemma {:induction false} PerformStops(acts: seq<Action>, r: Run, w: Work)
    requires AllStops(acts, r) && WorkStops(acts, w)
    ensures AllStops(acts, Perform(r, w))
  {
  }

  lemma {:induction false} PlayStops(acts: seq<Action>, events: seq<Event>)
    requires Play(acts, events).Reached?
    ensures AllStops(acts, Play(acts, events).run)
  {
    if events == [] {
      OpenStops(acts, 0);
      PerformStops(acts, Run([], {}, [], 0), Open(acts, 0));
    } else {
      var before, e := events[..|events| - 1], events[|events| - 1];
      PlayStops(acts, before);
      var r := Play(acts, before).run;
      match e
      case Ends(i) =>
        ReactionStops(acts, r.ended + {i}, i);
        PerformStops(acts, r.(ended := r.ended + {i}), Reaction(acts, r.ended + {i}, i));
      case Returns =>
    }
  }

  /** A dispatch stops the vehicle if and only if its action is SOFT or HARD, or runs together with a SOFT one. */
  lemma {:induction false} StopsDrivingIff(acts: seq<Action>, events: seq<Event>, k: nat)
    requires Play(acts, events).Reached? && k < |Play(acts, events).run.log|
    ensures var r := Play(acts, events).run;
      && k < |acts| && r.log[k].index == k
      && (r.log[k].stopDriving <==>
            || acts[k].blockingType.Soft? || acts[k].blockingType.Hard?
            || exists j: nat :: j < |acts| && acts[j].blockingType.Soft? && Together(acts, j, k))
  {
    PlayKeeps(acts, events);
    PlayStops(acts, events);
  }

  // ---------- What this means for a list ----------

  /** Safety, whatever the adapter does and whenever it reports endings. */
  lemma {:induction false} SchedulerSafety(acts: seq<Action>, events: seq<Event>)
    requires Play(acts, events).Reached?
    ensures var r := Play(acts, events).run;
      // dispatched in list order, each at most once
      && |r.log| <= |acts|
      && (forall k :: 0 <= k < |r.log| ==> r.log[k].index == k)
      // a HARD action runs alone
      && (forall i, j ::
            0 <= i < |r.log| && acts[i].blockingType.Hard? && i !in r.ended && 0 <= j < |r.log| && j != i ==>
              j in r.ended)
      // SOFT and HARD actions stop the vehicle, and NONE actions if they run together with a SOFT one
      && (forall k :: 0 <= k < |r.log| ==> (r.log[k].stopDriving <==> Stops(acts, k)))
      // the list is never left before all its SOFT and HARD actions have ended
      && (r.proceeds > 0 ==> forall k :: 0 <= k < |acts| && Blocking(acts[k]) ==> k in r.ended)
  {
    PlayStops(acts, events);
    PlayKeeps(acts, events);
    var r := Play(acts, events).run;
    forall i | 0 <= i < |r.log| && acts[i].blockingType.Hard? && i !in r.ended
      ensures i + 1 == |r.log| && forall j :: 0 <= j < i ==> j in r.ended
    {
      HardIsLast(acts, r, i);
    }
  }

  lemma {:induction false} HardIsLast(acts: seq<Action>, r: Run, i: nat)
    requires Inv(acts, r) && i < |r.log| && acts[i].blockingType.Hard? && i !in r.ended
    ensures i + 1 == |r.log| && forall j :: 0 <= j < i ==> j in r.ended
  {
  }

  /** Nothing more can happen to the list. */
  ghost predicate Dead(acts: seq<Action>, r: Run) {
    forall e :: !Enabled(acts, r, e)
  }

  /** All of the list was dispatched and has ended, and it was left. */
  ghost predicate Served(acts: seq<Action>, r: Run) {
    |r.log| == |acts| && AllEnded(r) && r.proceeds > 0
  }

  lemma {:induction false} DeadIsServed(acts: seq<Action>, r: Run)
    requires Inv(acts, r) && Dead(acts, r)
    ensures Served(acts, r)
  {
    assert !Enabled(acts, r, Returns);
    forall k | 0 <= k < |r.log|
      ensures k in r.ended
    {
      assert r.log[k].index == k;
      assert !Enabled(acts, r, Ends(k));
    }
  }

  /** Progress: as long as the list has not been left something can still happen, and once nothing can, it was left. */
  lemma {:induction false} SchedulerProgress(acts: seq<Action>, events: seq<Event>)
    requires Play(acts, events).Reached?
    ensures var r := Play(acts, events).run;
      && (Dead(acts, r) ==> Served(acts, r))
      && (Dead(acts, r) && Clean(acts) ==> r.proceeds == 1)
  {
    PlayKeeps(acts, events);
    var r := Play(acts, events).run;
    if Dead(acts, r) {
      DeadIsServed(acts, r);
    }
  }

  // ---------- Exactly once: when, and when not ----------

  lemma {:induction false} Extend(acts: seq<Action>, events: seq<Event>, e: Event)
    requires Play(acts, events).Reached? && Enabled(acts, Play(acts, events).run, e)
    ensures Play(acts, events + [e]) == Reached(Step(acts, Play(acts, events).run, e))
  {
    assert (events + [e])[..|events + [e]| - 1] == events;
  }

  lemma {:induction false} StepEffect(acts: seq<Action>, r: Run, e: Event)
    requires Enabled(acts, r, e)
    ensures |r.log| <= |Step(acts, r, e).log|
    ensures e == Returns ==> Step(acts, r, e).ended == r.ended && |r.log| < |Step(acts, r, e).log|
    ensures e.Ends? ==> Step(acts, r, e).ended == r.ended + {e.index} && |Step(acts, r, e).ended| == |r.ended| + 1
  {
  }

  /** Everything is dispatched, and exactly the actions up to `t` have ended. */
  ghost predicate AtTrailing(acts: seq<Action>, r: Run, t: nat) {
    && |r.log| == |acts| && r.stack == []
    && (forall k :: k in r.ended <==> 0 <= k < t)
  }

  lemma {:induction false} ReachTrailing(acts: seq<Action>, events: seq<Event>) returns (all: seq<Event>)
    requires TrailingStart(acts) < |acts| && Play(acts, events).Reached?
    requires forall k :: k in Play(acts, events).run.ended ==> k < TrailingStart(acts)
    ensures Play(acts, all).Reached? && AtTrailing(acts, Play(acts, all).run, TrailingStart(acts))
    decreases |acts| - |Play(acts, events).run.log|, TrailingStart(acts) - |Play(acts, events).run.ended|
  {
    var r, t := Play(acts, events).run, TrailingStart(acts);
    PlayKeeps(acts, events);
    if AtTrailing(acts, r, t) {
      all := events;
    } else {
      var e := TowardsTrailing(acts, r);
      Extend(acts, events, e);
      StepEffect(acts, r, e);
      PlayKeeps(acts, events + [e]);
      EndedBound(r.ended + (if e.Ends? then {e.index} else {}), t);
      all := ReachTrailing(acts, events + [e]);
    }
  }

  /** Before the trailing block is reached, a loop goes on or an earlier action is still running. */
  lemma {:induction false} TowardsTrailing(acts: seq<Action>, r: Run) returns (e: Event)
    requires TrailingStart(acts) < |acts| && Inv(acts, r) && !AtTrailing(acts, r, TrailingStart(acts))
    requires forall k :: k in r.ended ==> k < TrailingStart(acts)
    ensures Enabled(acts, r, e) && (e.Ends? ==> e.index < TrailingStart(acts))
  {
    var t := TrailingStart(acts);
    if r.stack != [] {
      e := Returns;
    } else if k: nat :| k < t && k < |r.log| && k !in r.ended {
      assert r.log[k].index == k;
      e := Ends(k);
    } else {
      assert |r.log| <= t ==> AllEnded(r);
      OpenedTrailing(acts, r);
      assert false;
    }
  }

  lemma {:induction false} OpenedTrailing(acts: seq<Action>, r: Run)
    requires Inv(acts, r) && r.stack == [] && TrailingStart(acts) < |r.log|
    ensures |r.log| == |acts|
  {
  }

  lemma {:induction false} EndedBound(s: set<nat>, t: nat)
    requires forall k :: k in s ==> k < t
    ensures |s| <= t
  {
    if t > 0 {
      EndedBound(s - {t - 1}, t - 1);
    } else {
      assert s == {};
    }
  }

  /** The indices below `upto` without `n`. */
  function BelowBut(upto: nat, n: nat): (s: set<nat>)
    ensures forall k: nat :: k in s <==> k < upto && k != n
  {
    if upto == 0 then {} else BelowBut(upto - 1, n) + (if upto - 1 == n then {} else {upto - 1})
  }

  ghost predicate AllBut(acts: seq<Action>, r: Run, n: nat, upto: nat) {
    && |r.log| == |acts| && r.stack == []
    && r.ended == BelowBut(upto, n)
  }

  /** From there, all actions below `upto` but `n` can end one after the other. */
  lemma {:induction false} EndAllBut(acts: seq<Action>, events: seq<Event>, r: Run, n: nat, upto: nat)
    returns (all: seq<Event>, r': Run)
    requires TrailingStart(acts) <= upto <= |acts| && TrailingStart(acts) <= n < |acts|
    requires Play(acts, events) == Reached(r) && AtTrailing(acts, r, TrailingStart(acts))
    ensures Play(acts, all) == Reached(r') && Inv(acts, r') && AllBut(acts, r', n, upto)
    decreases upto
  {
    if upto == TrailingStart(acts) {
      all, r' := events, r;
      NoneBut(acts, events, r, n);
    } else {
      var before, r0 := EndAllBut(acts, events, r, n, upto - 1);
      all, r' := EndNext(acts, before, r0, n, upto - 1);
    }
  }

  lemma {:induction false} NoneBut(acts: seq<Action>, events: seq<Event>, r: Run, n: nat)
    requires TrailingStart(acts) <= n < |acts|
    requires Play(acts, events) == Reached(r) && AtTrailing(acts, r, TrailingStart(acts))
    ensures Inv(acts, r) && AllBut(acts, r, n, TrailingStart(acts))
  {
    PlayKeeps(acts, events);
    assert r.ended == BelowBut(TrailingStart(acts), n);
  }

  lemma {:induction false} EndNext(acts: seq<Action>, events: seq<Event>, r: Run, n: nat, i: nat)
    returns (all: seq<Event>, r': Run)
    requires TrailingStart(acts) <= i < |acts| && Play(acts, events) == Reached(r)
    requires Inv(acts, r) && AllBut(acts, r, n, i)
    ensures Play(acts, all) == Reached(r') && Inv(acts, r') && AllBut(acts, r', n, i + 1)
  {
    if i == n {
      all, r' := events, r;
    } else {
      assert i !in r.ended;
      all, r' := EndTrailing(acts, events, r, i);
    }
  }

  lemma {:induction false} EndTrailing(acts: seq<Action>, events: seq<Event>, r: Run, i: nat)
    returns (all: seq<Event>, r': Run)
    requires TrailingStart(acts) <= i < |acts| && Play(acts, events) == Reached(r)
    requires Inv(acts, r) && |r.log| == |acts| && r.stack == [] && i !in r.ended
    ensures Play(acts, all) == Reached(r') && Inv(acts, r')
    ensures r'.log == r.log && r'.stack == [] && r'.ended == r.ended + {i} && r.proceeds <= r'.proceeds
    ensures (forall j :: TrailingStart(acts) <= j < |acts| && acts[j].blockingType.Soft? ==> j in r'.ended) ==>
      r'.proceeds == r.proceeds + 1
  {
    assert r.log[i].index == i;
    all := events + [Ends(i)];
    Extend(acts, events, Ends(i));
    EndKeeps(acts, r, i);
    r' := Step(acts, r, Ends(i));
    TrailingEnd(acts, r, i);
  }

  /** In the trailing block the end of an action leads to nothing, or the list is left. */
  lemma {:induction false} TrailingEnd(acts: seq<Action>, r: Run, i: nat)
    requires TrailingStart(acts) <= i < |acts| && Inv(acts, r) && |r.log| == |acts| && i !in r.ended
    ensures var w := Reaction(acts, r.ended + {i}, i);
      && (w.Nothing? || w.Proceed?)
      && ((forall j :: TrailingStart(acts) <= j < |acts| && acts[j].blockingType.Soft? ==> j in r.ended + {i}) ==>
            w.Proceed?)
  {
    RunAround(acts, r, i);
  }

  /** The following step is triggered at most once in every run exactly when the list is clean. */
  lemma {:induction false} ProceedsOnceIffClean(acts: seq<Action>)
    ensures Clean(acts) <==> forall events :: Play(acts, events).Reached? ==> Play(acts, events).run.proceeds <= 1
  {
    if Clean(acts) {
      forall events | Play(acts, events).Reached?
        ensures Play(acts, events).run.proceeds <= 1
      {
        PlayKeeps(acts, events);
      }
    } else {
      var events := ProceedsTwice(acts);
    }
  }

  lemma {:induction false} ProceedsTwice(acts: seq<Action>) returns (events: seq<Event>)
    requires !Clean(acts)
    ensures Play(acts, events).Reached? && Play(acts, events).run.proceeds >= 2
  {
    var n: nat :| TrailingStart(acts) <= n < |acts| && !acts[n].blockingType.Soft?;
    var last := if n == |acts| - 1 then n - 1 else |acts| - 1;
    assert Play(acts, []).Reached?;
    var e0 := ReachTrailing(acts, []);
    var e1, r1 := EndAllBut(acts, e0, Play(acts, e0).run, n, last);
    assert last !in r1.ended && n !in r1.ended;
    var e2, r2 := EndTrailing(acts, e1, r1, last);
    SoftEnded(acts, r1, r2, n, last);
    var r3;
    events, r3 := EndTrailing(acts, e2, r2, n);
  }

  lemma {:induction false} SoftEnded(acts: seq<Action>, r1: Run, r2: Run, n: nat, last: nat)
    requires TrailingStart(acts) <= n < |acts| && !acts[n].blockingType.Soft? && last < |acts|
    requires last == |acts| - 1 || (n == |acts| - 1 && last == |acts| - 2)
    requires AllBut(acts, r1, n, last) && r2.ended == r1.ended + {last}
    ensures forall j :: 0 <= j < |acts| && acts[j].blockingType.Soft? ==> j in r2.ended
  {
  }

  // ---------- Actions appended to a list under way ----------

  /**
   Something that has not ended still leads to the appended actions: a HARD action, or any if they start with a HARD
   one.
   */
  predicate Joins(acts: seq<Action>, ended: set<nat>, added: seq<Action>) {
    || added == []
    || (exists i :: 0 <= i < |acts| && acts[i].blockingType.Hard? && i !in ended)
    || (added[0].blockingType.Hard? && exists i :: 0 <= i < |acts| && i !in ended)
  }

  /** A list under way between two calls into the adapter. */
  ghost predicate UnderWay(acts: seq<Action>, r: Run) {
    Inv(acts, r) && r.stack == [] && r.proceeds == 0
  }

  lemma {:induction false} RunStartAppended(acts: seq<Action>, added: seq<Action>, to: nat)
    requires to <= |acts|
    ensures RunStart(acts + added, to) == RunStart(acts, to)
  {
    if to > 0 && !acts[to - 1].blockingType.Hard? {
      RunStartAppended(acts, added, to - 1);
    }
  }

  /** Where the list has got to, seen from the longer list. */
  lemma {:induction false} ShapeAppended(acts: seq<Action>, added: seq<Action>, r: Run)
    requires UnderWay(acts, r)
    ensures Inv(acts + added, r) <==>
      (|r.log| < |acts + added| ==> (acts + added)[|r.log|].blockingType.Hard? || acts[|r.log| - 1].blockingType.Hard?)
  {
    var all := acts + added;
    RunStartAppended(acts, added, |r.log|);
    assert PartStart(all, |r.log|) == PartStart(acts, |r.log|);
    assert forall k :: 0 <= k < |acts| ==> all[k] == acts[k];
    var i: nat :| i < |r.log| && i !in r.ended;
  }

  /** A list of which all is dispatched and whose HARD actions have ended is in its trailing block. */
  lemma {:induction false} HardPending(acts: seq<Action>, r: Run)
    requires UnderWay(acts, r)
    ensures (exists i :: 0 <= i < |acts| && acts[i].blockingType.Hard? && i !in r.ended)
       <==> |r.log| < |acts| || acts[|acts| - 1].blockingType.Hard?
  {
    var u: nat :| u < |r.log| && u !in r.ended;
    var d := |r.log|;
    if d < |acts| {
      if !acts[d].blockingType.Hard? {
        assert PartStart(acts, d) == d - 1 == u;
      }
    } else if acts[d - 1].blockingType.Hard? {
      assert PartStart(acts, d) == d - 1 == u;
    }
  }

  /** The longer list is in order exactly if the appended actions can still be reached. */
  lemma {:induction false} AppendKeepsIff(acts: seq<Action>, added: seq<Action>, r: Run)
    requires UnderWay(acts, r)
    ensures Inv(acts + added, r) <==> Joins(acts, r.ended, added)
  {
    var u: nat :| u < |r.log| && u !in r.ended;
    ShapeAppended(acts, added, r);
    HardPending(acts, r);
    var all := acts + added;
    if |r.log| < |acts| {
      assert all[|r.log|] == acts[|r.log|];
    } else if added != [] {
      assert all[|r.log|] == added[0];
    }
  }

  /** All before `n` was dispatched, and none of it that goes on has a HARD action between itself and `n`. */
  ghost predicate Overlooks(acts: seq<Action>, r: Run, n: nat) {
    && n < |acts| && |r.log| == n && r.stack == []
    && (forall k :: 0 <= k < n ==> r.log[k].index == k)
    && (forall i :: i in r.ended ==> i < n)
    && (forall i, j :: 0 <= i < n && i !in r.ended && i <= j <= n ==> !acts[j].blockingType.Hard?)
  }

  /** The end of an action is no reason to go on to an undispatched one that is not HARD. */
  lemma {:induction false} ReactionOverlooks(acts: seq<Action>, ended: set<nat>, i: nat, n: nat)
    requires i < n < |acts| && n !in ended && forall j :: i <= j <= n ==> !acts[j].blockingType.Hard?
    ensures Reaction(acts, ended, i).Nothing? || Reaction(acts, ended, i).Proceed?
    ensures (exists j :: n <= j < |acts| && Blocking(acts[j])) && (forall j :: n <= j ==> j !in ended) ==>
      Reaction(acts, ended, i).Nothing?
  {
    var hard := FirstHard(acts, i + 1);
    assert RunStart(acts, i) <= n < hard;
    if hard < |acts| {
      assert !ParallelEnded(acts, ended, i, false);
    } else if j :| n <= j < |acts| && Blocking(acts[j]) && j !in ended {
      assert !ParallelEnded(acts, ended, i, true);
    }
  }

  lemma {:induction false} OverlooksStep(acts: seq<Action>, r: Run, n: nat, e: Event)
    requires Overlooks(acts, r, n) && Enabled(acts, r, e)
    ensures Overlooks(acts, Step(acts, r, e), n) && Step(acts, r, e).log == r.log
    ensures e.Ends? && e.index < n && Step(acts, r, e).ended == r.ended + {e.index}
  {
    ReactionOverlooks(acts, r.ended + {e.index}, e.index, n);
  }

  /** The run of a list from `r` on. */
  function Continue(acts: seq<Action>, r: Run, events: seq<Event>): Outcome {
    if events == [] then Reached(r)
    else
      var before := Continue(acts, r, events[..|events| - 1]);
      var e := events[|events| - 1];
      if before.Reached? && Enabled(acts, before.run, e) then Reached(Step(acts, before.run, e)) else Stuck
  }

  lemma {:induction false} ContinueKeeps(acts: seq<Action>, r: Run, events: seq<Event>)
    requires Inv(acts, r) && Continue(acts, r, events).Reached?
    ensures Inv(acts, Continue(acts, r, events).run)
  {
    if events != [] {
      var before, e := events[..|events| - 1], events[|events| - 1];
      ContinueKeeps(acts, r, before);
      match e
      case Ends(i) => EndKeeps(acts, Continue(acts, r, before).run, i);
      case Returns => ReturnKeeps(acts, Continue(acts, r, before).run);
    }
  }

  lemma {:induction false} ContinueOverlooks(acts: seq<Action>, r: Run, n: nat, events: seq<Event>)
    requires Overlooks(acts, r, n) && Continue(acts, r, events).Reached?
    ensures Overlooks(acts, Continue(acts, r, events).run, n) && Continue(acts, r, events).run.log == r.log
  {
    if events != [] {
      var before, e := events[..|events| - 1], events[|events| - 1];
      ContinueOverlooks(acts, r, n, before);
      OverlooksStep(acts, Continue(acts, r, before).run, n, e);
    }
  }

  /** What goes on can end, and then nothing more happens although action `n` was never dispatched. */
  lemma {:induction false} EndOverlooking(acts: seq<Action>, r: Run, n: nat, events: seq<Event>)
    returns (all: seq<Event>)
    requires Overlooks(acts, r, n) && Continue(acts, r, events).Reached?
    ensures Continue(acts, r, all).Reached? && Dead(acts, Continue(acts, r, all).run)
    decreases n - |Continue(acts, r, events).run.ended|
  {
    ContinueOverlooks(acts, r, n, events);
    var r' := Continue(acts, r, events).run;
    if e :| Enabled(acts, r', e) {
      OverlooksStep(acts, r', n, e);
      assert (events + [e])[..|events + [e]| - 1] == events;
      EndedBound(r'.ended + {e.index}, n);
      StepEffect(acts, r', e);
      all := EndOverlooking(acts, r, n, events + [e]);
    } else {
      all := events;
    }
  }

  /** In a list that cannot go on to the appended actions, they are overlooked. */
  lemma {:induction false} OverlooksUnlessJoins(acts: seq<Action>, added: seq<Action>, r: Run)
    requires UnderWay(acts, r) && !Joins(acts, r.ended, added)
    ensures Overlooks(acts + added, r, |acts|)
  {
    HardPending(acts, r);
    var all := acts + added;
    assert all[|acts|] == added[0];
    forall i, j | 0 <= i < |acts| && i !in r.ended && i <= j <= |acts|
      ensures !all[j].blockingType.Hard?
    {
      RunAround(acts, r, i);
    }
  }

  /**
   Actions appended to a list under way are executed, whatever happens, if and only if the list still goes on to them.
   */
  lemma {:induction false} AppendedServedIff(acts: seq<Action>, added: seq<Action>, r: Run)
    requires UnderWay(acts, r)
    ensures var all := acts + added;
      Joins(acts, r.ended, added) <==>
      forall events :: Continue(all, r, events).Reached? && Dead(all, Continue(all, r, events).run)
        ==> Served(all, Continue(all, r, events).run)
    ensures !Joins(acts, r.ended, added) ==>
      forall events :: Continue(acts + added, r, events).Reached? ==> Continue(acts + added, r, events).run.log == r.log
  {
    var all := acts + added;
    if Joins(acts, r.ended, added) {
      AppendKeepsIff(acts, added, r);
      forall events | Continue(all, r, events).Reached? && Dead(all, Continue(all, r, events).run)
        ensures Served(all, Continue(all, r, events).run)
      {
        ContinueKeeps(all, r, events);
        DeadIsServed(all, Continue(all, r, events).run);
      }
    } else {
      OverlooksUnlessJoins(acts, added, r);
      forall events | Continue(all, r, events).Reached?
        ensures Continue(all, r, events).run.log == r.log && |r.log| < |all|
      {
        ContinueOverlooks(all, r, |acts|, events);
      }
      assert Continue(all, r, []).Reached?;
      var events := EndOverlooking(all, r, |acts|, []);
    }
  }
}
