/**
 The estimated execution time of an order: its action part, compared with the times at which the blocking types let
 the controller start and complete the actions of a list when each takes its duration.
 */
module Estimator {
  import opened Orders
  import opened ActionLists

  function Max(a: real, b: real): real {
    if a < b then b else a
  }

  predicate NonNegative(acts: seq<Action>, dur: Action -> real) {
    forall i :: 0 <= i < |acts| ==> dur(acts[i]) >= 0.0
  }

  function MaxDur(acts: seq<Action>, dur: Action -> real, lo: nat, hi: nat): real
    requires lo <= hi <= |acts|
    decreases hi - lo
  {
    if lo == hi then 0.0 else Max(MaxDur(acts, dur, lo, hi - 1), dur(acts[hi - 1]))
  }

  // ---------- The schedule ----------

  /**
   When the run of NONE and SOFT actions that ends before index `n` starts: at the end of the HARD action before it.
   */
  function Opening(acts: seq<Action>, dur: Action -> real, n: nat): real
    requires n <= |acts|
    decreases n
  {
    var s := RunStart(acts, n);
    if s == 0 then 0.0
    else
      Opening(acts, dur, s - 1) + MaxDur(acts, dur, RunStart(acts, s - 1), s - 1) + dur(acts[s - 1])
  }

  /** A NONE or SOFT action starts with its run, a HARD one when all of the run before it have ended. */
  function StartTime(acts: seq<Action>, dur: Action -> real, i: nat): real
    requires i < |acts|
  {
    Opening(acts, dur, i) + (if acts[i].blockingType.Hard? then MaxDur(acts, dur, RunStart(acts, i), i) else 0.0)
  }

  function EndTime(acts: seq<Action>, dur: Action -> real, i: nat): real
    requires i < |acts|
  {
    StartTime(acts, dur, i) + dur(acts[i])
  }

  /** The time at which the last of the first `n` actions ends. */
  function Makespan(acts: seq<Action>, dur: Action -> real, n: nat): real
    requires n <= |acts|
  {
    if n == 0 then 0.0 else Max(Makespan(acts, dur, n - 1), EndTime(acts, dur, n - 1))
  }

  /** A HARD action ends a run. */
  lemma {:induction false} BehindHard(acts: seq<Action>, dur: Action -> real, n: nat)
    requires n < |acts| && acts[n].blockingType.Hard?
    ensures RunStart(acts, n + 1) == n + 1
    ensures Opening(acts, dur, n + 1) == Opening(acts, dur, n) + MaxDur(acts, dur, RunStart(acts, n), n) + dur(acts[n])
  {
  }

  /** Any other action extends one. */
  lemma {:induction false} BehindParallel(acts: seq<Action>, dur: Action -> real, n: nat)
    requires n < |acts| && !acts[n].blockingType.Hard?
    ensures RunStart(acts, n + 1) == RunStart(acts, n) && Opening(acts, dur, n + 1) == Opening(acts, dur, n)
    ensures MaxDur(acts, dur, RunStart(acts, n), n + 1) == Max(MaxDur(acts, dur, RunStart(acts, n), n), dur(acts[n]))
  {
  }

  // ---------- The estimate ----------

  function Estimate(lists: seq<seq<Action>>, dur: Action -> real): real {
    if lists == [] then 0.0
    else
      var list := lists[|lists| - 1];
      Estimate(lists[..|lists| - 1], dur) + Opening(list, dur, |list|)
  }

  /** The action part of the estimated time: it adds up, list by list, the times at which the trailing blocks start. */
  method EffectiveActionDuration(lists: seq<seq<Action>>, dur: Action -> real) returns (duration: real)
    ensures duration == Estimate(lists, dur)
  {
    duration := 0.0;
    var k := 0;
    while k < |lists|
      invariant 0 <= k <= |lists|
      invariant duration == Estimate(lists[..k], dur)
    {
      duration := AddListDuration(lists[k], dur, duration);
      assert lists[..k + 1][..k] == lists[..k];
      k := k + 1;
    }
    assert lists[..k] == lists;
  }

  /** One list: the maximum of a run is added once a HARD action ends the run. */
  method AddListDuration(acts: seq<Action>, dur: Action -> real, before: real) returns (duration: real)
    ensures duration == before + Opening(acts, dur, |acts|)
  {
    duration := before;
    var nonHardMaxDuration := 0.0;
    var i := 0;
    while i < |acts|
      invariant 0 <= i <= |acts|
      invariant duration == before + Opening(acts, dur, i)
      invariant nonHardMaxDuration == MaxDur(acts, dur, RunStart(acts, i), i)
    {
      if acts[i].blockingType.Hard? {
        BehindHard(acts, dur, i);
        duration := duration + nonHardMaxDuration;
        duration := duration + dur(acts[i]);
        nonHardMaxDuration := 0.0;
      } else {
        BehindParallel(acts, dur, i);
        nonHardMaxDuration := Max(nonHardMaxDuration, dur(acts[i]));
      }
      i := i + 1;
    }
  }

  // ---------- The estimate and the schedule ----------

  lemma {:induction false} MaxDurNonNegative(acts: seq<Action>, dur: Action -> real, lo: nat, hi: nat)
    requires lo <= hi <= |acts|
    ensures MaxDur(acts, dur, lo, hi) >= 0.0
    ensures forall i :: lo <= i < hi ==> dur(acts[i]) <= MaxDur(acts, dur, lo, hi)
    decreases hi - lo
  {
    if lo < hi {
      MaxDurNonNegative(acts, dur, lo, hi - 1);
    }
  }

  /** The list is complete when its trailing block is. */
  lemma {:induction false} MakespanIs(acts: seq<Action>, dur: Action -> real, n: nat)
    requires n <= |acts| && NonNegative(acts, dur)
    ensures Makespan(acts, dur, n) == Opening(acts, dur, n) + MaxDur(acts, dur, RunStart(acts, n), n)
  {
    if n > 0 {
      MakespanIs(acts, dur, n - 1);
      if acts[n - 1].blockingType.Hard? {
        BehindHard(acts, dur, n - 1);
        MaxDurNonNegative(acts, dur, RunStart(acts, n - 1), n - 1);
      } else {
        BehindParallel(acts, dur, n - 1);
      }
    }
  }

  /**
   What the estimate counts for a list is its makespan if and only if the actions after the last HARD one take no
   time, as is the case for lists that are empty or end with a HARD action.
   */
  lemma {:induction false} EstimateIsMakespanIff(acts: seq<Action>, dur: Action -> real)
    requires NonNegative(acts, dur)
    ensures Estimate([acts], dur) == Makespan(acts, dur, |acts|) <==> forall i :: TrailingStart(acts) <= i < |acts| ==>
      dur(acts[i]) == 0.0
    ensures acts == [] || acts[|acts| - 1].blockingType.Hard? ==> Estimate([acts], dur) == Makespan(acts, dur, |acts|)
  {
    MakespanIs(acts, dur, |acts|);
    assert [acts][..0] == [];
    assert Estimate([], dur) == 0.0;
    assert Estimate([acts], dur) == Opening(acts, dur, |acts|);
    MaxDurNonNegative(acts, dur, TrailingStart(acts), |acts|);
    if forall i :: TrailingStart(acts) <= i < |acts| ==> dur(acts[i]) == 0.0 {
      NoTime(acts, dur, TrailingStart(acts), |acts|);
    }
  }

  lemma {:induction false} NoTime(acts: seq<Action>, dur: Action -> real, lo: nat, hi: nat)
    requires lo <= hi <= |acts| && forall i :: lo <= i < hi ==> dur(acts[i]) == 0.0
    ensures MaxDur(acts, dur, lo, hi) == 0.0
    decreases hi - lo
  {
    if lo < hi {
      NoTime(acts, dur, lo, hi - 1);
    }
  }

  // ---------- The schedule and the scheduler ----------

  /** A run of the list with a clock, and the time of each dispatch. */
  datatype TimedRun = TimedRun(run: Run, clock: real, at: seq<real>)

  function Stamp(at: seq<real>, t: real, n: nat): (r: seq<real>)
    ensures |at| <= n ==> |r| == n
    ensures forall k :: 0 <= k < |r| ==> r[k] == if k < |at| then at[k] else t
    decreases n - |at|
  {
    if n <= |at| then at else Stamp(at + [t], t, n)
  }

  function TimedStart(acts: seq<Action>): TimedRun {
    TimedRun(Start(acts), 0.0, Stamp([], 0.0, |Start(acts).log|))
  }

  /** Each action ends when it has taken its duration, and adapter calls return at once. */
  predicate Punctual(acts: seq<Action>, dur: Action -> real, x: TimedRun, e: Event, t: real) {
    && Enabled(acts, x.run, e) && t >= x.clock
    && (x.run.stack != [] ==> t == x.clock)
    && (e.Ends? ==> e.index < |x.at| && t == x.at[e.index] + dur(acts[e.index]))
  }

  function TimedStep(acts: seq<Action>, x: TimedRun, e: Event, t: real): TimedRun
    requires Enabled(acts, x.run, e)
  {
    var r := Step(acts, x.run, e);
    TimedRun(r, t, Stamp(x.at, t, |r.log|))
  }

  /** The opening time only depends on where the run starts. */
  lemma {:induction false} SameRun(acts: seq<Action>, dur: Action -> real, i: nat, n: nat)
    requires i <= n <= |acts| && RunStart(acts, n) <= i
    ensures RunStart(acts, i) == RunStart(acts, n) && Opening(acts, dur, i) == Opening(acts, dur, n)
  {
    RunStartWithin(acts, i, n);
  }

  lemma {:induction false} MaxDurIs(acts: seq<Action>, dur: Action -> real, lo: nat, hi: nat, i: nat)
    requires lo <= i < hi <= |acts| && dur(acts[i]) >= 0.0
    requires forall k :: lo <= k < hi ==> dur(acts[k]) <= dur(acts[i])
    ensures MaxDur(acts, dur, lo, hi) == dur(acts[i])
    decreases hi - lo
  {
    if i == hi - 1 {
      MaxDurAtMost(acts, dur, lo, hi - 1, dur(acts[i]));
    } else {
      MaxDurIs(acts, dur, lo, hi - 1, i);
    }
  }

  lemma {:induction false} MaxDurAtMost(acts: seq<Action>, dur: Action -> real, lo: nat, hi: nat, m: real)
    requires lo <= hi <= |acts| && m >= 0.0 && forall k :: lo <= k < hi ==> dur(acts[k]) <= m
    ensures MaxDur(acts, dur, lo, hi) <= m
    decreases hi - lo
  {
    if lo < hi {
      MaxDurAtMost(acts, dur, lo, hi - 1, m);
    }
  }

  /** What is to be opened behind a HARD action, or at the very start, is opened on schedule. */
  lemma {:induction false} OpenOnSchedule(acts: seq<Action>, dur: Action -> real, r: Run, at: seq<real>, t: real,
                                          i: nat)
    requires i <= |acts| && |r.log| == |at| == i && r.stack == [] && RunStart(acts, i) == i
      && t == Opening(acts, dur, i)
    ensures var r' := Perform(r, Open(acts, i));
      && r'.ended == r.ended
      && i <= |r'.log| <= i + 1 && |r'.log| <= |acts|
      && (|r'.log| == i + 1 ==> StartTime(acts, dur, i) == t)
      && (r'.stack != [] ==> t == Opening(acts, dur, |r'.log|))
  {
    if i < |acts| {
      assert RunStart(acts, i + 1) == if acts[i].blockingType.Hard? then i + 1 else i;
    }
  }

  /** The part of the invariant that does not follow from that of the scheduler. */
  ghost predicate Timely(acts: seq<Action>, dur: Action -> real, r: Run, clock: real, at: seq<real>) {
    && |at| == |r.log| <= |acts|
    && (forall k :: 0 <= k < |at| ==> at[k] == StartTime(acts, dur, k) <= clock)
    && (forall k :: k in r.ended ==> k < |acts| && EndTime(acts, dur, k) <= clock)
    && (r.stack != [] ==> clock == Opening(acts, dur, |at|))
  }

  /** A step that dispatches at most one action, on schedule. */
  lemma {:induction false} StampTimely(acts: seq<Action>, dur: Action -> real, r: Run, clock: real, at: seq<real>,
                                       r': Run, t: real)
    requires Timely(acts, dur, r, clock, at) && t >= clock
    requires |r.log| <= |r'.log| <= |r.log| + 1 && |r'.log| <= |acts|
    requires forall k :: k in r'.ended && k !in r.ended ==> k < |acts| && EndTime(acts, dur, k) == t
    requires |r'.log| == |r.log| + 1 ==> StartTime(acts, dur, |r.log|) == t
    requires r'.stack != [] ==> t == Opening(acts, dur, |r'.log|)
    ensures Timely(acts, dur, r', t, Stamp(at, t, |r'.log|))
  {
  }

  /** What the end of action `i` leads to, but for the dispatch of a HARD action behind a run. */
  lemma {:induction false} HardEndTimely(acts: seq<Action>, dur: Action -> real, r: Run, clock: real, at: seq<real>,
                                         i: nat, t: real)
    requires Inv(acts, r) && Timely(acts, dur, r, clock, at) && Enabled(acts, r, Ends(i)) && acts[i].blockingType.Hard?
    requires t == EndTime(acts, dur, i) >= clock
    ensures var r' := Step(acts, r, Ends(i)); Timely(acts, dur, r', t, Stamp(at, t, |r'.log|))
  {
    HardIsLast(acts, r, i);
    assert RunStart(acts, i + 1) == i + 1;
    assert Opening(acts, dur, i + 1) == t;
    OpenOnSchedule(acts, dur, r.(ended := r.ended + {i}), at, t, i + 1);
    StampTimely(acts, dur, r, clock, at, Step(acts, r, Ends(i)), t);
  }

  /** The HARD action behind a run starts when the last of the run ends. */
  lemma {:induction false} HardStarts(acts: seq<Action>, dur: Action -> real, i: nat, hard: nat, t: real)
    requires NonNegative(acts, dur) && i < hard < |acts| && acts[hard].blockingType.Hard? && RunStart(acts, hard) <= i
    requires EndTime(acts, dur, i) == t
    requires forall k :: RunStart(acts, hard) <= k < hard ==> EndTime(acts, dur, k) <= t
    ensures StartTime(acts, dur, hard) == t
  {
    var lo := RunStart(acts, hard);
    SameRun(acts, dur, i, hard);
    forall k | lo <= k < hard
      ensures dur(acts[k]) <= dur(acts[i])
    {
      SameRun(acts, dur, k, hard);
      assert EndTime(acts, dur, k) == Opening(acts, dur, hard) + dur(acts[k]);
    }
    MaxDurIs(acts, dur, lo, hard, i);
  }

  lemma {:induction false} InnerEndTimely(acts: seq<Action>, dur: Action -> real, r: Run, clock: real, at: seq<real>,
                                          i: nat, t: real)
    requires NonNegative(acts, dur)
    requires Inv(acts, r) && Timely(acts, dur, r, clock, at) && Enabled(acts, r, Ends(i)) && !acts[i].blockingType.Hard?
    requires t == EndTime(acts, dur, i) >= clock && (r.stack != [] ==> t == clock) && FirstHard(acts, i + 1) < |acts|
    ensures var r' := Step(acts, r, Ends(i)); Timely(acts, dur, r', t, Stamp(at, t, |r'.log|))
  {
    var hard := FirstHard(acts, i + 1);
    var r1 := r.(ended := r.ended + {i});
    if ParallelEnded(acts, r1.ended, i, false) {
      RunAround(acts, r, i);
      ShapeUnderEnd(acts, r, i);
      RunEnded(acts, r1, i, RunStart(acts, i), hard);
      HardStarts(acts, dur, i, hard, t);
      StampTimely(acts, dur, r, clock, at, Perform(r1, Single(hard)), t);
    } else {
      StampTimely(acts, dur, r, clock, at, r1, t);
    }
  }

  lemma {:induction false} TrailingEndTimely(acts: seq<Action>, dur: Action -> real, r: Run, clock: real,
                                             at: seq<real>, i: nat, t: real)
    requires Timely(acts, dur, r, clock, at) && Enabled(acts, r, Ends(i)) && !acts[i].blockingType.Hard?
    requires t == EndTime(acts, dur, i) >= clock && (r.stack != [] ==> t == clock) && FirstHard(acts, i + 1) == |acts|
    ensures var r' := Step(acts, r, Ends(i)); Timely(acts, dur, r', t, Stamp(at, t, |r'.log|))
  {
    StampTimely(acts, dur, r, clock, at, Step(acts, r, Ends(i)), t);
  }

  lemma {:induction false} ReturnTimely(acts: seq<Action>, dur: Action -> real, r: Run, clock: real, at: seq<real>)
    requires Inv(acts, r) && Timely(acts, dur, r, clock, at) && r.stack != []
    ensures var r' := Step(acts, r, Returns); Timely(acts, dur, r', clock, Stamp(at, clock, |r'.log|))
  {
    var n := |at|;
    assert r.stack[0].next == n;
    SameRun(acts, dur, n, n + 1);
    StampTimely(acts, dur, r, clock, at, Step(acts, r, Returns), clock);
  }

  // ---------- Timed runs ----------

  datatype TimedOutcome = OnTime(run: TimedRun) | Late

  /** A run of a list that starts at time `t0`. */
  function PlayFrom(acts: seq<Action>, dur: Action -> real, t0: real, events: seq<(Event, real)>): TimedOutcome {
    if events == [] then OnTime(TimedRun(Start(acts), t0, Stamp([], t0, |Start(acts).log|)))
    else
      var before := PlayFrom(acts, dur, t0, events[..|events| - 1]);
      var (e, t) := events[|events| - 1];
      if before.OnTime? && Punctual(acts, dur, before.run, e, t) then OnTime(TimedStep(acts, before.run, e, t))
        else Late
  }

  function TimedPlay(acts: seq<Action>, dur: Action -> real, events: seq<(Event, real)>): TimedOutcome {
    PlayFrom(acts, dur, 0.0, events)
  }

  lemma {:induction false} TimedPlayKeeps(acts: seq<Action>, dur: Action -> real, events: seq<(Event, real)>)
    requires NonNegative(acts, dur) && TimedPlay(acts, dur, events).OnTime?
    ensures var x := TimedPlay(acts, dur, events).run; Inv(acts, x.run) && Timely(acts, dur, x.run, x.clock, x.at)
  {
    if events == [] {
      var nothing := Run([], {}, [], 0);
      OpenKeeps(acts, nothing, 0);
      OpenOnSchedule(acts, dur, nothing, [], 0.0, 0);
    } else {
      TimedPlayKeeps(acts, dur, events[..|events| - 1]);
      var (e, t) := events[|events| - 1];
      TimedStepKeeps(acts, dur, TimedPlay(acts, dur, events[..|events| - 1]).run, e, t);
    }
  }

  lemma {:induction false} TimedStepKeeps(acts: seq<Action>, dur: Action -> real, x: TimedRun, e: Event, t: real)
    requires NonNegative(acts, dur) && Inv(acts, x.run) && Timely(acts, dur, x.run, x.clock, x.at)
    requires Punctual(acts, dur, x, e, t)
    ensures var y := TimedStep(acts, x, e, t); Inv(acts, y.run) && Timely(acts, dur, y.run, y.clock, y.at)
  {
    match e
    case Returns =>
      ReturnKeeps(acts, x.run);
      ReturnTimely(acts, dur, x.run, x.clock, x.at);
    case Ends(i) =>
      EndKeeps(acts, x.run, i);
      if acts[i].blockingType.Hard? {
        HardEndTimely(acts, dur, x.run, x.clock, x.at, i, t);
      } else if FirstHard(acts, i + 1) < |acts| {
        InnerEndTimely(acts, dur, x.run, x.clock, x.at, i, t);
      } else {
        TrailingEndTimely(acts, dur, x.run, x.clock, x.at, i, t);
      }
  }

  /**
   When every action takes its duration, the scheduler starts each at the time of the schedule, and the end that
   completes the list comes at its makespan.
   */
  lemma {:induction false} SchedulerOnSchedule(acts: seq<Action>, dur: Action -> real, events: seq<(Event, real)>)
    requires NonNegative(acts, dur) && TimedPlay(acts, dur, events).OnTime?
    ensures
      var x := TimedPlay(acts, dur, events).run;
      && |x.at| == |x.run.log| <= |acts|
      && (forall k :: 0 <= k < |x.run.log| ==> x.run.log[k].index == k && x.at[k] == StartTime(acts, dur, k))
      && (events != [] && events[|events| - 1].0.Ends? && (forall k :: 0 <= k < |acts| ==> k in x.run.ended)
          ==> x.clock == Makespan(acts, dur, |acts|))
  {
    TimedPlayKeeps(acts, dur, events);
    var x := TimedPlay(acts, dur, events).run;
    if events != [] && events[|events| - 1].0.Ends? && forall k :: 0 <= k < |acts| ==> k in x.run.ended {
      var i := LastEnd(acts, dur, events);
      LastEndCompletes(acts, dur, x.run, x.clock, x.at, i);
    }
  }

  lemma {:induction false} LastEndCompletes(acts: seq<Action>, dur: Action -> real, r: Run, clock: real, at: seq<real>,
                                       i: nat)
    requires NonNegative(acts, dur) && Timely(acts, dur, r, clock, at) && i < |acts| && clock == EndTime(acts, dur, i)
    requires forall k :: 0 <= k < |acts| ==> k in r.ended
    ensures clock == Makespan(acts, dur, |acts|)
  {
    OpeningNonNegative(acts, dur, i);
    MaxDurNonNegative(acts, dur, RunStart(acts, i), i);
    MakespanReached(acts, dur, |acts|, i, clock);
  }

  lemma {:induction false} OpeningNonNegative(acts: seq<Action>, dur: Action -> real, n: nat)
    requires n <= |acts| && NonNegative(acts, dur)
    ensures Opening(acts, dur, n) >= 0.0
    decreases n
  {
    var s := RunStart(acts, n);
    if s > 0 {
      OpeningNonNegative(acts, dur, s - 1);
      MaxDurNonNegative(acts, dur, RunStart(acts, s - 1), s - 1);
    }
  }

  lemma {:induction false} LastEnd(acts: seq<Action>, dur: Action -> real, events: seq<(Event, real)>) returns (i: nat)
    requires NonNegative(acts, dur) && TimedPlay(acts, dur, events).OnTime? && events != []
      && events[|events| - 1].0.Ends?
    ensures i < |acts| && TimedPlay(acts, dur, events).run.clock == EndTime(acts, dur, i)
  {
    TimedPlayKeeps(acts, dur, events[..|events| - 1]);
    i := events[|events| - 1].0.index;
  }

  lemma {:induction false} MakespanReached(acts: seq<Action>, dur: Action -> real, n: nat, i: nat, t: real)
    requires i < n <= |acts| && EndTime(acts, dur, i) == t && t >= 0.0
    requires forall k :: 0 <= k < n ==> EndTime(acts, dur, k) <= t
    ensures Makespan(acts, dur, n) == t
  {
    if i == n - 1 {
      MakespanAtMost(acts, dur, n - 1, t);
    } else {
      MakespanReached(acts, dur, n - 1, i, t);
    }
  }

  lemma {:induction false} MakespanAtMost(acts: seq<Action>, dur: Action -> real, n: nat, t: real)
    requires n <= |acts| && t >= 0.0 && forall k :: 0 <= k < n ==> EndTime(acts, dur, k) <= t
    ensures Makespan(acts, dur, n) <= t
  {
    if n > 0 {
      MakespanAtMost(acts, dur, n - 1, t);
    }
  }

  // ---------- A punctual run that completes the list ----------

  /** Nothing that goes on should have ended before. */
  ghost predicate NoneOverdue(acts: seq<Action>, dur: Action -> real, x: TimedRun) {
    forall k :: 0 <= k < |x.run.log| && k < |acts| && k !in x.run.ended ==> EndTime(acts, dur, k) >= x.clock
  }

  /** The action that ends next. */
  lemma {:induction false} NextEnd(acts: seq<Action>, dur: Action -> real, ended: set<nat>, n: nat) returns (i: nat)
    requires n <= |acts| && exists k :: 0 <= k < n && k !in ended
    ensures i < n && i !in ended
    ensures forall k :: 0 <= k < n && k !in ended ==> EndTime(acts, dur, i) <= EndTime(acts, dur, k)
  {
    if k :| 0 <= k < n - 1 && k !in ended {
      i := NextEnd(acts, dur, ended, n - 1);
      if n - 1 !in ended && EndTime(acts, dur, n - 1) < EndTime(acts, dur, i) {
        i := n - 1;
      }
    } else {
      i := n - 1;
    }
  }

  lemma {:induction false} PlayOneMore(acts: seq<Action>, dur: Action -> real, events: seq<(Event, real)>, e: Event,
                                       t: real)
    requires TimedPlay(acts, dur, events).OnTime? && Punctual(acts, dur, TimedPlay(acts, dur, events).run, e, t)
    ensures TimedPlay(acts, dur, events + [(e, t)]) == OnTime(TimedStep(acts, TimedPlay(acts, dur, events).run, e, t))
  {
    assert (events + [(e, t)])[..|events|] == events;
  }

  /** As long as the list is not completed something happens on time, and makes nothing overdue. */
  lemma {:induction false} NextOnTime(acts: seq<Action>, dur: Action -> real, x: TimedRun) returns (e: Event, t: real)
    requires NonNegative(acts, dur) && Inv(acts, x.run) && Timely(acts, dur, x.run, x.clock, x.at)
      && NoneOverdue(acts, dur, x)
    requires !Dead(acts, x.run)
    ensures Punctual(acts, dur, x, e, t)
    ensures e.Ends? ==> forall k :: 0 <= k < |x.run.log| && k !in x.run.ended ==> t <= EndTime(acts, dur, k)
  {
    if x.run.stack != [] {
      e, t := Returns, x.clock;
    } else {
      var any :| Enabled(acts, x.run, any);
      var i := NextEnd(acts, dur, x.run.ended, |x.run.log|);
      assert x.run.log[i].index == i;
      e, t := Ends(i), EndTime(acts, dur, i);
    }
  }

  lemma {:induction false} StillNoneOverdue(acts: seq<Action>, dur: Action -> real, x: TimedRun, e: Event, t: real)
    requires NonNegative(acts, dur) && NoneOverdue(acts, dur, x) && Punctual(acts, dur, x, e, t)
    requires |x.at| == |x.run.log| <= |acts|
    requires e.Ends? ==> forall k :: 0 <= k < |x.run.log| && k !in x.run.ended ==> t <= EndTime(acts, dur, k)
    requires var y := TimedStep(acts, x, e, t); Timely(acts, dur, y.run, t, y.at) && |y.run.log| <= |x.run.log| + 1
    ensures NoneOverdue(acts, dur, TimedStep(acts, x, e, t))
  {
    var y := TimedStep(acts, x, e, t);
    StepEffect(acts, x.run, e);
    if |y.run.log| > |x.run.log| {
      var n := |x.run.log|;
      assert y.at[n] == t == StartTime(acts, dur, n);
    }
  }

  lemma {:induction false} StartUnfinished(acts: seq<Action>)
    requires acts != []
    ensures !AllEnded(Start(acts))
  {
    assert 0 < |Start(acts).log| && 0 !in Start(acts).ended;
  }

  /** After the return of a call an action goes on. */
  lemma {:induction false} ReturnUnfinished(acts: seq<Action>, r: Run)
    requires Inv(acts, r) && Enabled(acts, r, Returns)
    ensures !AllEnded(Step(acts, r, Returns))
  {
    StepEffect(acts, r, Returns);
    assert |r.log| !in r.ended;
  }

  lemma {:induction false} CompletedByEnd(acts: seq<Action>, dur: Action -> real, events: seq<(Event, real)>)
    requires NonNegative(acts, dur) && TimedPlay(acts, dur, events).OnTime? && acts != []
    requires Served(acts, TimedPlay(acts, dur, events).run.run)
    ensures events != [] && events[|events| - 1].0.Ends?
  {
    StartUnfinished(acts);
    if events != [] && events[|events| - 1].0.Returns? {
      TimedPlayKeeps(acts, dur, events[..|events| - 1]);
      ReturnUnfinished(acts, TimedPlay(acts, dur, events[..|events| - 1]).run.run);
    }
  }

  lemma {:induction false} CompleteOnTime(acts: seq<Action>, dur: Action -> real, events: seq<(Event, real)>)
    returns (all: seq<(Event, real)>)
    requires NonNegative(acts, dur) && TimedPlay(acts, dur, events).OnTime?
    requires NoneOverdue(acts, dur, TimedPlay(acts, dur, events).run)
    ensures TimedPlay(acts, dur, all).OnTime? && Served(acts, TimedPlay(acts, dur, all).run.run)
    decreases |acts| - |TimedPlay(acts, dur, events).run.run.log|, |acts| - |TimedPlay(acts, dur, events).run.run.ended|
  {
    TimedPlayKeeps(acts, dur, events);
    var x := TimedPlay(acts, dur, events).run;
    if Dead(acts, x.run) {
      DeadIsServed(acts, x.run);
      all := events;
    } else {
      var e, t := NextOnTime(acts, dur, x);
      PlayOneMore(acts, dur, events, e, t);
      TimedPlayKeeps(acts, dur, events + [(e, t)]);
      var y := TimedStep(acts, x, e, t);
      StepEffect(acts, x.run, e);
      OneDispatch(acts, x.run, e);
      StillNoneOverdue(acts, dur, x, e, t);
      EndedBound(y.run.ended, |acts|);
      all := CompleteOnTime(acts, dur, events + [(e, t)]);
    }
  }

  lemma {:induction false} OneDispatch(acts: seq<Action>, r: Run, e: Event)
    requires Enabled(acts, r, e)
    ensures |Step(acts, r, e).log| <= |r.log| + 1
  {
  }

  /** There is a punctual run that completes the list; it does so at the makespan. */
  lemma {:induction false} SchedulerMeetsMakespan(acts: seq<Action>, dur: Action -> real)
    returns (events: seq<(Event, real)>)
    requires NonNegative(acts, dur)
    ensures TimedPlay(acts, dur, events).OnTime?
    ensures var x := TimedPlay(acts, dur, events).run;
      && Served(acts, x.run)
      && (forall k :: 0 <= k < |acts| ==> k < |x.at| && x.at[k] == StartTime(acts, dur, k))
      && x.clock == Makespan(acts, dur, |acts|)
  {
    assert TimedPlay(acts, dur, []).OnTime?;
    StartNotOverdue(acts, dur);
    if acts == [] {
      events := [];
    } else {
      events := CompleteOnTime(acts, dur, []);
      CompletedByEnd(acts, dur, events);
      SchedulerOnSchedule(acts, dur, events);
    }
  }

  lemma {:induction false} StartNotOverdue(acts: seq<Action>, dur: Action -> real)
    requires NonNegative(acts, dur)
    ensures NoneOverdue(acts, dur, TimedStart(acts))
  {
    TimedPlayKeeps(acts, dur, []);
    assert TimedPlay(acts, dur, []) == OnTime(TimedStart(acts));
  }

  // ---------- A whole order ----------

  function Earlier(events: seq<(Event, real)>, t0: real): (r: seq<(Event, real)>)
    ensures |r| == |events|
  {
    if events == [] then []
    else Earlier(events[..|events| - 1], t0) + [(events[|events| - 1].0, events[|events| - 1].1 - t0)]
  }

  function Later(events: seq<(Event, real)>, t0: real): (r: seq<(Event, real)>)
    ensures |r| == |events|
  {
    Earlier(events, -t0)
  }

  /** The same run at another time. */
  predicate Shifted(x: TimedRun, y: TimedRun, t0: real) {
    && y.run == x.run && x.clock == y.clock + t0
    && |x.at| == |y.at| && forall k :: 0 <= k < |x.at| ==> x.at[k] == y.at[k] + t0
  }

  lemma {:induction false} ShiftedStep(acts: seq<Action>, dur: Action -> real, x: TimedRun, y: TimedRun, t0: real,
                                       e: Event, t: real)
    requires Shifted(x, y, t0)
    ensures Punctual(acts, dur, x, e, t) <==> Punctual(acts, dur, y, e, t - t0)
    ensures Enabled(acts, x.run, e) ==> Shifted(TimedStep(acts, x, e, t), TimedStep(acts, y, e, t - t0), t0)
  {
  }

  lemma {:induction false} ShiftedPlay(acts: seq<Action>, dur: Action -> real, t0: real, events: seq<(Event, real)>)
    ensures var x, y := PlayFrom(acts, dur, t0, events), TimedPlay(acts, dur, Earlier(events, t0));
      (x.OnTime? <==> y.OnTime?) && (x.OnTime? ==> Shifted(x.run, y.run, t0))
  {
    if events != [] {
      var before := events[..|events| - 1];
      var (e, t) := events[|events| - 1];
      ShiftedPlay(acts, dur, t0, before);
      var shifted := Earlier(events, t0);
      assert shifted[..|shifted| - 1] == Earlier(before, t0) && shifted[|shifted| - 1] == (e, t - t0);
      var x, y := PlayFrom(acts, dur, t0, before), TimedPlay(acts, dur, Earlier(before, t0));
      if x.OnTime? {
        ShiftedStep(acts, dur, x.run, y.run, t0, e, t);
      }
    }
  }

  lemma {:induction false} LaterEarlier(events: seq<(Event, real)>, t0: real)
    ensures Earlier(Later(events, t0), t0) == events
  {
    if events != [] {
      LaterEarlier(events[..|events| - 1], t0);
    }
  }

  lemma {:induction false} NothingHappens(dur: Action -> real, t0: real, events: seq<(Event, real)>)
    requires PlayFrom([], dur, t0, events).OnTime?
    ensures events == []
  {
    if events != [] {
      NothingEnabled(events[|events| - 1].0);
      NothingHappens(dur, t0, events[..|events| - 1]);
    }
  }

  lemma {:induction false} NothingEnabled(e: Event)
    ensures !Enabled([], Start([]), e)
  {
  }

  /** A list that starts at `t0` is completed at its makespan from there. */
  lemma {:induction false} CompletedFrom(acts: seq<Action>, dur: Action -> real, t0: real, events: seq<(Event, real)>)
    requires NonNegative(acts, dur) && PlayFrom(acts, dur, t0, events).OnTime?
    requires Served(acts, PlayFrom(acts, dur, t0, events).run.run)
    ensures PlayFrom(acts, dur, t0, events).run.clock == t0 + Makespan(acts, dur, |acts|)
  {
    if acts == [] {
      NothingHappens(dur, t0, events);
    } else {
      ShiftedPlay(acts, dur, t0, events);
      CompletedByEnd(acts, dur, Earlier(events, t0));
      SchedulerOnSchedule(acts, dur, Earlier(events, t0));
    }
  }

  lemma {:induction false} CompletesFrom(acts: seq<Action>, dur: Action -> real, t0: real)
    returns (events: seq<(Event, real)>)
    requires NonNegative(acts, dur)
    ensures PlayFrom(acts, dur, t0, events).OnTime? && Served(acts, PlayFrom(acts, dur, t0, events).run.run)
  {
    var plain := SchedulerMeetsMakespan(acts, dur);
    events := Later(plain, t0);
    LaterEarlier(plain, t0);
    ShiftedPlay(acts, dur, t0, events);
  }

  /**
   The time at which the lists of an order are completed by the scheduler, one after the other, with one run for each;
   none if a run is not punctual or does not complete its list.
   */
  ghost function CompletedAt(lists: seq<seq<Action>>, dur: Action -> real, runs: seq<seq<(Event, real)>>): Option<real>
    requires |runs| == |lists|
  {
    if lists == [] then Some(0.0)
    else
      var n := |lists| - 1;
      var before := CompletedAt(lists[..n], dur, runs[..n]);
      if before.None? then None
      else
        var x := PlayFrom(lists[n], dur, before.value, runs[n]);
        if x.OnTime? && Served(lists[n], x.run.run) then Some(x.run.clock) else None
  }

  predicate AllNonNegative(lists: seq<seq<Action>>, dur: Action -> real) {
    forall k :: 0 <= k < |lists| ==> NonNegative(lists[k], dur)
  }

  /** The actions after the last HARD one take no time. */
  predicate TrailsNoTime(acts: seq<Action>, dur: Action -> real) {
    forall i :: TrailingStart(acts) <= i < |acts| ==> dur(acts[i]) == 0.0
  }

  /** Every order can be completed in this way. */
  lemma {:induction false} OrderCompletes(lists: seq<seq<Action>>, dur: Action -> real)
    returns (runs: seq<seq<(Event, real)>>)
    requires AllNonNegative(lists, dur)
    ensures |runs| == |lists| && CompletedAt(lists, dur, runs).Some?
  {
    if lists == [] {
      runs := [];
    } else {
      var n := |lists| - 1;
      var before := OrderCompletes(lists[..n], dur);
      var last := CompletesFrom(lists[n], dur, CompletedAt(lists[..n], dur, before).value);
      runs := before + [last];
      assert runs[..n] == before;
    }
  }

  /**
   Whatever the runs, the order takes at least the estimated time, and exactly that time if and only if in each of its
   lists the actions after the last HARD one take none.
   */
  lemma {:induction false} OrderTakesEstimateIff(lists: seq<seq<Action>>, dur: Action -> real,
                                                 runs: seq<seq<(Event, real)>>)
    requires AllNonNegative(lists, dur) && |runs| == |lists| && CompletedAt(lists, dur, runs).Some?
    ensures var t := CompletedAt(lists, dur, runs).value;
      && Estimate(lists, dur) <= t
      && (Estimate(lists, dur) == t <==> forall k :: 0 <= k < |lists| ==> TrailsNoTime(lists[k], dur))
  {
    if lists != [] {
      var n := |lists| - 1;
      OrderTakesEstimateIff(lists[..n], dur, runs[..n]);
      var before := CompletedAt(lists[..n], dur, runs[..n]).value;
      CompletedFrom(lists[n], dur, before, runs[n]);
      ListTakesEstimateIff(lists[n], dur);
      AllButLast(lists, dur);
    }
  }

  lemma {:induction false} ListTakesEstimateIff(acts: seq<Action>, dur: Action -> real)
    requires NonNegative(acts, dur)
    ensures Opening(acts, dur, |acts|) <= Makespan(acts, dur, |acts|)
    ensures Opening(acts, dur, |acts|) == Makespan(acts, dur, |acts|) <==> TrailsNoTime(acts, dur)
  {
    MakespanIs(acts, dur, |acts|);
    MaxDurNonNegative(acts, dur, TrailingStart(acts), |acts|);
    if TrailsNoTime(acts, dur) {
      NoTime(acts, dur, TrailingStart(acts), |acts|);
    }
  }

  lemma {:induction false} AllButLast(lists: seq<seq<Action>>, dur: Action -> real)
    requires lists != []
    ensures var n := |lists| - 1;
      (forall k :: 0 <= k < |lists| ==> TrailsNoTime(lists[k], dur)) <==>
        (forall k :: 0 <= k < n ==> TrailsNoTime(lists[..n][k], dur)) && TrailsNoTime(lists[n], dur)
  {
    var n := |lists| - 1;
    assert forall k :: 0 <= k < n ==> lists[..n][k] == lists[k];
  }

  /** In particular an order whose lists are empty or end with a HARD action takes the estimated time. */
  lemma {:induction false} OrderTakesEstimate(lists: seq<seq<Action>>, dur: Action -> real,
                                              runs: seq<seq<(Event, real)>>)
    requires AllNonNegative(lists, dur) && |runs| == |lists| && CompletedAt(lists, dur, runs).Some?
    requires forall k :: 0 <= k < |lists| ==> lists[k] == [] || lists[k][|lists[k]| - 1].blockingType.Hard?
    ensures CompletedAt(lists, dur, runs).value == Estimate(lists, dur)
  {
    OrderTakesEstimateIff(lists, dur, runs);
  }

  /** The estimate of consecutive parts of an order adds up. */
  lemma {:induction false} EstimateAdds(a: seq<seq<Action>>, b: seq<seq<Action>>, dur: Action -> real)
    ensures Estimate(a + b, dur) == Estimate(a, dur) + Estimate(b, dur)
  {
    if b == [] {
      assert a + b == a;
    } else {
      EstimateAdds(a, b[..|b| - 1], dur);
      assert (a + b)[..|a + b| - 1] == a + b[..|b| - 1];
    }
  }
}
