/** How long an action of the virtual vehicle takes, compared with the duration computed from its definition. */
module VirtualTiming {
  import opened Orders
  import opened VirtualActions
  import opened Multiples

  /** Number of statuses with a transition from `s` on. */
  function PathLen(def: Definition, s: Status): nat
    requires WellDefined(def)
    decreases Rank(s)
  {
    var t := TransitionOf(def, s);
    if t.None? then 0 else 1 + PathLen(def, t.value.next)
  }

  /** Sum of the durations from `s` on; a missing one counts as none. */
  function PathTime(def: Definition, s: Status): real
    requires WellDefined(def)
    decreases Rank(s)
  {
    var t := TransitionOf(def, s);
    if t.None? then 0.0
    else
      var duration := TransitionDuration(def, t.value);
      (if duration.Some? then duration.value else 0.0) + PathTime(def, t.value.next)
  }

  /** The duration walk ends, as every transition leads closer to a final status. */
  method GetNodeActionDuration(def: Definition) returns (duration: real)
    requires WellDefined(def)
    ensures duration == PathTime(def, def.onInit)
  {
    duration := 0.0;
    var status := def.onInit;
    while !status.Finished? && !status.Failed?
      invariant Reached(def, status) || Ended(status)
      invariant duration + PathTime(def, status) == PathTime(def, def.onInit)
      decreases Rank(status)
    {
      var transition := TransitionOf(def, status).value;
      var transitionDuration := TransitionDuration(def, transition);
      if transitionDuration.Some? {
        duration := duration + transitionDuration.value;
      }
      status := transition.next;
    }
  }

  // ---------- Ticks without disturbance ----------

  function Ticks(def: Definition, m: Machine, intervals: seq<real>): Machine {
    if intervals == [] then m else OnTick(def, Ticks(def, m, intervals[..|intervals| - 1]), intervals[|intervals| - 1])
  }

  function Sum(intervals: seq<real>): real {
    if intervals == [] then 0.0 else Sum(intervals[..|intervals| - 1]) + intervals[|intervals| - 1]
  }

  predicate HasEnded(m: Machine) {
    m.status.Some? && Ended(m.status.value)
  }

  /** Every status from `s` on that is to be left has a duration. */
  predicate PathTimed(def: Definition, s: Status)
    requires WellDefined(def)
    decreases Rank(s)
  {
    var t := TransitionOf(def, s);
    t.Some? ==> TransitionDuration(def, t.value).Some? && PathTimed(def, t.value.next)
  }

  /** So it has, and none is negative. */
  predicate Timed(def: Definition, s: Status)
    requires WellDefined(def)
    decreases Rank(s)
  {
    var t := TransitionOf(def, s);
    t.Some? ==>
      TransitionDuration(def, t.value).Some? && TransitionDuration(def, t.value).value >= 0.0
        && Timed(def, t.value.next)
  }

  /** The machine has started, and is neither paused nor asked to end. */
  predicate Undisturbed(def: Definition, m: Machine) {
    && !m.shouldPause && m.durations.Keys == {Initializing, Running}
    && m.status.Some? && (Reached(def, m.status.value) || Ended(m.status.value))
    && (if HasEnded(m) then m.shouldTerminate.None? else
          m.shouldTerminate == Some(false) && m.shouldCancel == Some(false) && TransitionOf(def, m.status.value).Some?)
  }

  /** No more time was spent in a status than it takes. */
  predicate Underway(def: Definition, m: Machine)
    requires WellDefined(def)
  {
    && Undisturbed(def, m) && Timed(def, m.status.value)
    && (!HasEnded(m) ==>
          && 0.0 <= m.durations[m.status.value]
          && (m.durations[m.status.value] == 0.0
              || m.durations[m.status.value] < TransitionDuration(def, TransitionOf(def, m.status.value).value).value)
          && (m.status.value.Initializing? ==> m.durations[Running] == 0.0))
  }

  lemma {:induction false} PathTimeNonNegative(def: Definition, s: Status)
    requires WellDefined(def) && Timed(def, s)
    ensures PathTime(def, s) >= 0.0
    decreases Rank(s)
  {
    var t := TransitionOf(def, s);
    if t.Some? {
      PathTimeNonNegative(def, t.value.next);
    }
  }

  /** While `spent` passes, the time left and the slack of the statuses ahead account for it. */
  predicate Spends(before: (real, nat), after: (real, nat), spent: real, d: real) {
    && before.0 - spent <= after.0
    && after.0 + Times(after.1, d) <= before.0 - spent + Times(before.1, d)
  }

  /** Time left, and statuses ahead. */
  function Ahead(def: Definition, m: Machine): (real, nat)
    requires WellDefined(def) && Underway(def, m)
  {
    (if HasEnded(m) then 0.0
      else PathTime(def, m.status.value) - m.durations[m.status.value], PathLen(def, m.status.value))
  }

  /** One tick uses up its interval, up to what a status is overrun by when it is left. */
  lemma {:induction false} TickTiming(def: Definition, m: Machine, t: real, d: real)
    requires WellDefined(def) && Underway(def, m) && !HasEnded(m) && 0.0 <= t <= d
    ensures var m' := OnTick(def, m, t);
      && Underway(def, m')
      && Spends(Ahead(def, m), Ahead(def, m'), t, d)
      && (!HasEnded(m') ==> Ahead(def, m').0 >= 0.0 && Ahead(def, m').1 >= 1)
  {
    var s := m.status.value;
    var transition := TransitionOf(def, s).value;
    PathTimeNonNegative(def, transition.next);
    if m.durations[s] + t >= TransitionDuration(def, transition).value {
      LeavingTick(def, m, t, transition);
    } else {
      assert OnTick(def, m, t) == m.(durations := m.durations[s := m.durations[s] + t]);
    }
  }

  lemma {:induction false} LeavingTick(def: Definition, m: Machine, t: real, transition: Transition)
    requires WellDefined(def) && Underway(def, m) && !HasEnded(m)
      && TransitionOf(def, m.status.value) == Some(transition)
    requires m.durations[m.status.value] + t >= TransitionDuration(def, transition).value
    ensures var m' := OnTick(def, m, t);
      && Underway(def, m') && m'.status == Some(transition.next)
      && Ahead(def, m') == (PathTime(def, transition.next), PathLen(def, m.status.value) - 1)
  {
  }

  predicate Paced(intervals: seq<real>, d: real) {
    forall k :: 0 <= k < |intervals| ==> 0.0 <= intervals[k] <= d
  }

  /** If at all, the action ends with the last tick. */
  predicate EndsLast(def: Definition, m: Machine, intervals: seq<real>) {
    forall k :: 0 <= k < |intervals| ==> !HasEnded(Ticks(def, m, intervals[..k]))
  }

  lemma {:induction false} TicksTiming(def: Definition, m: Machine, intervals: seq<real>, d: real)
    requires WellDefined(def) && Underway(def, m)
    requires Paced(intervals, d) && EndsLast(def, m, intervals)
    ensures var m' := Ticks(def, m, intervals);
      && Underway(def, m')
      && Spends(Ahead(def, m), Ahead(def, m'), Sum(intervals), d)
      && (intervals != [] && !HasEnded(m') ==> Ahead(def, m').0 >= 0.0 && Ahead(def, m').1 >= 1)
  {
    if intervals == [] {
    } else {
      var before, t := intervals[..|intervals| - 1], intervals[|intervals| - 1];
      forall k | 0 <= k < |before|
        ensures !HasEnded(Ticks(def, m, before[..k]))
      {
        assert before[..k] == intervals[..k];
      }
      TicksTiming(def, m, before, d);
      var b := Ticks(def, m, before);
      assert before == intervals[..|before|];
      TickTiming(def, b, t, d);
      SpendsTwice(Ahead(def, m), Ahead(def, b), Ahead(def, OnTick(def, b, t)), Sum(before), t, d);
    }
  }

  lemma {:induction false} SpendsTwice(a: (real, nat), b: (real, nat), c: (real, nat), s: real, t: real, d: real)
    requires Spends(a, b, s, d) && Spends(b, c, t, d)
    ensures Spends(a, c, s + t, d)
  {
  }

  /** The machine after its first tick. */
  function First(def: Definition): Machine {
    OnTick(def, New(def, false), 0.0)
  }

  lemma {:induction false} FirstUnderway(def: Definition)
    requires WellDefined(def) && Timed(def, def.onInit)
    ensures Underway(def, First(def)) && Ahead(def, First(def)) == (PathTime(def, def.onInit), PathLen(def, def.onInit))
    ensures !HasEnded(First(def)) ==> PathTime(def, def.onInit) >= 0.0 && PathLen(def, def.onInit) >= 1
  {
    PathTimeNonNegative(def, def.onInit);
  }

  lemma {:induction false} BoundsByMultiples(def: Definition, intervals: seq<real>, d: real)
    requires WellDefined(def) && Timed(def, def.onInit) && d >= 0.0
    requires Paced(intervals, d) && EndsLast(def, First(def), intervals)
    ensures
      var duration, statuses := PathTime(def, def.onInit), PathLen(def, def.onInit);
      if HasEnded(Ticks(def, First(def), intervals)) then
        duration <= Sum(intervals) <= duration + Times(statuses, d)
      else
        statuses >= 1 && Sum(intervals) <= duration + Times(statuses - 1, d)
  {
    FirstUnderway(def);
    TicksTiming(def, First(def), intervals, d);
    var m' := Ticks(def, First(def), intervals);
    if HasEnded(m') {
      assert Ahead(def, m') == (0.0, 0);
    } else {
      TimesGrows(Ahead(def, m').1, d);
      assert PathLen(def, def.onInit) >= 1;
    }
  }

  /**
   From its first status to its final one an undisturbed action takes the computed duration, and at most one longest
   interval more for each status on its way; and it does get there.
   */
  lemma {:induction false} DurationBounds(def: Definition, intervals: seq<real>, d: real)
    requires WellDefined(def) && Timed(def, def.onInit) && d >= 0.0
    requires Paced(intervals, d) && EndsLast(def, First(def), intervals)
    ensures
      var duration, statuses := PathTime(def, def.onInit), PathLen(def, def.onInit);
      if HasEnded(Ticks(def, First(def), intervals)) then
        duration <= Sum(intervals) <= duration + statuses as real * d
      else
        statuses >= 1 && Sum(intervals) <= duration + (statuses - 1) as real * d
  {
    var statuses := PathLen(def, def.onInit);
    TimesIsProduct(statuses, d);
    if HasEnded(Ticks(def, First(def), intervals)) {
      BoundsByMultiples(def, intervals, d);
    } else {
      BoundsByMultiples(def, intervals, d);
      TimesIsProduct(statuses - 1, d);
    }
  }

  lemma {:induction false} TimesGrows(n: nat, d: real)
    requires d >= 0.0
    ensures Times(n, d) >= if n == 0 then 0.0 else d
  {
    if n > 1 {
      TimesGrows(n - 1, d);
    }
  }

  // ---------- Statuses without a duration ----------

  lemma {:induction false} TicksFrom(def: Definition, m: Machine, t: real, intervals: seq<real>)
    ensures Ticks(def, m, [t] + intervals) == Ticks(def, OnTick(def, m, t), intervals)
  {
    if intervals == [] {
      assert [t] + intervals == [t] && [t][..0] == [];
    } else {
      var n := |intervals| - 1;
      assert ([t] + intervals)[..n + 1] == [t] + intervals[..n];
      TicksFrom(def, m, t, intervals[..n]);
    }
  }

  /** A status is left after a long enough tick. */
  lemma {:induction false} EndsFrom(def: Definition, m: Machine) returns (intervals: seq<real>)
    requires WellDefined(def) && Undisturbed(def, m) && PathTimed(def, m.status.value)
    ensures HasEnded(Ticks(def, m, intervals)) && forall k :: 0 <= k < |intervals| ==> intervals[k] >= 0.0
    decreases Rank(m.status.value)
  {
    if HasEnded(m) {
      intervals := [];
    } else {
      var s := m.status.value;
      var transition := TransitionOf(def, s).value;
      var left := TransitionDuration(def, transition).value - m.durations[s];
      var t := if left > 0.0 then left else 0.0;
      assert OnTick(def, m, t).status == Some(transition.next);
      var rest := EndsFrom(def, OnTick(def, m, t));
      TicksFrom(def, m, t, rest);
      intervals := [t] + rest;
    }
  }

  /** The duration walk counts a status without a duration as taking no time, but from there no ticks lead to an end. */
  lemma {:induction false} UntimedStays(def: Definition, m: Machine, intervals: seq<real>)
    requires WellDefined(def) && Undisturbed(def, m) && !PathTimed(def, m.status.value)
    ensures var m' := Ticks(def, m, intervals);
      Undisturbed(def, m') && !PathTimed(def, m'.status.value) && !HasEnded(m')
  {
    if intervals != [] {
      UntimedStays(def, m, intervals[..|intervals| - 1]);
    }
  }

  /** Some ticks bring an action to its end if and only if every status on its path has a duration. */
  lemma {:induction false} EndsIffPathTimed(def: Definition)
    requires WellDefined(def)
    ensures PathTimed(def, def.onInit) <==>
      exists intervals :: (forall k :: 0 <= k < |intervals| ==> intervals[k] >= 0.0)
        && HasEnded(Ticks(def, First(def), intervals))
  {
    assert Undisturbed(def, First(def)) && First(def).status == Some(def.onInit);
    if PathTimed(def, def.onInit) {
      var intervals := EndsFrom(def, First(def));
    } else {
      forall intervals: seq<real>
        ensures !HasEnded(Ticks(def, First(def), intervals))
      {
        UntimedStays(def, First(def), intervals);
      }
    }
  }
}
