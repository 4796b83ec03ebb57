/** Pausing an action of the virtual vehicle only inserts stretches of PAUSED into the run it would have had anyway. */
module VirtualPause {
  import opened Orders
  import opened VirtualActions

  /** The reports without PAUSED, and without the repeated status after it. */
  function Collapse(reports: seq<Status>): (r: seq<Status>) {
    if reports == [] then []
    else
      var before, s := Collapse(reports[..|reports| - 1]), reports[|reports| - 1];
      if s.Paused? || (before != [] && before[|before| - 1] == s) then before else before + [s]
  }

  function Last(reports: seq<Status>): Option<Status> {
    if reports == [] then None else Some(reports[|reports| - 1])
  }

  /** The machine as if it had never been paused. */
  function Core(m: Machine): Machine {
    m.(status := if m.status == Some(Paused) then (if Started(m) then m.statusOnPause else None) else m.status,
       statusOnPause := None, shouldPause := false, reports := Collapse(m.reports))
  }

  predicate EndRequested(def: Definition, m: Machine) {
    (m.shouldCancel == Some(true) && def.onCancel) || (m.shouldTerminate == Some(true) && def.onTerminate.Some?)
  }

  /** The next tick is one of the run without pauses: it neither enters nor leaves nor stays in a pause. */
  predicate Counts(def: Definition, m: Machine) {
    m.shouldTerminate.Some? ==>
      if m.status == Some(Paused) then (if m.shouldPause then EndRequested(def, m) else !Started(m))
      else !m.shouldPause
  }

  /** The action is paused before its first status, and asked to end. */
  predicate EndsBeforeStart(def: Definition, m: Machine) {
    m.status == Some(Paused) && m.shouldPause && !Started(m) && EndRequested(def, m)
  }

  /** What the machine remembers during a pause is the status it was in, or is to start with. */
  ghost predicate Remembers(def: Definition, m: Machine) {
    && Inv(def, m)
    && Core(m).status == Last(Collapse(m.reports))
    && (Started(m) <==> Collapse(m.reports) != [])
    && (m.status == Some(Paused) && !Started(m) ==> m.statusOnPause == Some(def.onInit))
  }

  lemma {:induction false} CollapseOne(reports: seq<Status>, s: Status)
    ensures Collapse(reports + [s]) ==
            if s.Paused? || Last(Collapse(reports)) == Some(s) then Collapse(reports) else Collapse(reports) + [s]
  {
    assert (reports + [s])[..|reports|] == reports;
  }

  // ---------- One step ----------

  /** Entering a status that is not PAUSED. */
  lemma {:induction false} EnterCore(def: Definition, m: Machine, m1: Machine, s: Status)
    requires Remembers(def, m) && !s.Paused? && m1.reports == m.reports
    ensures Core(Enter(m1, s)).reports
      == (if Last(Collapse(m.reports)) == Some(s) then Collapse(m.reports) else Collapse(m.reports) + [s])
    ensures Core(Enter(m1, s)).status == Some(s) == Last(Collapse(Enter(m1, s).reports))
    ensures Started(Enter(m1, s)) && Collapse(Enter(m1, s).reports) != []
  {
    CollapseOne(m.reports, s);
    EnterStarted(m1, s);
  }

  lemma {:induction false} PauseCore(def: Definition, m: Machine)
    requires WellDefined(def) && Remembers(def, m) && m.shouldTerminate.Some? && m.shouldPause
      && m.status != Some(Paused)
    ensures var m' := OnTick(def, m, 0.0);
      Core(m') == Core(m) && (Started(m') <==> Started(m)) && m'.status == Some(Paused)
        && (!Started(m') ==> m'.statusOnPause == Some(def.onInit))
  {
    var onPause := if m.status.Some? then m.status.value else def.onInit;
    CollapseOne(m.reports, Paused);
    EnterStarted(m.(statusOnPause := Some(onPause)), Paused);
    assert Started(m.(statusOnPause := Some(onPause))) == Started(m);
    if m.status.None? {
      assert m.reports == [];
    }
  }

  lemma {:induction false} ResumeCore(def: Definition, m: Machine, dt: real)
    requires WellDefined(def) && Remembers(def, m) && m.shouldTerminate.Some? && !m.shouldPause
      && m.status == Some(Paused)
    ensures Core(OnTick(def, m, dt)) == if Started(m) then Core(m) else OnTick(def, Core(m), dt)
    ensures Remembers(def, OnTick(def, m, dt))
  {
    TickKeeps(def, m, dt);
    EnterCore(def, m, m.(statusOnPause := None), m.statusOnPause.value);
  }

  /** A tick that ends the action, or moves it on outside a pause. */
  lemma {:induction false} ActiveCore(def: Definition, m: Machine, dt: real)
    requires WellDefined(def) && Remembers(def, m) && m.shouldTerminate.Some?
      && (m.shouldPause <==> m.status == Some(Paused))
    requires !EndsBeforeStart(def, m)
    ensures Core(OnTick(def, m, dt)) == if Counts(def, m) then OnTick(def, Core(m), dt) else Core(m)
    ensures Remembers(def, OnTick(def, m, dt))
  {
    TickKeeps(def, m, dt);
    if m.status.None? {
      EnterCore(def, m, m, def.onInit);
    } else if m.shouldCancel.value && def.onCancel {
      EnterCore(def, m, m, Failed);
    } else if m.shouldTerminate.value && def.onTerminate.Some? {
      EnterCore(def, m, m, def.onTerminate.value);
    } else if !m.status.value.Paused? {
      AdvanceCore(def, m, dt);
    }
  }

  lemma {:induction false} TickCore(def: Definition, m: Machine, dt: real)
    requires WellDefined(def) && Remembers(def, m) && !EndsBeforeStart(def, m)
    ensures Core(OnTick(def, m, dt)) == if Counts(def, m) then OnTick(def, Core(m), dt) else Core(m)
    ensures Remembers(def, OnTick(def, m, dt))
  {
    if m.shouldTerminate.None? {
    } else if m.shouldPause && m.status != Some(Paused) {
      TickKeeps(def, m, dt);
      PauseCore(def, m);
    } else if !m.shouldPause && m.status == Some(Paused) {
      ResumeCore(def, m, dt);
    } else {
      ActiveCore(def, m, dt);
    }
  }

  lemma {:induction false} AdvanceCore(def: Definition, m: Machine, dt: real)
    requires WellDefined(def) && Remembers(def, m) && m.shouldTerminate.Some? && m.status.Some?
      && !m.status.value.Paused?
    ensures Core(Advance(def, m, dt)) == Advance(def, Core(m), dt).(shouldPause := false)
    ensures Inv(def, Advance(def, m, dt)) ==> Remembers(def, Advance(def, m, dt))
  {
    var s := m.status.value;
    var t := TransitionOf(def, s);
    if t.Some? && TransitionDuration(def, t.value).Some?
      && m.durations[s] + dt >= TransitionDuration(def, t.value).value {
      EnterCore(def, m, m.(durations := m.durations[s := 0.0]), t.value.next);
    } else {
      assert Started(Advance(def, m, dt)) == Started(m);
    }
  }

  /** Whether an event is one of the run without pauses. */
  predicate IsKept(def: Definition, m: Machine, e: Event) {
    match e
    case Tick(_) => Counts(def, m)
    case Pause => false
    case Unpause => false
    case _ => true
  }

  /** A step is one of the machine that is never paused, or invisible to it; the one exception is an early end. */
  lemma {:induction false} StepCore(def: Definition, m: Machine, e: Event)
    requires WellDefined(def) && Remembers(def, m)
    ensures e.Tick? && EndsBeforeStart(def, m) ==>
      Core(Step(def, m, e)) != Core(m) && Core(Step(def, m, e)) != Step(def, Core(m), e)
    ensures !(e.Tick? && EndsBeforeStart(def, m)) ==>
              && Core(Step(def, m, e)) == (if IsKept(def, m, e) then Step(def, Core(m), e) else Core(m))
              && Remembers(def, Step(def, m, e))
  {
    match e
    case Tick(dt) =>
      if EndsBeforeStart(def, m) {
        EarlyEnd(def, m, dt);
      } else {
        TickCore(def, m, dt);
      }
    case _ =>
      assert Started(Step(def, m, e)) == Started(m);
      StepKeeps(def, m, e);
  }

  lemma {:induction false} EarlyEnd(def: Definition, m: Machine, dt: real)
    requires WellDefined(def) && Remembers(def, m) && EndsBeforeStart(def, m)
    ensures OnTick(def, m, dt).status.Some? && Ended(OnTick(def, m, dt).status.value)
    ensures OnTick(def, Core(m), dt).status == Some(def.onInit) && !Ended(def.onInit)
    ensures Core(m).status == None
  {
  }

  // ---------- Runs ----------

  /** No tick comes while the action is paused before its first status and asked to end. */
  ghost predicate StartsFirst(def: Definition, m: Machine, events: seq<Event>) {
    forall k :: 0 <= k < |events| && events[k].Tick? ==> !EndsBeforeStart(def, Run(def, m, events[..k]))
  }

  /** The events without pauses and without the ticks spent on them. */
  function Kept(def: Definition, m: Machine, events: seq<Event>): seq<Event> {
    if events == [] then []
    else
      var before, e := events[..|events| - 1], events[|events| - 1];
      Kept(def, m, before) + (if IsKept(def, Run(def, m, before), e) then [e] else [])
  }

  lemma {:induction false} RunCore(def: Definition, m: Machine, events: seq<Event>)
    requires WellDefined(def) && Remembers(def, m) && StartsFirst(def, m, events)
    ensures Core(Run(def, m, events)) == Run(def, Core(m), Kept(def, m, events))
    ensures Remembers(def, Run(def, m, events))
  {
    if events == [] {
    } else {
      var before, e := events[..|events| - 1], events[|events| - 1];
      forall k | 0 <= k < |before| && before[k].Tick?
        ensures !EndsBeforeStart(def, Run(def, m, before[..k]))
      {
        assert before[..k] == events[..k];
      }
      RunCore(def, m, before);
      StepCore(def, Run(def, m, before), e);
      if IsKept(def, Run(def, m, before), e) {
        RunOne(def, Core(m), Kept(def, m, before), e);
      } else {
        assert Kept(def, m, before) + [] == Kept(def, m, before);
      }
    }
  }

  lemma {:induction false} RunOne(def: Definition, m: Machine, events: seq<Event>, e: Event)
    ensures Run(def, m, events + [e]) == Step(def, Run(def, m, events), e)
  {
    assert (events + [e])[..|events|] == events;
  }

  /**
   Under any pauses the action goes through the statuses, spends the time in each and reports what it would have
   without them, apart from PAUSED and the status repeated after it.
   */
  lemma {:induction false} PauseTransparent(def: Definition, shouldPause: bool, events: seq<Event>)
    requires WellDefined(def) && StartsFirst(def, New(def, shouldPause), events)
    ensures
      var m := Run(def, New(def, shouldPause), events);
      var plain := Run(def, New(def, false), Kept(def, New(def, shouldPause), events));
      && Collapse(m.reports) == plain.reports
      && m.durations == plain.durations
      && (if m.status == Some(Paused) && Started(m) then m.statusOnPause == plain.status
          else m.status == Some(Paused) || m.status == plain.status)
  {
    RunCore(def, New(def, shouldPause), events);
  }
}
