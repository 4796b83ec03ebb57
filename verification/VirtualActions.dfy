/**
 Actions of the virtual vehicle: a machine that advances by ticks and can be paused, canceled and terminated.
 Its statuses are those of the reported actions, with PAUSED entered and left by the machine itself.
 */
module VirtualActions {
  import opened Orders

  datatype Scope = InstantScope | NodeScope | EdgeScope

  /** Time to stay in a status: none given, a number of seconds, or the value of an action parameter with a default. */
  datatype DurationTime = Absent | Seconds(value: real) | Parameter(key: string, default: real)

  datatype Transition = Transition(durationTime: DurationTime, next: Status)

  datatype Definition = Definition(
    scope: Scope, parameters: map<string, real>,
    onInit: Status, initializing: Option<Transition>, running: Option<Transition>,
    onCancel: bool, onTerminate: Option<Status>)

  function TransitionDuration(def: Definition, t: Transition): Option<real> {
    match t.durationTime
    case Absent => None
    case Seconds(value) => Some(value)
    case Parameter(key, default) => Some(if key in def.parameters then def.parameters[key] else default)
  }

  /** The transition out of a status, if the definition has one. */
  function TransitionOf(def: Definition, s: Status): Option<Transition> {
    match s
    case Initializing => def.initializing
    case Running => def.running
    case _ => None
  }

  function Rank(s: Status): nat {
    match s
    case Initializing => 2
    case Running => 1
    case _ => 0
  }

  /** The format of a definition, with PAUSED as next status left out. */
  predicate WellDefined(def: Definition) {
    && (def.onInit.Initializing? || def.onInit.Running? || (def.onInit.Finished? && def.scope.InstantScope?))
    && (def.onInit.Initializing? ==> def.initializing.Some?)
    && (def.initializing.Some? ==>
        def.initializing.value.next.Running? || def.initializing.value.next.Failed?)
    && (def.onInit.Running? || (def.initializing.Some? && def.initializing.value.next.Running?) ==> def.running.Some?)
    && (def.running.Some? ==> Ended(def.running.value.next))
    && (def.onTerminate.Some? ==> Ended(def.onTerminate.value))
    && (def.scope.EdgeScope? ==> def.onTerminate.Some?)
  }

  predicate Reached(def: Definition, s: Status) {
    || s == def.onInit
    || (def.onInit.Initializing? && def.initializing.Some? && s == def.initializing.value.next)
  }

  // ---------- The machine ----------

  datatype Machine = Machine(
    status: Option<Status>, statusOnPause: Option<Status>,
    shouldTerminate: Option<bool>, shouldCancel: Option<bool>, shouldPause: bool,     // None once the action has ended
    durations: map<Status, real>,
    reports: seq<Status>)

  datatype Event = Tick(realInterval: real) | Pause | Unpause | Cancel | Terminate

  function New(def: Definition, shouldPause: bool): Machine {
    Machine(None, None, Some(false), Some(false), shouldPause, map[Initializing := 0.0, Running := 0.0], [])
  }

  function Enter(m: Machine, s: Status): Machine {
    var m1 := m.(status := Some(s), reports := m.reports + [s]);
    if Ended(s) then m1.(shouldTerminate := None, shouldCancel := None, shouldPause := false) else m1
  }

  function Advance(def: Definition, m: Machine, realInterval: real): Machine
    requires m.status.Some?
  {
    var s := m.status.value;
    if s !in m.durations then m
    else
      var t := TransitionOf(def, s);
      var duration := m.durations[s] + realInterval;
      if t.Some? && TransitionDuration(def, t.value).Some? && duration >= TransitionDuration(def, t.value).value then
        Enter(m.(durations := m.durations[s := 0.0]), t.value.next)
      else m.(durations := m.durations[s := duration])
  }

  function OnTick(def: Definition, m: Machine, realInterval: real): Machine {
    if m.shouldTerminate.None? || m.shouldCancel.None? then m
    else if m.shouldPause && m.status != Some(Paused) then
      Enter(m.(statusOnPause := Some(if m.status.Some? then m.status.value else def.onInit)), Paused)
    else if !m.shouldPause && m.status == Some(Paused) && m.statusOnPause.Some? then
      Enter(m.(statusOnPause := None), m.statusOnPause.value)
    else if m.status.None? then Enter(m, def.onInit)
    else if m.shouldCancel.value && def.onCancel then Enter(m, Failed)
    else if m.shouldTerminate.value && def.onTerminate.Some? then Enter(m, def.onTerminate.value)
    else if m.status.value.Paused? then m
    else Advance(def, m, realInterval)
  }

  function Step(def: Definition, m: Machine, e: Event): Machine {
    match e
    case Tick(realInterval) => OnTick(def, m, realInterval)
    case Pause => m.(shouldPause := true)
    case Unpause => m.(shouldPause := false)
    case Cancel => if def.scope.InstantScope? || m.shouldCancel != Some(false) || !def.onCancel then m
      else m.(shouldCancel := Some(true))
    case Terminate => if !def.scope.EdgeScope? || m.shouldTerminate != Some(false) then m
      else m.(shouldTerminate := Some(true))
  }

  function Run(def: Definition, m: Machine, events: seq<Event>): Machine {
    if events == [] then m else Step(def, Run(def, m, events[..|events| - 1]), events[|events| - 1])
  }

  // ---------- The invariant: one final status, reported last ----------

  predicate Started(m: Machine) {
    exists i :: 0 <= i < |m.reports| && !m.reports[i].Paused?
  }

  /** A status the machine can be in between pauses. */
  predicate Active(def: Definition, m: Machine, s: Status) {
    Reached(def, s) || Ended(s)
  }

  ghost predicate Inv(def: Definition, m: Machine) {
    && m.durations.Keys == {Initializing, Running}
    && m.status == (if m.reports == [] then None else Some(m.reports[|m.reports| - 1]))
    && (forall i :: 0 <= i < |m.reports| - 1 ==> !Ended(m.reports[i]))
    && (m.shouldTerminate.None? <==> m.shouldCancel.None?)
    && (m.shouldTerminate.None? <==> m.status.Some? && Ended(m.status.value))
    && (m.status == Some(Paused) ==>
          && m.statusOnPause.Some? && Reached(def, m.statusOnPause.value)
          && (Ended(m.statusOnPause.value) ==> !Started(m)))
    && (m.status.Some? && !m.status.value.Paused? ==> Active(def, m, m.status.value) && Started(m))
    && (m.shouldTerminate == Some(true) ==> def.scope.EdgeScope?)
    && (m.shouldCancel == Some(true) ==> def.onCancel && !def.scope.InstantScope?)
  }

  lemma {:induction false} EnterStarted(m: Machine, s: Status)
    ensures Started(Enter(m, s)) <==> Started(m) || !s.Paused?
  {
    var r := Enter(m, s).reports;
    if Started(m) {
      var i :| 0 <= i < |m.reports| && !m.reports[i].Paused?;
      assert r[i] == m.reports[i];
    }
    if !s.Paused? {
      assert r[|m.reports|] == s;
    }
    if Started(Enter(m, s)) && s.Paused? {
      var i :| 0 <= i < |r| && !r[i].Paused?;
      assert m.reports[i] == r[i];
    }
  }

  /**
   Entering a status that fits keeps the invariant; only the status remembered for a pause may have changed before.
   */
  lemma {:induction false} EnterKeeps(def: Definition, m: Machine, s: Status, onPause: Option<Status>,
                                      durations: map<Status, real>)
    requires Inv(def, m) && m.shouldTerminate.Some? && durations.Keys == {Initializing, Running}
    requires s.Paused? ==> onPause.Some? && Reached(def, onPause.value) && (Ended(onPause.value) ==> !Started(m))
    requires !s.Paused? ==> Active(def, m, s)
    ensures Inv(def, Enter(m.(statusOnPause := onPause, durations := durations), s))
  {
    var m1 := m.(statusOnPause := onPause, durations := durations);
    EnterStarted(m1, s);
    var m2 := Enter(m1, s);
    assert m2.reports == m.reports + [s];
    assert Started(m1) == Started(m);
  }

  lemma {:induction false} TickKeeps(def: Definition, m: Machine, dt: real)
    requires WellDefined(def) && Inv(def, m)
    ensures Inv(def, OnTick(def, m, dt))
  {
    if m.shouldTerminate.None? {
    } else if m.shouldPause && m.status != Some(Paused) {
      EnterKeeps(def, m, Paused, Some(if m.status.Some? then m.status.value else def.onInit), m.durations);
    } else if !m.shouldPause && m.status == Some(Paused) {
      EnterKeeps(def, m, m.statusOnPause.value, None, m.durations);
    } else if m.status.None? {
      EnterKeeps(def, m, def.onInit, m.statusOnPause, m.durations);
    } else if m.shouldCancel.value && def.onCancel {
      EnterKeeps(def, m, Failed, m.statusOnPause, m.durations);
    } else if m.shouldTerminate.value && def.onTerminate.Some? {
      EnterKeeps(def, m, def.onTerminate.value, m.statusOnPause, m.durations);
    } else if !m.status.value.Paused? {
      AdvanceKeeps(def, m, dt);
    }
  }

  lemma {:induction false} AdvanceKeeps(def: Definition, m: Machine, dt: real)
    requires WellDefined(def) && Inv(def, m) && m.shouldTerminate.Some? && m.status.Some? && !m.status.value.Paused?
    ensures Inv(def, Advance(def, m, dt))
  {
    var s := m.status.value;
    var t := TransitionOf(def, s);
    var durations := m.durations[s := 0.0];
    assert durations.Keys == m.durations.Keys;
    if t.Some? && TransitionDuration(def, t.value).Some?
      && m.durations[s] + dt >= TransitionDuration(def, t.value).value {
      assert Active(def, m, t.value.next);
      EnterKeeps(def, m, t.value.next, m.statusOnPause, durations);
    }
  }

  lemma {:induction false} StepKeeps(def: Definition, m: Machine, e: Event)
    requires WellDefined(def) && Inv(def, m)
    ensures Inv(def, Step(def, m, e))
  {
    match e
    case Tick(dt) => TickKeeps(def, m, dt);
    case _ =>
  }

  lemma {:induction false} RunKeeps(def: Definition, shouldPause: bool, events: seq<Event>)
    requires WellDefined(def)
    ensures Inv(def, Run(def, New(def, shouldPause), events))
  {
    if events == [] {
    } else {
      RunKeeps(def, shouldPause, events[..|events| - 1]);
      StepKeeps(def, Run(def, New(def, shouldPause), events[..|events| - 1]), events[|events| - 1]);
    }
  }

  lemma {:induction false} NothingAfterEnd(def: Definition, m: Machine, events: seq<Event>)
    requires WellDefined(def) && Inv(def, m) && m.status.Some? && Ended(m.status.value)
    ensures Run(def, m, events).reports == m.reports && Run(def, m, events).status == m.status
      && Inv(def, Run(def, m, events))
  {
    if events == [] {
    } else {
      NothingAfterEnd(def, m, events[..|events| - 1]);
      StepKeeps(def, Run(def, m, events[..|events| - 1]), events[|events| - 1]);
    }
  }

  /** Under any events at most one final status is reported, as the last report, and further events add none. */
  lemma {:induction false} OneFinalStatus(def: Definition, shouldPause: bool, events: seq<Event>, more: seq<Event>)
    requires WellDefined(def)
    ensures
      var m := Run(def, New(def, shouldPause), events);
      && (forall i :: 0 <= i < |m.reports| - 1 ==> !Ended(m.reports[i]))
      && (m.reports != [] && Ended(m.reports[|m.reports| - 1]) ==> Run(def, m, more).reports == m.reports)
  {
    RunKeeps(def, shouldPause, events);
    var m := Run(def, New(def, shouldPause), events);
    if m.reports != [] && Ended(m.reports[|m.reports| - 1]) {
      NothingAfterEnd(def, m, more);
    }
  }
}
