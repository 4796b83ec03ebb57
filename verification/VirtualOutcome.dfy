/** What an action of the virtual vehicle reports in the end, told by the events it was given. */
module VirtualOutcomes {
  import opened Orders
  import opened VirtualActions
  import opened VirtualPause

  // ---------- The path of a definition ----------

  function PathFrom(def: Definition, s: Status): (path: seq<Status>)
    requires WellDefined(def)
    ensures path != [] && path[0] == s
    decreases Rank(s)
  {
    var t := TransitionOf(def, s);
    [s] + (if t.None? then [] else PathFrom(def, t.value.next))
  }

  /** The statuses of the action if it is left alone. */
  function Path(def: Definition): seq<Status>
    requires WellDefined(def)
  {
    PathFrom(def, def.onInit)
  }

  lemma {:induction false} PathStep(def: Definition, s: Status, i: nat)
    requires WellDefined(def) && i < |PathFrom(def, s)|
    ensures var path := PathFrom(def, s);
      if i + 1 < |path| then TransitionOf(def, path[i]).Some? && TransitionOf(def, path[i]).value.next == path[i + 1]
      else TransitionOf(def, path[i]).None?
    decreases i
  {
    if i > 0 {
      PathStep(def, TransitionOf(def, s).value.next, i - 1);
    }
  }

  // ---------- What was asked of the action ----------

  predicate HasFinal(reports: seq<Status>) {
    reports != [] && Ended(reports[|reports| - 1])
  }

  /** The action after `events`. */
  function Begun(def: Definition, shouldPause: bool, events: seq<Event>): Machine {
    Run(def, New(def, shouldPause), events)
  }

  /** A pause was asked for last, if anything. */
  predicate PauseAsked(shouldPause: bool, events: seq<Event>) {
    if events == [] then shouldPause
    else
      var e := events[|events| - 1];
      e.Pause? || (!e.Unpause? && PauseAsked(shouldPause, events[..|events| - 1]))
  }

  /** A cancelation came while the action was going on, and the action is a cancelable one of a node or an edge. */
  predicate Canceled(def: Definition, shouldPause: bool, events: seq<Event>) {
    if events == [] then false
    else
      var before, e := events[..|events| - 1], events[|events| - 1];
      || Canceled(def, shouldPause, before)
      || (e.Cancel? && def.onCancel && !def.scope.InstantScope? && !HasFinal(Begun(def, shouldPause, before).reports))
  }

  /** The end of its edge was reached while the action was going on. */
  predicate Terminated(def: Definition, shouldPause: bool, events: seq<Event>) {
    if events == [] then false
    else
      var before, e := events[..|events| - 1], events[|events| - 1];
      || Terminated(def, shouldPause, before)
      || (e.Terminate? && def.scope.EdgeScope? && !HasFinal(Begun(def, shouldPause, before).reports))
  }

  /** The machine remembers what was asked of it. */
  ghost predicate Asked(def: Definition, shouldPause: bool, events: seq<Event>, m: Machine) {
    if HasFinal(m.reports) then m.shouldTerminate.None? && m.shouldCancel.None?
    else
      && m.shouldPause == PauseAsked(shouldPause, events)
      && m.shouldCancel == Some(Canceled(def, shouldPause, events))
      && m.shouldTerminate == Some(Terminated(def, shouldPause, events))
  }

  lemma {:induction false} RunAsked(def: Definition, shouldPause: bool, events: seq<Event>)
    requires WellDefined(def)
    ensures var m := Begun(def, shouldPause, events); Inv(def, m) && Asked(def, shouldPause, events, m)
  {
    RunKeeps(def, shouldPause, events);
    if events != [] {
      var before, e := events[..|events| - 1], events[|events| - 1];
      RunAsked(def, shouldPause, before);
      StepAsked(def, Begun(def, shouldPause, before), e);
    }
  }

  lemma {:induction false} TrueOrFalse(request: Option<bool>)
    ensures request.Some? ==> request == Some(true) || request == Some(false)
  {
    if request.Some? {
      assert request == Some(request.value);
      if request.value {
        assert request == Some(true);
      }
    }
  }

  /** What a step does to the requests. */
  lemma {:induction false} StepAsked(def: Definition, m: Machine, e: Event)
    requires WellDefined(def) && Inv(def, m)
    ensures var m' := Step(def, m, e);
      if HasFinal(m.reports) then
        m'.reports == m.reports && m'.shouldTerminate.None? && m'.shouldCancel.None?
      else if HasFinal(m'.reports) then
        m'.shouldTerminate.None? && m'.shouldCancel.None?
      else
        && m'.shouldPause == (e.Pause? || (!e.Unpause? && m.shouldPause))
        && m'.shouldCancel
             == (if e.Cancel? && def.onCancel && !def.scope.InstantScope? then Some(true) else m.shouldCancel)
        && m'.shouldTerminate == (if e.Terminate? && def.scope.EdgeScope? then Some(true) else m.shouldTerminate)
  {
    if !HasFinal(m.reports) {
      assert m.shouldCancel.Some? && m.shouldTerminate.Some?;
      match e
      case Tick(t) => TickAsked(def, m, t);
      case Cancel => TrueOrFalse(m.shouldCancel);
      case Terminate => TrueOrFalse(m.shouldTerminate);
      case _ =>
    }
  }

  /** A tick reports at most one status, and forgets requests only with a final one. */
  lemma {:induction false} TickAsked(def: Definition, m: Machine, t: real)
    requires WellDefined(def) && Inv(def, m) && !HasFinal(m.reports)
    ensures var m' := OnTick(def, m, t);
      if HasFinal(m'.reports) then m'.shouldTerminate.None? && m'.shouldCancel.None?
      else
        m'.shouldPause == m.shouldPause && m'.shouldCancel == m.shouldCancel && m'.shouldTerminate == m.shouldTerminate
  {
  }

  // ---------- The first tick that counts ----------

  /** The action goes on, and the next tick neither starts it nor enters or leaves a pause. */
  predicate Free(def: Definition, shouldPause: bool, events: seq<Event>) {
    var reports := Begun(def, shouldPause, events).reports;
    && reports != [] && !HasFinal(reports)
    && (PauseAsked(shouldPause, events) <==> reports[|reports| - 1].Paused?)
  }

  /**
   Once a cancelation was accepted, the first such tick reports FAILED; with a termination and no cancelation it reports
   the status the definition names for it. Nothing is reported after that.
   */
  lemma {:induction false} RequestedEnd(def: Definition, shouldPause: bool, events: seq<Event>, t: real,
                                        more: seq<Event>)
    requires WellDefined(def) && Free(def, shouldPause, events)
    requires Canceled(def, shouldPause, events) || Terminated(def, shouldPause, events)
    ensures def.onTerminate.Some? || Canceled(def, shouldPause, events)
    ensures var m := Begun(def, shouldPause, events + [Tick(t)]);
      && m.reports == Begun(def, shouldPause, events).reports
           + [if Canceled(def, shouldPause, events) then Failed else def.onTerminate.value]
      && HasFinal(m.reports) && Run(def, m, more).reports == m.reports
  {
    RunAsked(def, shouldPause, events);
    RunOne(def, New(def, shouldPause), events, Tick(t));
    var m := Begun(def, shouldPause, events);
    CanceledFits(def, shouldPause, events);
    assert HasFinal(OnTick(def, m, t).reports);
    RunKeeps(def, shouldPause, events + [Tick(t)]);
    NothingAfterEnd(def, OnTick(def, m, t), more);
  }

  lemma {:induction false} CanceledFits(def: Definition, shouldPause: bool, events: seq<Event>)
    requires WellDefined(def)
    ensures Canceled(def, shouldPause, events) ==> def.onCancel && !def.scope.InstantScope?
    ensures Terminated(def, shouldPause, events) ==> def.scope.EdgeScope? && def.onTerminate.Some?
  {
    if events != [] {
      CanceledFits(def, shouldPause, events[..|events| - 1]);
    }
  }

  // ---------- The statuses on the way ----------

  /** Apart from pauses, the statuses `c` are the start of the path, but for a final status that was asked for. */
  predicate Along(path: seq<Status>, onInit: Status, c: seq<Status>, status: Option<Status>, onPause: Option<Status>) {
    match status
    case None => c == []
    case Some(s) =>
      if s.Paused? then c <= path && onPause == Some(if c == [] then onInit else c[|c| - 1])
      else c != [] && s == c[|c| - 1] && (if Ended(s) then c[..|c| - 1] else c) <= path
  }

  predicate OnPath(def: Definition, m: Machine)
    requires WellDefined(def)
  {
    Along(Path(def), def.onInit, Collapse(m.reports), m.status, m.statusOnPause)
  }

  lemma {:induction false} CollapseGrows(reports: seq<Status>, s: Status)
    ensures var c := Collapse(reports);
      Collapse(reports + [s]) == if s.Paused? || (c != [] && c[|c| - 1] == s) then c else c + [s]
  {
    CollapseOne(reports, s);
  }

  lemma {:induction false} NoneFinal(reports: seq<Status>)
    requires forall i :: 0 <= i < |reports| ==> !Ended(reports[i])
    ensures forall i :: 0 <= i < |Collapse(reports)| ==> !Ended(Collapse(reports)[i])
  {
    if reports != [] {
      NoneFinal(reports[..|reports| - 1]);
    }
  }

  /** The next status of the path is entered, or the last one again after a pause. */
  lemma {:induction false} EnterAlong(path: seq<Status>, onInit: Status, c: seq<Status>, s: Status, c': seq<Status>,
                                      onPause: Option<Status>)
    requires c <= path && !s.Paused? && (c + [s] <= path || (c != [] && s == c[|c| - 1]))
    requires c' == if c != [] && c[|c| - 1] == s then c else c + [s]
    ensures Along(path, onInit, c', Some(s), onPause) && c' <= path
  {
  }

  /** An end that was asked for. */
  lemma {:induction false} EndAlong(path: seq<Status>, onInit: Status, c: seq<Status>, s: Status, c': seq<Status>,
                                    onPause: Option<Status>)
    requires c <= path && Ended(s) && forall i :: 0 <= i < |c| ==> !Ended(c[i])
    requires c' == if c != [] && c[|c| - 1] == s then c else c + [s]
    ensures Along(path, onInit, c', Some(s), onPause)
  {
    assert (c + [s])[..|c|] == c;
  }

  lemma {:induction false} NextOnPath(def: Definition, c: seq<Status>, next: Status)
    requires WellDefined(def) && c <= Path(def) && c != []
    requires TransitionOf(def, c[|c| - 1]).Some? && TransitionOf(def, c[|c| - 1]).value.next == next
    ensures c + [next] <= Path(def)
  {
    PathStep(def, def.onInit, |c| - 1);
    OneFurther(c, Path(def));
  }

  lemma {:induction false} OneFurther(c: seq<Status>, path: seq<Status>)
    requires c <= path && |c| < |path|
    ensures c + [path[|c|]] <= path
  {
  }

  /** The action has not ended, and what it has been through so far. */
  ghost predicate GoingOn(def: Definition, m: Machine) {
    && WellDefined(def) && Inv(def, m) && OnPath(def, m)
    && (m.status.Some? ==> !Ended(m.status.value))
  }

  lemma {:induction false} GoesAlong(def: Definition, m: Machine)
    requires GoingOn(def, m)
    ensures var c := Collapse(m.reports); c <= Path(def) && forall i :: 0 <= i < |c| ==> !Ended(c[i])
    ensures m.shouldTerminate.Some? && m.shouldCancel.Some?
  {
    NoneFinal(m.reports);
  }

  lemma {:induction false} StartOnPath(def: Definition, m: Machine)
    requires GoingOn(def, m) && m.status.None?
    ensures OnPath(def, Enter(m, def.onInit)) && Collapse(Enter(m, def.onInit).reports) <= Path(def)
  {
    CollapseGrows(m.reports, def.onInit);
    EnterAlong(Path(def), def.onInit, [], def.onInit, Collapse(m.reports + [def.onInit]), m.statusOnPause);
  }

  lemma {:induction false} ResumeOnPath(def: Definition, m: Machine)
    requires GoingOn(def, m) && m.status == Some(Paused)
    ensures m.statusOnPause.Some?
    ensures var m' := Enter(m.(statusOnPause := None), m.statusOnPause.value);
      OnPath(def, m') && Collapse(m'.reports) <= Path(def)
  {
    var c, s := Collapse(m.reports), m.statusOnPause.value;
    CollapseGrows(m.reports, s);
    EnterAlong(Path(def), def.onInit, c, s, Collapse(m.reports + [s]), None);
  }

  lemma {:induction false} PauseOnPath(def: Definition, m: Machine)
    requires GoingOn(def, m) && m.status != Some(Paused)
    ensures var m' := Enter(m.(statusOnPause := Some(if m.status.Some? then m.status.value else def.onInit)), Paused);
      OnPath(def, m') && Collapse(m'.reports) <= Path(def)
  {
    CollapseGrows(m.reports, Paused);
    GoesAlong(def, m);
    PauseAlong(Path(def), def.onInit, Collapse(m.reports), m.status, m.statusOnPause);
  }

  lemma {:induction false} PauseAlong(path: seq<Status>, onInit: Status, c: seq<Status>, status: Option<Status>,
                                      onPause: Option<Status>)
    requires Along(path, onInit, c, status, onPause) && status != Some(Paused) && c <= path
    ensures Along(path, onInit, c, Some(Paused), Some(if status.Some? then status.value else onInit))
  {
  }

  lemma {:induction false} EndOnPath(def: Definition, m: Machine, s: Status)
    requires GoingOn(def, m) && Ended(s)
    ensures OnPath(def, Enter(m, s))
  {
    CollapseGrows(m.reports, s);
    GoesAlong(def, m);
    EndAlong(Path(def), def.onInit, Collapse(m.reports), s, Collapse(m.reports + [s]), m.statusOnPause);
  }

  lemma {:induction false} MoveOnPath(def: Definition, m: Machine, durations: map<Status, real>, next: Status)
    requires GoingOn(def, m) && m.status.Some? && !m.status.value.Paused? && !next.Paused?
    requires TransitionOf(def, m.status.value).Some? && TransitionOf(def, m.status.value).value.next == next
    ensures var m' := Enter(m.(durations := durations), next); OnPath(def, m') && Collapse(m'.reports) <= Path(def)
  {
    var c := Collapse(m.reports);
    NextOnPath(def, c, next);
    CollapseGrows(m.reports, next);
    EnterAlong(Path(def), def.onInit, c, next, Collapse(m.reports + [next]), m.statusOnPause);
  }

  lemma {:induction false} AdvanceOnPath(def: Definition, m: Machine, t: real)
    requires GoingOn(def, m) && m.status.Some? && !m.status.value.Paused?
    ensures OnPath(def, Advance(def, m, t)) && Collapse(Advance(def, m, t).reports) <= Path(def)
  {
    var s := m.status.value;
    var transition := TransitionOf(def, s);
    if transition.Some? && TransitionDuration(def, transition.value).Some?
      && m.durations[s] + t >= TransitionDuration(def, transition.value).value {
      MoveOnPath(def, m, m.durations[s := 0.0], transition.value.next);
    }
  }

  /** A tick goes on along the path, unless an end was asked for. */
  lemma {:induction false} TickOnPath(def: Definition, m: Machine, t: real)
    requires GoingOn(def, m)
    ensures OnPath(def, OnTick(def, m, t))
    ensures m.shouldCancel == Some(false) && m.shouldTerminate == Some(false) ==>
      Collapse(OnTick(def, m, t).reports) <= Path(def)
  {
    GoesAlong(def, m);
    if m.shouldPause && m.status != Some(Paused) {
      PauseOnPath(def, m);
    } else if !m.shouldPause && m.status == Some(Paused) {
      ResumeOnPath(def, m);
    } else if m.status.None? {
      StartOnPath(def, m);
    } else if m.shouldCancel.value && def.onCancel {
      EndOnPath(def, m, Failed);
    } else if m.shouldTerminate.value && def.onTerminate.Some? {
      EndOnPath(def, m, def.onTerminate.value);
    } else if !m.status.value.Paused? {
      AdvanceOnPath(def, m, t);
    }
  }

  // ---------- All runs ----------

  /** The final status is the one that was asked for, or the one at the end of the path. */
  ghost predicate EndsAs(def: Definition, canceled: bool, terminated: bool, reports: seq<Status>)
    requires WellDefined(def)
  {
    if canceled then HasFinal(reports) ==> reports[|reports| - 1].Failed?
    else if terminated then HasFinal(reports) ==> Some(reports[|reports| - 1]) == def.onTerminate
    else Collapse(reports) <= Path(def) && (HasFinal(reports) ==> Collapse(reports) == Path(def))
  }

  /** A path that was walked up to a final status was walked as a whole. */
  lemma {:induction false} WholePath(def: Definition, c: seq<Status>)
    requires WellDefined(def) && c != [] && c <= Path(def) && Ended(c[|c| - 1])
    ensures c == Path(def)
  {
    PathStep(def, def.onInit, |c| - 1);
  }

  lemma {:induction false} TickEnds(def: Definition, m: Machine, t: real)
    requires GoingOn(def, m)
    ensures EndsAs(def, m.shouldCancel == Some(true), m.shouldTerminate == Some(true), OnTick(def, m, t).reports)
  {
    if m.shouldCancel == Some(true) {
      CanceledTick(def, m, t);
    } else if m.shouldTerminate == Some(true) {
      TerminatedTick(def, m, t);
    } else {
      GoesAlong(def, m);
      TrueOrFalse(m.shouldCancel);
      TrueOrFalse(m.shouldTerminate);
      TickOnPath(def, m, t);
      TickKeeps(def, m, t);
      LastOnPath(def, OnTick(def, m, t));
    }
  }

  lemma {:induction false} LastOnPath(def: Definition, m: Machine)
    requires WellDefined(def) && Inv(def, m) && OnPath(def, m) && Collapse(m.reports) <= Path(def)
    ensures EndsAs(def, false, false, m.reports)
  {
    if HasFinal(m.reports) {
      WholePath(def, Collapse(m.reports));
    }
  }

  /** A pause is never left for a final status, except by an instant action that has no other. */
  lemma {:induction false} NotFinalYet(def: Definition, m: Machine)
    requires GoingOn(def, m) && !def.scope.InstantScope?
    ensures m.status == Some(Paused) ==> m.statusOnPause.Some? && !Ended(m.statusOnPause.value)
  {
    GoesAlong(def, m);
  }

  lemma {:induction false} CanceledTick(def: Definition, m: Machine, t: real)
    requires GoingOn(def, m) && m.shouldCancel == Some(true)
    ensures var r := OnTick(def, m, t).reports; HasFinal(r) ==> r[|r| - 1].Failed?
  {
    NotFinalYet(def, m);
  }

  lemma {:induction false} TerminatedTick(def: Definition, m: Machine, t: real)
    requires GoingOn(def, m) && m.shouldCancel != Some(true) && m.shouldTerminate == Some(true)
    ensures var r := OnTick(def, m, t).reports; HasFinal(r) ==> Some(r[|r| - 1]) == def.onTerminate
  {
    NotFinalYet(def, m);
    GoesAlong(def, m);
    TrueOrFalse(m.shouldCancel);
  }

  lemma {:induction false} RunOnPath(def: Definition, shouldPause: bool, events: seq<Event>)
    requires WellDefined(def)
    ensures var m := Begun(def, shouldPause, events);
      && OnPath(def, m)
      && EndsAs(def, Canceled(def, shouldPause, events), Terminated(def, shouldPause, events), m.reports)
  {
    if events != [] {
      var before, e := events[..|events| - 1], events[|events| - 1];
      var m := Begun(def, shouldPause, before);
      RunOnPath(def, shouldPause, before);
      RunAsked(def, shouldPause, before);
      if HasFinal(m.reports) {
        FinalStays(def, m, e);
      } else if e.Tick? {
        TickOnPath(def, m, e.realInterval);
        TickEnds(def, m, e.realInterval);
      } else {
        QuietStep(def, m, e);
      }
    }
  }

  lemma {:induction false} FinalStays(def: Definition, m: Machine, e: Event)
    requires WellDefined(def) && Inv(def, m) && OnPath(def, m) && HasFinal(m.reports)
    ensures OnPath(def, Step(def, m, e)) && Step(def, m, e).reports == m.reports
  {
  }

  lemma {:induction false} QuietStep(def: Definition, m: Machine, e: Event)
    requires WellDefined(def) && OnPath(def, m) && !e.Tick?
    ensures OnPath(def, Step(def, m, e)) && Step(def, m, e).reports == m.reports
  {
  }

  /**
   Whatever happens: an action for which a cancelation was accepted ends as FAILED, and one that was terminated and not
   canceled with the status its definition names for that. Without either, the statuses are those of the path, in order,
   and the action ends at the end of the path.
   */
  lemma {:induction false} OutcomeAsAsked(def: Definition, shouldPause: bool, events: seq<Event>)
    requires WellDefined(def)
    ensures var reports := Begun(def, shouldPause, events).reports;
      if Canceled(def, shouldPause, events) then HasFinal(reports) ==> reports[|reports| - 1].Failed?
      else if Terminated(def, shouldPause, events) then
        HasFinal(reports) ==> Some(reports[|reports| - 1]) == def.onTerminate
      else Collapse(reports) <= Path(def) && (HasFinal(reports) ==> Collapse(reports) == Path(def))
  {
    RunOnPath(def, shouldPause, events);
  }

  // ---------- Pauses ----------

  /** While a pause lasts and no end is asked for, ticks change nothing. */
  lemma {:induction false} PausedStays(def: Definition, shouldPause: bool, events: seq<Event>, t: real)
    requires WellDefined(def) && PauseAsked(shouldPause, events)
    requires !Canceled(def, shouldPause, events) && !Terminated(def, shouldPause, events)
    ensures var m, m' := Begun(def, shouldPause, events), Begun(def, shouldPause, events + [Tick(t)]);
      && (m.status == Some(Paused) ==> m' == m)
      && (m.status != Some(Paused) && !HasFinal(m.reports) ==>
            m'.reports == m.reports + [Paused] && m'.durations == m.durations)
  {
    RunAsked(def, shouldPause, events);
    RunOne(def, New(def, shouldPause), events, Tick(t));
  }

  // ---------- Durations given as parameters ----------

  /** The duration that is meant: the given parameter, or else the default. */
  predicate SameDuration(def: Definition, d: DurationTime, e: DurationTime) {
    match d
    case Parameter(key, default) =>
      if key in def.parameters then e == Seconds(def.parameters[key]) else e == Seconds(default)
    case _ => e == d
  }

  predicate SameTransition(def: Definition, t: Option<Transition>, u: Option<Transition>) {
    (t.None? <==> u.None?)
    && (t.Some? ==> t.value.next == u.value.next && SameDuration(def, t.value.durationTime, u.value.durationTime))
  }

  /** `plain` is `def` with the durations written out. */
  predicate WrittenOut(def: Definition, plain: Definition) {
    && SameTransition(def, def.initializing, plain.initializing)
    && SameTransition(def, def.running, plain.running)
    && plain == def.(initializing := plain.initializing, running := plain.running)
  }

  /** A given action parameter beats the default: under any events the action is as with the duration written out. */
  lemma {:induction false} ParameterBeatsDefault(def: Definition, plain: Definition, shouldPause: bool,
                                                 events: seq<Event>)
    requires WrittenOut(def, plain)
    ensures Begun(plain, shouldPause, events) == Begun(def, shouldPause, events)
  {
    if events != [] {
      ParameterBeatsDefault(def, plain, shouldPause, events[..|events| - 1]);
      var m := Begun(def, shouldPause, events[..|events| - 1]);
      if m.status.Some? {
        TransitionSame(def, plain, m.status.value);
      }
    }
  }

  lemma {:induction false} TransitionSame(def: Definition, plain: Definition, s: Status)
    requires WrittenOut(def, plain)
    ensures var t, u := TransitionOf(def, s), TransitionOf(plain, s);
      && (t.None? <==> u.None?)
      && (t.Some? ==>
            t.value.next == u.value.next && TransitionDuration(def, t.value) == TransitionDuration(plain, u.value))
  {
  }
}
