/** The state machine of a virtual action in its imperative form. Every method is one step of `VirtualActions`. */
module VirtualMachines {
  import opened Orders
  import opened VirtualActions

  class VirtualActionStateMachine {
    const definition: Definition
    var actionStatus: Option<Status>
    var actionStatusOnPause: Option<Status>
    var shouldTerminate: Option<bool>
    var shouldCancel: Option<bool>
    var shouldPause: bool
    var statusDurationTimes: map<Status, real>
    var reports: seq<Status>                 // calls of updateActionStatus
    var finalized: nat                       // calls of the finalizer

    function Value(): Machine
      reads this
    {
      Machine(actionStatus, actionStatusOnPause, shouldTerminate, shouldCancel, shouldPause, statusDurationTimes,
              reports)
    }

    /** The action has been finalized exactly if its final status has been reported. */
    ghost predicate Valid()
      reads this
    {
      && WellDefined(definition) && Inv(definition, Value())
      && finalized == (if actionStatus.Some? && Ended(actionStatus.value) then 1 else 0)
    }

    constructor (definition: Definition, shouldPause: bool)
      requires WellDefined(definition)
      ensures Valid() && this.definition == definition && Value() == New(definition, shouldPause)
    {
      this.definition := definition;
      actionStatus, actionStatusOnPause := None, None;
      shouldTerminate, shouldCancel := Some(false), Some(false);
      this.shouldPause := shouldPause;
      statusDurationTimes := map[Initializing := 0.0, Running := 0.0];
      reports, finalized := [], 0;
    }

    method Transition(status: Status)
      modifies this
      ensures Value() == Enter(old(Value()), status)
      ensures finalized == old(finalized) + (if Ended(status) then 1 else 0)
    {
      actionStatus := Some(status);
      if Ended(status) {
        shouldTerminate := None;
        shouldCancel := None;
        shouldPause := false;
        finalized := finalized + 1;
      }
      reports := reports + [status];
    }

    method Tick(realInterval: real)
      requires Valid()
      modifies this
      ensures Valid() && Value() == OnTick(definition, old(Value()), realInterval)
    {
      TickKeeps(definition, Value(), realInterval);
      if shouldTerminate.None? || shouldCancel.None? {
        return;
      }
      if shouldPause && actionStatus != Some(Paused) {
        actionStatusOnPause := Some(if actionStatus.Some? then actionStatus.value else definition.onInit);
        Transition(Paused);
        return;
      }
      if !shouldPause && actionStatus == Some(Paused) {
        var resumedStatus := actionStatusOnPause.value;
        actionStatusOnPause := None;
        Transition(resumedStatus);
        return;
      }
      if actionStatus.None? {
        Transition(definition.onInit);
        return;
      }
      if shouldCancel.value && definition.onCancel {
        Transition(Failed);
        return;
      }
      if shouldTerminate.value {
        Transition(definition.onTerminate.value);
        return;
      }
      if actionStatus == Some(Paused) {
        return;
      }
      Elapse(realInterval);
    }

    /** Time passes in a status with a transition. */
    method Elapse(realInterval: real)
      requires actionStatus.Some? && actionStatus.value in statusDurationTimes
      modifies this
      ensures Value() == Advance(definition, old(Value()), realInterval)
      ensures finalized == old(finalized)
        + (if actionStatus != old(actionStatus) && Ended(actionStatus.value) then 1 else 0)
    {
      var status := actionStatus.value;
      var transition := TransitionOf(definition, status);
      var duration := statusDurationTimes[status] + realInterval;
      if transition.Some? {
        var transitionDuration := TransitionDuration(definition, transition.value);
        if transitionDuration.Some? && duration >= transitionDuration.value {
          statusDurationTimes := statusDurationTimes[status := 0.0];
          Transition(transition.value.next);
          return;
        }
      }
      statusDurationTimes := statusDurationTimes[status := duration];
    }

    method Terminate()
      requires Valid()
      modifies this
      ensures Valid() && Value() == Step(definition, old(Value()), Event.Terminate)
    {
      StepKeeps(definition, Value(), Event.Terminate);
      if !definition.scope.EdgeScope? || shouldTerminate != Some(false) {
        return;
      }
      shouldTerminate := Some(true);
    }

    method Cancel()
      requires Valid()
      modifies this
      ensures Valid() && Value() == Step(definition, old(Value()), Event.Cancel)
    {
      StepKeeps(definition, Value(), Event.Cancel);
      if definition.scope.InstantScope? || shouldCancel != Some(false) || !definition.onCancel {
        return;
      }
      shouldCancel := Some(true);
    }

    method Pause()
      requires Valid()
      modifies this
      ensures Valid() && Value() == Step(definition, old(Value()), Event.Pause)
    {
      StepKeeps(definition, Value(), Event.Pause);
      shouldPause := true;
    }

    method Unpause()
      requires Valid()
      modifies this
      ensures Valid() && Value() == Step(definition, old(Value()), Event.Unpause)
    {
      StepKeeps(definition, Value(), Event.Unpause);
      shouldPause := false;
    }
  }
}
