/** The one-shot sensors: a thread that polls the touch controller with its lock released, and calls
    that interrupt it through a pipe. The two sensors run the same loop. */
module OneShot {

  /** Where the thread stands: at the top of its loop with the lock held, waiting on the condition
      variable, inside poll, back from poll but without the lock, or gone. */
  datatype Phase = Top | Waiting | Polling | Returned(failed: bool, touched: bool, interrupted: bool) | Gone

  /** pipe counts unread bytes. interrupts counts mode changes that have yet to write theirs. posted and
      activations are books: events posted by the thread, and times the sensor was switched on. */
  datatype Sensor = Sensor(
    enabled: bool, injecting: bool, stop: bool, pipe: nat, interrupts: nat,
    phase: Phase, posted: nat, activations: nat)

  const START := Sensor(false, false, false, 0, 0, Top, 0, 0)

  datatype Step =
    | Activate(enable: bool)
    | SetOperationMode(injecting: bool)   // the mode is set under the lock,
    | Interrupt                           // the byte is written after it
    | Enter
    | WakeUp
    | PollReturns(failed: bool, touched: bool)
    | Process(confirmed: bool)

  predicate MaySample(s: Sensor) {
    s.enabled && !s.injecting
  }

  /** poll has no timeout: it returns because it fails, the controller reports, or a byte is there. */
  predicate Enabled(s: Sensor, step: Step) {
    match step
    case Activate(_) => true
    case SetOperationMode(_) => true
    case Interrupt => s.interrupts > 0
    case Enter => s.phase.Top?
    case WakeUp => s.phase.Waiting? && (MaySample(s) || s.stop)
    case PollReturns(failed, touched) => s.phase.Polling? && (failed || touched || s.pipe > 0)
    case Process(_) => s.phase.Returned?
  }

  /** The thread posts an event: the controller reported and its state file agrees. */
  predicate Posts(s: Sensor, step: Step) {
    step.Process? && s.phase.Returned? && !s.phase.failed && s.phase.touched && step.confirmed
  }

  function Next(s: Sensor, step: Step): Sensor
    requires Enabled(s, step)
  {
    match step
    case Activate(enable) =>
      if s.enabled == enable then s
      else s.(enabled := enable, pipe := s.pipe + 1, activations := s.activations + if enable then 1 else 0)
    case SetOperationMode(injecting) => s.(injecting := injecting, interrupts := s.interrupts + 1)
    case Interrupt => s.(pipe := s.pipe + 1, interrupts := s.interrupts - 1)
    case Enter =>
      s.(phase := if s.stop then Gone else if MaySample(s) then Polling else Waiting)
    case WakeUp => s.(phase := Top)
    case PollReturns(failed, touched) => s.(phase := Returned(failed, touched, s.pipe > 0))
    case Process(confirmed) =>
      var back := s.(phase := Top);
      if s.phase.failed then back.(stop := true)
      else if s.phase.touched && confirmed then back.(enabled := false, posted := s.posted + 1)
      else if s.phase.interrupted && s.pipe > 0 then back.(pipe := s.pipe - 1)
      else back
  }

  /** The thread is past the check that the sensor is on. */
  predicate Committed(s: Sensor) {
    s.phase.Polling? || s.phase.Returned?
  }

  predicate Inv(s: Sensor) {
    && s.posted + (if s.enabled || Committed(s) then 1 else 0) <= s.activations
    && (s.phase.Polling? && !s.enabled ==> s.pipe > 0)
    && (s.phase.Polling? && s.injecting ==> s.pipe > 0 || s.interrupts > 0)
    && (s.phase.Returned? && s.phase.interrupted ==> s.pipe > 0)
  }

  lemma StepInv(s: Sensor, step: Step)
    requires Inv(s) && Enabled(s, step)
    ensures Inv(Next(s, step))
  {
  }

  function Do(s: Sensor, step: Step): Sensor {
    if Enabled(s, step) then Next(s, step) else s
  }

  function Run(steps: seq<Step>): Sensor {
    if steps == [] then START else Do(Run(steps[..|steps| - 1]), steps[|steps| - 1])
  }

  lemma RunAppend(steps: seq<Step>, step: Step)
    ensures Run(steps + [step]) == Do(Run(steps), step)
  {
    assert (steps + [step])[..|steps|] == steps;
  }

  lemma {:induction false} AlwaysInv(steps: seq<Step>)
    ensures Inv(Run(steps))
  {
    if steps != [] {
      AlwaysInv(steps[..|steps| - 1]);
      var s, step := Run(steps[..|steps| - 1]), steps[|steps| - 1];
      if Enabled(s, step) {
        StepInv(s, step);
      }
    }
  }

  /** In every run the thread has posted no more events than the sensor was switched on. */
  lemma NoMoreEventsThanActivations(steps: seq<Step>)
    ensures Run(steps).posted <= Run(steps).activations
  {
    AlwaysInv(steps);
  }

  /** A thread that polls for a sensor that must not sample can always be got out of it: a byte is
      there, or a mode change is about to write one. */
  lemma NeverStuckInPoll(steps: seq<Step>)
    requires Run(steps).phase.Polling? && !MaySample(Run(steps))
    ensures var s := Run(steps);
            || (s.pipe > 0 && Enabled(s, PollReturns(false, false)))
            || (s.interrupts > 0 && s.enabled && Enabled(Do(s, Interrupt), PollReturns(false, false)))
  {
    AlwaysInv(steps);
  }

  /** Then three steps of the thread take it to where it waits to be switched on again. */
  lemma OffReachesWait(steps: seq<Step>)
    requires Run(steps).phase.Polling? && !Run(steps).enabled && !Run(steps).stop
    ensures var s := Run(steps);
            var r := Do(Do(Do(s, PollReturns(false, false)), Process(false)), Enter);
            r.phase.Waiting? && r.pipe == s.pipe - 1 && r.posted == s.posted
  {
    AlwaysInv(steps);
  }

  // ---------------------------------------------------------------- what the steps of a run amount to

  /** The last operation mode set, and whether poll has failed. */
  predicate Injecting(steps: seq<Step>) {
    steps != [] &&
      match steps[|steps| - 1]
      case SetOperationMode(injecting) => injecting
      case _ => Injecting(steps[..|steps| - 1])
  }

  predicate PollFailed(steps: seq<Step>) {
    steps != [] &&
      var before := steps[..|steps| - 1];
      || PollFailed(before)
      || (steps[|steps| - 1].Process? && Run(before).phase.Returned? && Run(before).phase.failed)
  }

  /** Whether the sensor was switched on last, and no touch was posted since. */
  predicate On(steps: seq<Step>) {
    steps != [] &&
      var before, step := steps[..|steps| - 1], steps[|steps| - 1];
      if step.Activate? then step.enable else On(before) && !Posts(Run(before), step)
  }

  lemma StepFlags(s: Sensor, step: Step)
    ensures var r := Do(s, step);
            && r.injecting == (if step.SetOperationMode? then step.injecting else s.injecting)
            && r.stop == (s.stop || (step.Process? && s.phase.Returned? && s.phase.failed))
            && r.enabled == if step.Activate? then step.enable else s.enabled && !Posts(s, step)
  {
  }

  lemma {:induction false} FlagsFollowSteps(steps: seq<Step>)
    ensures var s := Run(steps);
            s.injecting == Injecting(steps) && s.stop == PollFailed(steps) && s.enabled == On(steps)
  {
    if steps != [] {
      FlagsFollowSteps(steps[..|steps| - 1]);
      StepFlags(Run(steps[..|steps| - 1]), steps[|steps| - 1]);
    }
  }

  /** At the top of its loop the thread polls exactly for a sensor that is on and not injecting, ends if a
      poll has failed, and else waits, until the sensor is to be sampled or the thread to end. */
  lemma TopLeadsTo(steps: seq<Step>)
    requires Run(steps).phase == Top
    ensures var s, r := Run(steps), Run(steps + [Enter]);
            && (PollFailed(steps) ==> r == s.(phase := Gone))
            && (!PollFailed(steps) && On(steps) && !Injecting(steps) ==> r == s.(phase := Polling))
            && (!PollFailed(steps) && (!On(steps) || Injecting(steps)) ==> r == s.(phase := Waiting))
  {
    FlagsFollowSteps(steps);
    RunAppend(steps, Enter);
  }

  lemma WaitEndsIff(steps: seq<Step>)
    requires Run(steps).phase == Waiting
    ensures Run(steps + [WakeUp]).phase == Top <==> PollFailed(steps) || (On(steps) && !Injecting(steps))
  {
    FlagsFollowSteps(steps);
    RunAppend(steps, WakeUp);
  }

  /** poll returns if it fails, the controller reports or a byte is there, and not before; what it reports
      is what the thread gets to see. */
  lemma PollReturnsIff(steps: seq<Step>, failed: bool, touched: bool)
    requires Run(steps).phase == Polling
    ensures var s, r := Run(steps), Run(steps + [PollReturns(failed, touched)]);
            r == if failed || touched || s.pipe > 0 then s.(phase := Returned(failed, touched, s.pipe > 0)) else s
  {
    RunAppend(steps, PollReturns(failed, touched));
  }

  /** What the thread does with poll's result once it has its lock back: a failure ends it; a touch the
      state file confirms is posted; else a byte is read if poll saw one. */
  lemma ResultLeadsTo(steps: seq<Step>, confirmed: bool)
    requires Run(steps).phase.Returned?
    ensures var s, r := Run(steps), Run(steps + [Process(confirmed)]);
            var touch := s.phase.touched && confirmed;
            && r.phase == Top
            && (s.phase.failed ==> r == s.(phase := Top, stop := true))
            && (!s.phase.failed && touch ==> r == s.(phase := Top, enabled := false, posted := s.posted + 1))
            && (!s.phase.failed && !touch && s.phase.interrupted ==>
                  s.pipe > 0 && r == s.(phase := Top, pipe := s.pipe - 1))
            && (!s.phase.failed && !touch && !s.phase.interrupted ==> r == s.(phase := Top))
  {
    AlwaysInv(steps);
    RunAppend(steps, Process(confirmed));
  }

  /** Bytes the calls have written or are about to write. */
  function Writes(steps: seq<Step>): nat {
    if steps == [] then 0
    else
      var before, step := steps[..|steps| - 1], steps[|steps| - 1];
      Writes(before)
        + if step.SetOperationMode? || (step.Activate? && step.enable != On(before)) then 1 else 0
  }

  /** Bytes the thread has read. */
  function BytesRead(steps: seq<Step>): nat {
    if steps == [] then 0
    else
      var before, step := steps[..|steps| - 1], steps[|steps| - 1];
      var s := Run(before);
      BytesRead(before)
        + if step.Process? && s.phase.Returned? && !s.phase.failed && !(s.phase.touched && step.confirmed)
             && s.phase.interrupted then 1 else 0
  }

  lemma StepBytes(s: Sensor, step: Step)
    requires Inv(s)
    ensures var r := Do(s, step);
            r.pipe + r.interrupts == s.pipe + s.interrupts
              + (if step.SetOperationMode? || (step.Activate? && step.enable != s.enabled) then 1 else 0)
              - if step.Process? && s.phase.Returned? && !s.phase.failed && !(s.phase.touched && step.confirmed)
                   && s.phase.interrupted then 1 else 0
  {
  }

  /** Over every run, each switch of the sensor and each mode set is a byte, in the pipe, about to be
      written to it, or read. */
  lemma {:induction false} BytesAddUp(steps: seq<Step>)
    ensures Run(steps).pipe + Run(steps).interrupts + BytesRead(steps) == Writes(steps)
  {
    if steps != [] {
      BytesAddUp(steps[..|steps| - 1]);
      AlwaysInv(steps[..|steps| - 1]);
      FlagsFollowSteps(steps[..|steps| - 1]);
      StepBytes(Run(steps[..|steps| - 1]), steps[|steps| - 1]);
    }
  }

  // ---------------------------------------------------------------- events after the sensor is off

  /** Steps that leave the thread where it is between poll and its lock. */
  predicate CallsOnly(steps: seq<Step>) {
    forall step :: step in steps ==> step.Activate? || step.SetOperationMode? || step.Interrupt?
  }

  function RunFrom(s: Sensor, steps: seq<Step>): Sensor {
    if steps == [] then s else Do(RunFrom(s, steps[..|steps| - 1]), steps[|steps| - 1])
  }

  /** The last word of a list of activate calls. */
  function LastCall(on: bool, steps: seq<Step>): bool {
    if steps == [] then on
    else if steps[|steps| - 1].Activate? then steps[|steps| - 1].enable
    else LastCall(on, steps[..|steps| - 1])
  }

  lemma {:induction false} CallsOnlyRun(s: Sensor, steps: seq<Step>)
    requires CallsOnly(steps)
    ensures RunFrom(s, steps).phase == s.phase && RunFrom(s, steps).enabled == LastCall(s.enabled, steps)
  {
    if steps != [] {
      assert steps[|steps| - 1] in steps;
      CallsOnlyRun(s, steps[..|steps| - 1]);
    }
  }

  /** The thread does not look again: whatever calls arrive between poll and its lock, a touch that is
      confirmed is posted, and it is posted for a sensor that is off exactly if the last of them, or
      the state before, says so. */
  lemma TouchIsPostedWhateverIsCalled(s: Sensor, calls: seq<Step>)
    requires s.phase.Polling? && CallsOnly(calls)
    ensures var t := RunFrom(Next(s, PollReturns(false, true)), calls);
            && Enabled(t, Process(true)) && Posts(t, Process(true))
            && Next(t, Process(true)).posted == t.posted + 1
            && (!t.enabled <==> !LastCall(s.enabled, calls))
  {
    CallsOnlyRun(Next(s, PollReturns(false, true)), calls);
  }

  /** So a sensor that was switched off before the event still posts it. */
  lemma EventAfterOff()
    ensures exists steps, last ::
              && !Run(steps).enabled && Enabled(Run(steps), last) && Posts(Run(steps), last)
  {
    var s1 := [Activate(true)];
    var s2 := s1 + [Enter];
    var s3 := s2 + [PollReturns(false, true)];
    var s4 := s3 + [Activate(false)];
    assert s1[..0] == [] && s2[..1] == s1 && s3[..2] == s2 && s4[..3] == s3;
    assert Run(s1) == START.(enabled := true, pipe := 1, activations := 1);
    assert Run(s2) == Run(s1).(phase := Polling);
    assert Run(s3) == Run(s2).(phase := Returned(false, true, true));
    assert Run(s4) == Run(s3).(enabled := false, pipe := 2);
    assert Posts(Run(s4), Process(true));
  }

  // ---------------------------------------------------------------- an activation that is lost

  /** Calls that switch the sensor on while it is off start another activation. */
  lemma {:induction false} StartsAnotherIff(s: Sensor, calls: seq<Step>)
    requires CallsOnly(calls)
    ensures var t := RunFrom(s, calls);
            && s.activations <= t.activations
            && (!t.enabled && s.enabled ==> Activate(false) in calls)
            && (t.enabled ==> (t.activations > s.activations <==> !s.enabled || Activate(false) in calls))
  {
    if calls != [] {
      var init, last := calls[..|calls| - 1], calls[|calls| - 1];
      assert calls == init + [last] && last in calls;
      assert forall c :: c in calls <==> c in init || c == last;
      StartsAnotherIff(s, init);
      CallsOnlyRun(s, init);
    }
  }

  /** The last call leaves the sensor on, and it was off at some time during the calls. */
  predicate LostActivation(on: bool, calls: seq<Step>) {
    LastCall(on, calls) && (on ==> Activate(false) in calls)
  }

  /** The touch the thread brings back from poll switches the sensor off, whatever it was switched on for
      since. That ends an activation made after the touch, which will have no event of its own, exactly
      if the calls in between amount to one. */
  lemma ActivationLostIff(s: Sensor, calls: seq<Step>)
    requires s.phase.Polling? && CallsOnly(calls)
    ensures var t := RunFrom(Next(s, PollReturns(false, true)), calls);
            && ((t.enabled && t.activations > s.activations) <==> LostActivation(s.enabled, calls))
            && Enabled(t, Process(true)) && Posts(t, Process(true))
            && !Next(t, Process(true)).enabled
            && Next(t, Process(true)).activations == t.activations
  {
    CallsOnlyRun(Next(s, PollReturns(false, true)), calls);
    StartsAnotherIff(Next(s, PollReturns(false, true)), calls);
  }

  /** The sensor is switched off and on again before the thread, back with a touch, has its lock: two
      activations, one event, which was there before the second of them, and the sensor is off. */
  lemma ActivationLost()
    ensures var back := [Activate(true)] + [Enter] + [PollReturns(false, true)];
            var again := back + [Activate(false)] + [Activate(true)];
            && Run(back).activations == 1 && Run(again).activations == 2 && Run(again).enabled
            && var s := Run(again + [Process(true)]);
               s.activations == 2 && s.posted == 1 && !s.enabled && Next(s, Enter).phase.Waiting?
  {
    var s2 := [Activate(true)] + [Enter];
    var s3 := s2 + [PollReturns(false, true)];
    RunAppend([], Activate(true));
    assert [] + [Activate(true)] == [Activate(true)];
    RunAppend([Activate(true)], Enter);
    RunAppend(s2, PollReturns(false, true));
    RunAppend(s3, Activate(false));
    RunAppend(s3 + [Activate(false)], Activate(true));
    RunAppend(s3 + [Activate(false)] + [Activate(true)], Process(true));
  }

  /** Times the sensor was switched off by a call, and events posted for a sensor that was off. */
  function Offs(steps: seq<Step>): nat {
    if steps == [] then 0
    else
      var before, last := steps[..|steps| - 1], steps[|steps| - 1];
      Offs(before) + if last == Activate(false) && Run(before).enabled then 1 else 0
  }

  function Late(steps: seq<Step>): nat {
    if steps == [] then 0
    else
      var before, last := steps[..|steps| - 1], steps[|steps| - 1];
      Late(before) + if Posts(Run(before), last) && !Run(before).enabled then 1 else 0
  }

  /** Over every run, each activation is still in force, or was ended by a call or by an event; the
      other events came too late to end one. */
  lemma {:induction false} ActivationsAddUp(steps: seq<Step>)
    ensures var s := Run(steps);
            s.activations + Late(steps) == Offs(steps) + s.posted + if s.enabled then 1 else 0
  {
    if steps != [] {
      ActivationsAddUp(steps[..|steps| - 1]);
    }
  }

  // ---------------------------------------------------------------- the sensor

  class OneShotSensor {
    var isEnabled: bool
    var injecting: bool
    var stopThread: bool
    var pipe: nat
    var interrupts: nat
    var phase: Phase
    ghost var posted: nat
    ghost var activations: nat

    ghost function State(): Sensor
      reads this
    {
      Sensor(isEnabled, injecting, stopThread, pipe, interrupts, phase, posted, activations)
    }

    constructor ()
      ensures State() == START
    {
      isEnabled, injecting, stopThread, pipe, interrupts, phase := false, false, false, 0, 0, Top;
      posted, activations := 0, 0;
    }

    method InterruptPoll()
      modifies this`pipe
      ensures pipe == old(pipe) + 1
    {
      pipe := pipe + 1;
    }

    method DoActivate(enable: bool)
      modifies this
      ensures State() == Next(old(State()), Activate(enable))
    {
      if isEnabled != enable {
        isEnabled := enable;
        InterruptPoll();
        activations := activations + if enable then 1 else 0;
      }
    }

    method DoSetOperationMode(mode: bool)
      modifies this
      ensures State() == Next(old(State()), SetOperationMode(mode))
    {
      if injecting != mode {
        injecting := mode;
      }
      interrupts := interrupts + 1;
    }

    method DoInterrupt()
      requires Enabled(State(), Interrupt)
      modifies this
      ensures State() == Next(old(State()), Interrupt)
    {
      interrupts := interrupts - 1;
      InterruptPoll();
    }

    method RunEnter()
      requires Enabled(State(), Enter)
      modifies this
      ensures State() == Next(old(State()), Enter)
    {
      if stopThread {
        phase := Gone;
      } else if !isEnabled || injecting {
        phase := Waiting;
      } else {
        phase := Polling;
      }
    }

    method RunWakeUp()
      requires Enabled(State(), WakeUp)
      modifies this
      ensures State() == Next(old(State()), WakeUp)
    {
      phase := Top;
    }

    method RunPollReturns(failed: bool, touched: bool)
      requires Enabled(State(), PollReturns(failed, touched))
      modifies this
      ensures State() == Next(old(State()), PollReturns(failed, touched))
    {
      phase := Returned(failed, touched, pipe > 0);
    }

    /** With the lock held again. */
    method RunProcess(confirmed: bool) returns (post: bool)
      requires Enabled(State(), Process(confirmed)) && Inv(State())
      modifies this
      ensures State() == Next(old(State()), Process(confirmed))
      ensures post == old(Posts(State(), Process(confirmed)))
    {
      var result := phase;
      phase, post := Top, false;
      if result.failed {
        stopThread := true;
      } else if result.touched && confirmed {
        isEnabled := false;
        post, posted := true, posted + 1;
      } else if result.interrupted {
        pipe := pipe - 1;
      }
    }
  }
}
