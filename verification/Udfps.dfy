/** The handshake of the under-display fingerprint reader: the finger-down command waits until the
    display reports its illumination, and a worker thread does the waiting. */
module Udfps {

  datatype Command = Down | Up

  /** Everything observable, in order: the two calls, and the commands to the fingerprint device. */
  datatype Entry = Ready | Released | Sent(command: Command)

  /** Outside holds no lock or waits for a request; Polling sleeps between two looks at the display. */
  datatype Worker = Outside | Polling(deadline: int, requestId: nat)

  /** What a look at the display's state file yields. */
  datatype Reading = Unreadable | Value(ready: int)

  /** clock, requestedAt and readyAt are books: the last time seen, and when, and as which entry of the
      log, the latest accepted request was made. Times are in nanoseconds. */
  datatype Handler = Handler(
    stopped: bool, fingerDown: bool, pending: bool, requestId: nat,
    worker: Worker, log: seq<Entry>,
    clock: int, requestedAt: int, readyAt: nat)

  const START := Handler(false, false, false, 0, Outside, [], 0, 0, 0)
  const PATIENCE := 500_000_000

  datatype Step =
    | UiReady(waitForIllumination: bool, now: int)
    | FingerUp
    | Shutdown
    | PickUp(now: int)
    | Turn(reading: Reading, now: int)

  predicate Enabled(h: Handler, step: Step) {
    match step
    case UiReady(_, now) => h.clock <= now
    case PickUp(now) => h.worker.Outside? && h.pending && !h.stopped && h.clock <= now
    case Turn(_, now) => h.worker.Polling? && h.clock <= now
    case _ => true
  }

  function Send(h: Handler, command: Command): Handler {
    h.(log := h.log + [Sent(command)])
  }

  function Next(h: Handler, step: Step): Handler
    requires Enabled(h, step)
  {
    match step
    case UiReady(waitForIllumination, now) =>
      var called := h.(log := h.log + [Ready], clock := now);
      if h.fingerDown then called
      else
        var asked := called.(fingerDown := true, requestId := h.requestId + 1,
                             requestedAt := now, readyAt := |h.log|);
        if waitForIllumination then asked.(pending := true) else Send(asked, Down)
    case FingerUp =>
      Send(h.(fingerDown := false, pending := false, requestId := h.requestId + 1,
              log := h.log + [Released]), Up)
    case Shutdown => h.(stopped := true)
    case PickUp(now) => h.(worker := Polling(now + PATIENCE, h.requestId), clock := now)
    case Turn(reading, now) =>
      var looked := h.(clock := now);
      if h.stopped || !h.pending || h.worker.requestId != h.requestId then looked.(worker := Outside)
      else if reading == Value(1) then Send(looked.(pending := false, worker := Outside), Down)
      else if reading.Unreadable? || now >= h.worker.deadline then
        looked.(pending := false, worker := Outside)
      else looked
  }

  // ---------------------------------------------------------------- what every step keeps

  /** The last command sent was a finger-down. */
  function IsDown(log: seq<Entry>): bool {
    if log == [] then false
    else if log[|log| - 1].Sent? then log[|log| - 1].command == Down
    else IsDown(log[..|log| - 1])
  }

  /** Since entry i, a call of onUiReady, the finger has not gone up and no finger-down was sent. */
  ghost predicate Open(log: seq<Entry>, i: nat) {
    && i < |log| && log[i] == Ready
    && forall k :: i < k < |log| ==> log[k] == Ready
  }

  /** Every finger-down answers a call of onUiReady of its own, with no onFingerUp in between. */
  ghost predicate Licensed(log: seq<Entry>) {
    forall j :: 0 <= j < |log| && log[j] == Sent(Down) ==> exists i: nat :: i < j && Open(log[..j], i)
  }

  ghost predicate Inv(h: Handler) {
    && (h.pending ==> h.fingerDown && !IsDown(h.log) && Open(h.log, h.readyAt))
    && (IsDown(h.log) ==> h.fingerDown && !h.pending)
    && Licensed(h.log)
    && h.requestedAt <= h.clock
    && (h.worker.Polling? ==>
          && h.worker.requestId <= h.requestId
          && (h.pending && h.worker.requestId == h.requestId ==> h.worker.deadline >= h.requestedAt + PATIENCE))
  }

  lemma IsDownAppend(log: seq<Entry>, e: Entry)
    ensures IsDown(log + [e]) == if e.Sent? then e.command == Down else IsDown(log)
  {
    assert (log + [e])[..|log|] == log;
  }

  lemma LicensedAppend(log: seq<Entry>, e: Entry, i: nat)
    requires Licensed(log) && (e == Sent(Down) ==> Open(log, i))
    ensures Licensed(log + [e])
  {
    var r := log + [e];
    forall j | 0 <= j < |r| && r[j] == Sent(Down)
      ensures exists i: nat :: i < j && Open(r[..j], i)
    {
      if j < |log| {
        assert r[..j] == log[..j];
      } else {
        assert r[..j] == log && Open(r[..j], i);
      }
    }
  }

  lemma CallInv(h: Handler, step: Step)
    requires Inv(h) && Enabled(h, step) && !step.Turn?
    ensures Inv(Next(h, step))
  {
    var r := Next(h, step);
    match step
    case UiReady(waitForIllumination, _) =>
      IsDownAppend(h.log, Ready);
      LicensedAppend(h.log, Ready, 0);
      if !h.fingerDown && !waitForIllumination {
        IsDownAppend(h.log + [Ready], Sent(Down));
        LicensedAppend(h.log + [Ready], Sent(Down), |h.log|);
      }
    case FingerUp =>
      IsDownAppend(h.log + [Released], Sent(Up));
      LicensedAppend(h.log, Released, 0);
      LicensedAppend(h.log + [Released], Sent(Up), 0);
    case _ =>
  }

  lemma TurnInv(h: Handler, step: Step)
    requires Inv(h) && Enabled(h, step) && step.Turn?
    ensures Inv(Next(h, step))
  {
    if h.pending {
      IsDownAppend(h.log, Sent(Down));
      LicensedAppend(h.log, Sent(Down), h.readyAt);
    }
  }

  function Do(h: Handler, step: Step): Handler {
    if Enabled(h, step) then Next(h, step) else h
  }

  function Run(steps: seq<Step>): Handler {
    if steps == [] then START else Do(Run(steps[..|steps| - 1]), steps[|steps| - 1])
  }

  lemma {:induction false} AlwaysInv(steps: seq<Step>)
    ensures Inv(Run(steps))
  {
    if steps != [] {
      var h, step := Run(steps[..|steps| - 1]), steps[|steps| - 1];
      AlwaysInv(steps[..|steps| - 1]);
      if Enabled(h, step) {
        if step.Turn? {
          TurnInv(h, step);
        } else {
          CallInv(h, step);
        }
      }
    }
  }

  // ---------------------------------------------------------------- what the device sees

  /** However the worker is scheduled: after a finger-up, no finger-down before another onUiReady. */
  lemma NoDownWithoutReady(steps: seq<Step>, up: nat, down: nat)
    requires var log := Run(steps).log; up < down < |log| && log[up] == Released && log[down] == Sent(Down)
    ensures exists i: nat :: up < i < down && Run(steps).log[i] == Ready
  {
    AlwaysInv(steps);
    var log := Run(steps).log;
    var i: nat :| i < down && Open(log[..down], i);
    assert log[..down][i] == log[i] && log[..down][up] == log[up];
  }

  /** Two finger-down commands are always separated by a finger-up. */
  lemma DownsAlternate(steps: seq<Step>, d1: nat, d2: nat)
    requires var log := Run(steps).log; d1 < d2 < |log| && log[d1] == Sent(Down) && log[d2] == Sent(Down)
    ensures exists u: nat :: d1 < u < d2 && Run(steps).log[u] == Sent(Up)
  {
    AlternationHolds(steps);
  }

  ghost predicate Alternates(log: seq<Entry>) {
    forall d1: nat, d2: nat :: d1 < d2 < |log| && log[d1] == Sent(Down) && log[d2] == Sent(Down)
      ==> exists u: nat :: d1 < u < d2 && log[u] == Sent(Up)
  }

  lemma {:induction false} DownStays(log: seq<Entry>, d: nat)
    requires d < |log| && log[d] == Sent(Down) && !IsDown(log)
    ensures exists u: nat :: d < u < |log| && log[u] == Sent(Up)
  {
    var last := |log| - 1;
    if log[last].Sent? {
      assert log[last] == Sent(Up) && d < last;
    } else {
      DownStays(log[..last], d);
      var u: nat :| d < u < last && log[..last][u] == Sent(Up);
      assert log[u] == Sent(Up);
    }
  }

  lemma AlternatesAppend(log: seq<Entry>, e: Entry)
    requires Alternates(log) && (e == Sent(Down) ==> !IsDown(log))
    ensures Alternates(log + [e])
  {
    var r := log + [e];
    forall d1: nat, d2: nat | d1 < d2 < |r| && r[d1] == Sent(Down) && r[d2] == Sent(Down)
      ensures exists u: nat :: d1 < u < d2 && r[u] == Sent(Up)
    {
      if d2 < |log| {
        var u: nat :| d1 < u < d2 && log[u] == Sent(Up);
        assert r[u] == Sent(Up);
      } else {
        DownStays(log, d1);
        var u: nat :| d1 < u < |log| && log[u] == Sent(Up);
        assert r[u] == Sent(Up);
      }
    }
  }

  lemma {:induction false} AlternationHolds(steps: seq<Step>)
    ensures Alternates(Run(steps).log)
  {
    if steps != [] {
      var h, step := Run(steps[..|steps| - 1]), steps[|steps| - 1];
      AlternationHolds(steps[..|steps| - 1]);
      AlwaysInv(steps[..|steps| - 1]);
      if Enabled(h, step) {
        StepAlternates(h, step);
      }
    }
  }

  lemma StepAlternates(h: Handler, step: Step)
    requires Inv(h) && Alternates(h.log) && Enabled(h, step)
    ensures Alternates(Next(h, step).log)
  {
    match step
    case UiReady(waitForIllumination, _) =>
      AlternatesAppend(h.log, Ready);
      IsDownAppend(h.log, Ready);
      if !h.fingerDown && !waitForIllumination {
        AlternatesAppend(h.log + [Ready], Sent(Down));
      }
    case FingerUp =>
      AlternatesAppend(h.log, Released);
      AlternatesAppend(h.log + [Released], Sent(Up));
    case Turn(reading, _) =>
      if h.pending {
        AlternatesAppend(h.log, Sent(Down));
      }
    case _ =>
  }

  // ---------------------------------------------------------------- what each call leads to

  lemma RunAppend(steps: seq<Step>, step: Step)
    ensures Run(steps + [step]) == Do(Run(steps), step)
  {
    assert (steps + [step])[..|steps|] == steps;
  }

  /** The finger is on the reader: since onUiReady was last called there was no onFingerUp. */
  predicate Touched(steps: seq<Step>) {
    steps != [] &&
      var before := steps[..|steps| - 1];
      match steps[|steps| - 1]
      case UiReady(_, now) => Touched(before) || Run(before).clock <= now
      case FingerUp => false
      case _ => Touched(before)
  }

  lemma {:induction false} TouchedIsFingerDown(steps: seq<Step>)
    ensures Run(steps).fingerDown == Touched(steps)
  {
    if steps != [] {
      TouchedIsFingerDown(steps[..|steps| - 1]);
    }
  }

  lemma {:induction false} StoppedIff(steps: seq<Step>)
    ensures Run(steps).stopped <==> Shutdown in steps
  {
    if steps != [] {
      var n := |steps| - 1;
      StoppedIff(steps[..n]);
      assert steps == steps[..n] + [steps[n]];
      assert Shutdown in steps <==> Shutdown in steps[..n] || steps[n] == Shutdown;
    }
  }

  /** A call of onUiReady is ignored while the finger is on the reader. Otherwise it sends the finger-down
      at once if there is nothing to wait for, and else sends nothing and leaves its request pending. */
  lemma ReadyLeadsTo(steps: seq<Step>, waitForIllumination: bool, now: int)
    requires Run(steps).clock <= now
    ensures var h, r := Run(steps), Run(steps + [UiReady(waitForIllumination, now)]);
            && (Touched(steps) ==>
                  r.log == h.log + [Ready] && r.pending == h.pending && r.requestId == h.requestId)
            && (!Touched(steps) && !waitForIllumination ==>
                  r.log == h.log + [Ready] + [Sent(Down)] && !r.pending && r.requestId == h.requestId + 1)
            && (!Touched(steps) && waitForIllumination ==>
                  r.log == h.log + [Ready] && r.pending && r.requestId == h.requestId + 1)
            && r.stopped == h.stopped && r.worker == h.worker && r.clock == now
            && r.requestedAt == if Touched(steps) then h.requestedAt else now
  {
    TouchedIsFingerDown(steps);
    AlwaysInv(steps);
    RunAppend(steps, UiReady(waitForIllumination, now));
  }

  /** A call of onFingerUp always sends the finger-up, and whatever was pending is so no longer. */
  lemma ReleaseLeadsTo(steps: seq<Step>)
    ensures var h, r := Run(steps), Run(steps + [FingerUp]);
            && r.log == h.log + [Released] + [Sent(Up)]
            && !r.pending && r.requestId == h.requestId + 1
            && r.stopped == h.stopped && r.worker == h.worker
  {
    RunAppend(steps, FingerUp);
  }

  /** The worker's turn concerns the request it picked up, if that is still the one to wait for. */
  predicate Current(h: Handler) {
    h.worker.Polling? && !h.stopped && h.pending && h.worker.requestId == h.requestId
  }

  /** A turn for such a request sends the finger-down as soon as the display reports 1, gives up if it
      cannot be read or the deadline has come, and else goes on waiting; any other turn just ends it. */
  lemma TurnLeadsTo(steps: seq<Step>, reading: Reading, now: int)
    requires Run(steps).worker.Polling? && Run(steps).clock <= now
    ensures var h, r := Run(steps), Run(steps + [Turn(reading, now)]);
            && (!Current(h) ==> r == h.(worker := Outside, clock := now))
            && (Current(h) && reading == Value(1) ==>
                  r.log == h.log + [Sent(Down)] && !r.pending && r.worker == Outside)
            && (Current(h) && reading != Value(1) ==>
                  && r.log == h.log
                  && (r.pending <==> reading.Value? && now < h.worker.deadline)
                  && r.worker == if r.pending then h.worker else Outside)
  {
    RunAppend(steps, Turn(reading, now));
  }

  /** Picking up gives a pending request half a second, and asks nothing of the display yet. */
  lemma PickUpLeadsTo(steps: seq<Step>, now: int)
    requires var h := Run(steps); h.worker == Outside && h.pending && !h.stopped && h.clock <= now
    ensures var h, r := Run(steps), Run(steps + [PickUp(now)]);
            r == h.(worker := Polling(now + 500_000_000, h.requestId), clock := now) && Current(r)
  {
    RunAppend(steps, PickUp(now));
  }

  /** It picks up nothing else, and nothing at all once the handler is shut down. */
  lemma PicksUpIff(steps: seq<Step>, now: int)
    requires Run(steps).worker == Outside && Run(steps).clock <= now
    ensures Run(steps + [PickUp(now)]).worker.Polling? <==> Run(steps).pending && Shutdown !in steps
  {
    StoppedIff(steps);
    RunAppend(steps, PickUp(now));
  }

  function Downs(log: seq<Entry>): nat {
    if log == [] then 0
    else Downs(log[..|log| - 1]) + if log[|log| - 1] == Sent(Down) then 1 else 0
  }

  lemma DownsAppend(log: seq<Entry>, e: Entry)
    ensures Downs(log + [e]) == Downs(log) + if e == Sent(Down) then 1 else 0
  {
    assert (log + [e])[..|log|] == log;
  }

  /** Over every run, a finger-down is sent exactly by a call that need not wait and by a turn that reads
      1 for the request still waited for: after a waiting request, only by such a turn. */
  lemma DownIsSentIff(steps: seq<Step>, step: Step)
    ensures var h, r := Run(steps), Run(steps + [step]);
            var sent := Enabled(h, step) &&
              (|| (step.UiReady? && !step.waitForIllumination && !Touched(steps))
               || (step.Turn? && Current(h) && step.reading == Value(1)));
            Downs(r.log) == Downs(h.log) + if sent then 1 else 0
  {
    var h := Run(steps);
    RunAppend(steps, step);
    if Enabled(h, step) {
      match step
      case UiReady(waitForIllumination, now) =>
        ReadyLeadsTo(steps, waitForIllumination, now);
        DownsAppend(h.log, Ready);
        DownsAppend(h.log + [Ready], Sent(Down));
      case FingerUp =>
        DownsAppend(h.log, Released);
        DownsAppend(h.log + [Released], Sent(Up));
      case Turn(reading, now) =>
        TurnLeadsTo(steps, reading, now);
        DownsAppend(h.log, Sent(Down));
      case _ =>
    }
  }

  // ---------------------------------------------------------------- what becomes of a request

  /** The worker only ever settles the request it picked up, and gives one up for lack of time no
      sooner than half a second after it was made: a stale deadline never cancels a newer request. */
  lemma SettlesItsOwnRequest(steps: seq<Step>, reading: Reading, now: int)
    requires var h := Run(steps); Enabled(h, Turn(reading, now)) && h.pending && !Next(h, Turn(reading, now)).pending
    ensures var h := Run(steps);
            && h.worker.requestId == h.requestId
            && h.worker.deadline >= h.requestedAt + PATIENCE
            && (reading == Value(1) <==> Next(h, Turn(reading, now)).log == h.log + [Sent(Down)])
            && (reading.Value? && reading.ready != 1 ==> now >= h.requestedAt + PATIENCE)
  {
    AlwaysInv(steps);
  }

  /** Turns of the inner loop, nobody interfering. */
  function Turns(h: Handler, readings: nat -> Reading, clock: nat -> int, n: nat): Handler {
    if n == 0 then h else Do(Turns(h, readings, clock, n - 1), Turn(readings(n - 1), clock(n - 1)))
  }

  lemma {:induction false} TickingClock(clock: nat -> int, tick: nat, n: nat)
    requires forall i: nat :: clock(i) + tick <= clock(i + 1)
    ensures clock(0) + n * tick <= clock(n)
  {
    if n > 0 {
      TickingClock(clock, tick, n - 1);
      assert clock(n - 1) + tick <= clock(n - 1 + 1);
      assert n * tick == (n - 1) * tick + tick;
    }
  }

  // ---------------------------------------------------------------- the monitor

  class UdfpsHandler {
    var stopped: bool
    var fingerDown: bool
    var pending: bool
    var requestId: nat
    var worker: Worker
    ghost var log: seq<Entry>
    ghost var clock: int
    ghost var requestedAt: int
    ghost var readyAt: nat

    ghost function State(): Handler
      reads this
    {
      Handler(stopped, fingerDown, pending, requestId, worker, log, clock, requestedAt, readyAt)
    }

    constructor ()
      ensures State() == START
    {
      stopped, fingerDown, pending, requestId, worker := false, false, false, 0, Outside;
      log, clock, requestedAt, readyAt := [], 0, 0, 0;
    }

    method SetFingerDown(down: bool)
      modifies this`log
      ensures log == old(log) + [Sent(if down then Down else Up)]
    {
      log := log + [Sent(if down then Down else Up)];
    }

    method OnUiReady(waitForIllumination: bool, ghost now: int)
      requires Enabled(State(), UiReady(waitForIllumination, now))
      modifies this
      ensures State() == Next(old(State()), UiReady(waitForIllumination, now))
    {
      log, clock := log + [Ready], now;
      if fingerDown {
        return;
      }
      fingerDown, requestId := true, requestId + 1;
      requestedAt, readyAt := now, |log| - 1;
      if waitForIllumination {
        pending := true;
      } else {
        SetFingerDown(true);
      }
    }

    method OnFingerUp()
      modifies this
      ensures State() == Next(old(State()), FingerUp)
    {
      log := log + [Released];
      fingerDown, pending, requestId := false, false, requestId + 1;
      SetFingerDown(false);
    }

    method Stop()
      modifies this
      ensures State() == Next(old(State()), Shutdown)
    {
      stopped := true;
    }

    method RunPickUp(now: int)
      requires Enabled(State(), PickUp(now))
      modifies this
      ensures State() == Next(old(State()), PickUp(now))
    {
      var deadline := now + PATIENCE;
      worker := Polling(deadline, requestId);
      clock := now;
    }

    /** One turn of the inner loop, its guard included. */
    method RunTurn(reading: Reading, now: int)
      requires Enabled(State(), Turn(reading, now))
      modifies this
      ensures State() == Next(old(State()), Turn(reading, now))
    {
      clock := now;
      if stopped || !pending || worker.requestId != requestId {
        worker := Outside;
      } else if reading.Unreadable? {
        pending, worker := false, Outside;
      } else if reading.ready == 1 {
        pending, worker := false, Outside;
        SetFingerDown(true);
      } else if now >= worker.deadline {
        pending, worker := false, Outside;
      }
    }

    /** The inner loop as it runs when left alone, under a clock that moves on by at least tick from
        turn to turn: it ends, after at most 1 + PATIENCE / tick turns, rounded up. */
    method RunPoll(readings: nat -> Reading, times: nat -> int, tick: nat) returns (turns: nat)
      requires worker.Polling? && tick > 0 && clock <= times(0)
      requires worker.deadline <= times(0) + PATIENCE
      requires forall i: nat :: times(i) + tick <= times(i + 1)
      modifies this
      ensures State() == Turns(old(State()), readings, times, turns)
      ensures worker.Outside? && (turns - 1) * tick < PATIENCE + tick
    {
      turns := 0;
      var deadline := worker.deadline;
      while worker.Polling?
        invariant State() == Turns(old(State()), readings, times, turns)
        invariant worker.Polling? ==> worker.deadline == deadline && clock <= times(turns)
        invariant turns > 0 && worker.Polling? ==> times(turns - 1) < deadline
        invariant turns > 1 ==> times(turns - 2) < deadline
        decreases turns == 0, if turns > 0 && worker.Polling? then deadline - times(turns - 1) else 0
      {
        RunTurn(readings(turns), times(turns));
        turns := turns + 1;
        assert times(turns - 1) + tick <= times(turns - 1 + 1);
      }
      if turns > 1 {
        TickingClock(times, tick, turns - 2);
        assert (turns - 1) * tick == (turns - 2) * tick + tick;
      } else {
        assert (turns - 1) * tick <= 0;
      }
    }
  }
}
