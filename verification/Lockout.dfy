/** Fingerprint lockout: the failure counter, the timed and the permanent mode, and the detached timer
    thread that ends a timed lockout unless it has been told not to. */
module Lockout {

  datatype LockoutMode = NONE | TIMED | PERMANENT

  const TIMED_THRESHOLD := 5
  const TIMED_DURATION := 30 * 1000
  const PERMANENT_THRESHOLD := 20

  datatype Tracker = Tracker(failedCount: nat, timedStart: int, mode: LockoutMode)

  /** What the session does to the outside world, in order. */
  datatype Effect =
    | FingerUp | HbmOff
    | OnSucceeded | OnFailed
    | OnPermanent | OnTimed(timeLeft: int) | OnCleared

  /** timers counts the timer threads still asleep. counted is set between the two halves of a failed
      match, when the failure is counted and its consequences are not yet drawn. */
  datatype Session = Session(
    tracker: Tracker, started: bool, aborted: bool, timers: nat, counted: bool, trace: seq<Effect>)

  const FRESH := Session(Tracker(0, 0, NONE), false, false, 0, false, [])

  // ---------------------------------------------------------------- the tracker

  function Reset(t: Tracker, clearAttemptCounter: bool): Tracker {
    Tracker(if clearAttemptCounter then 0 else t.failedCount, 0, NONE)
  }

  function AddFailedAttempt(t: Tracker, now: int): Tracker {
    var n := t.failedCount + 1;
    if n >= PERMANENT_THRESHOLD then t.(failedCount := n, mode := PERMANENT)
    else if n >= TIMED_THRESHOLD then Tracker(n, now, TIMED)
    else t.(failedCount := n)
  }

  /** Asking for the mode ends a timed lockout whose duration has elapsed. */
  function Current(t: Tracker, elapsed: bool): Tracker {
    if t.mode == TIMED && elapsed then t.(mode := NONE, timedStart := 0) else t
  }

  /** Nanoseconds to milliseconds, cutting toward zero. */
  function Milliseconds(ns: int): int {
    if ns >= 0 then ns / 1000000 else -(-ns / 1000000)
  }

  function TimeLeft(t: Tracker, now: int): int {
    if t.timedStart > 0 then TIMED_DURATION - Milliseconds(now - t.timedStart) else 0
  }

  /** What that amounts to: the whole duration at the moment of the failure, then less and less, and
      something positive exactly until the duration has passed. */
  lemma TimeLeftCountsDown(t: Tracker, now: int, later: int)
    requires 0 < t.timedStart <= now <= later
    ensures TimeLeft(t, t.timedStart) == TIMED_DURATION
    ensures TimeLeft(t, later) <= TimeLeft(t, now) <= TIMED_DURATION
    ensures TimeLeft(t, now) > 0 <==> now - t.timedStart < TIMED_DURATION * 1000000
    ensures later >= now + 1000000 ==> TimeLeft(t, later) < TimeLeft(t, now)
  {
  }

  // ---------------------------------------------------------------- the session

  datatype Step =
    | Count(now: int)                     // a failed match is counted
    | Check(elapsed: bool, now: int)      // and its consequences are drawn
    | Match
    | ResetLockout
    | Expire                              // a timer thread wakes up

  predicate Enabled(s: Session, step: Step) {
    match step
    case Count(_) => !s.counted
    case Check(_, _) => s.counted
    case Match => !s.counted
    case ResetLockout => true
    case Expire => s.timers > 0
  }

  function ClearLockout(s: Session, clearAttemptCounter: bool): Session {
    s.(tracker := Reset(s.tracker, clearAttemptCounter), trace := s.trace + [OnCleared])
  }

  function StartLockoutTimer(s: Session): Session {
    s.(started := true, aborted := false, timers := s.timers + 1)
  }

  function CheckSensorLockout(s: Session, elapsed: bool, now: int): Session {
    var t := Current(s.tracker, elapsed);
    var left := TimeLeft(t, now);
    match t.mode
    case NONE => s.(tracker := t)
    case PERMANENT =>
      s.(tracker := t, trace := s.trace + [FingerUp, HbmOff, OnPermanent], aborted := true)
    case TIMED =>
      var told := s.(tracker := t, trace := s.trace + [FingerUp, HbmOff, OnTimed(left)]);
      if s.started then told else StartLockoutTimer(told)
  }

  function Next(s: Session, step: Step): Session
    requires Enabled(s, step)
  {
    match step
    case Count(now) =>
      s.(tracker := AddFailedAttempt(s.tracker, now), counted := true, trace := s.trace + [OnFailed])
    case Check(elapsed, now) => CheckSensorLockout(s, elapsed, now).(counted := false)
    case Match => s.(tracker := Reset(s.tracker, true), trace := s.trace + [OnSucceeded, FingerUp, HbmOff])
    case ResetLockout => ClearLockout(s, true).(aborted := true)
    case Expire =>
      var done := if s.aborted then s else ClearLockout(s, false);
      done.(started := false, aborted := false, timers := s.timers - 1)
  }

  // ---------------------------------------------------------------- when a lockout is permanent

  predicate PermanentExactly(t: Tracker) {
    t.mode == PERMANENT <==> t.failedCount >= PERMANENT_THRESHOLD
  }

  /** One timer at most, and it cannot lift a permanent lockout unless it wakes up between the two
      halves of a failed match. */
  predicate Inv(s: Session) {
    && s.timers == (if s.started then 1 else 0)
    && (s.tracker.mode == PERMANENT ==> s.tracker.failedCount >= PERMANENT_THRESHOLD)
    && (s.tracker.mode == TIMED ==> TIMED_THRESHOLD <= s.tracker.failedCount < PERMANENT_THRESHOLD)
    && (s.tracker.mode == PERMANENT && s.started && !s.counted ==> s.aborted)
  }

  lemma StepInv(s: Session, step: Step)
    requires Inv(s) && Enabled(s, step)
    ensures Inv(Next(s, step))
  {
  }

  /** The only step that can end a permanent lockout with 20 failures on record is a timer that nobody
      aborted; then a failed match is still being processed. */
  lemma OnlyATimerInBetween(s: Session, step: Step)
    requires Inv(s) && Enabled(s, step) && PermanentExactly(s.tracker)
    ensures PermanentExactly(Next(s, step).tracker)
       <==> !(step.Expire? && !s.aborted && s.tracker.failedCount >= PERMANENT_THRESHOLD)
    ensures !s.counted ==> PermanentExactly(Next(s, step).tracker)
  {
  }

  /** Whatever happened before, the next failure puts it right. */
  lemma NextFailureRepairs(s: Session, now: int)
    requires Inv(s) && Enabled(s, Count(now))
    ensures PermanentExactly(Next(s, Count(now)).tracker)
  {
  }

  /** A lockout in its timed mode has a timer to end it, until a timer that belongs to an earlier one
      has been aborted and comes due. */
  predicate TimedHasTimer(s: Session) {
    s.tracker.mode == TIMED && !s.counted ==> s.started
  }

  lemma TimedHasTimerIff(s: Session, step: Step)
    requires Inv(s) && Enabled(s, step) && TimedHasTimer(s)
    ensures TimedHasTimer(Next(s, step))
       <==> !(step.Expire? && s.aborted && s.tracker.mode == TIMED && !s.counted)
  {
  }

  // ---------------------------------------------------------------- whole runs

  /** A step that cannot be taken changes nothing. */
  function Do(s: Session, step: Step): Session {
    if Enabled(s, step) then Next(s, step) else s
  }

  function Run(steps: seq<Step>): Session {
    if steps == [] then FRESH else Do(Run(steps[..|steps| - 1]), steps[|steps| - 1])
  }

  /** Failures counted since the last successful match or the last resetLockout. */
  function FailuresSince(steps: seq<Step>): nat {
    if steps == [] then 0
    else
      var before := steps[..|steps| - 1];
      match steps[|steps| - 1]
      case Count(_) => FailuresSince(before) + if Run(before).counted then 0 else 1
      case Match => if Run(before).counted then FailuresSince(before) else 0
      case ResetLockout => 0
      case _ => FailuresSince(before)
  }

  /** A timer that nobody aborted has come due since the last failure was counted. */
  predicate LiftedSince(steps: seq<Step>) {
    steps != [] &&
      var before := steps[..|steps| - 1];
      match steps[|steps| - 1]
      case Count(_) => Run(before).counted && LiftedSince(before)
      case Expire => LiftedSince(before) || (Run(before).timers > 0 && !Run(before).aborted)
      case _ => LiftedSince(before)
  }

  /** Over every run, with the two halves of a failed match apart, the lockout is permanent exactly if
      there were 20 such failures and no such timer. At most one timer is asleep, and if one is during
      a permanent lockout, it is an aborted one or a failure is still being processed. */
  lemma {:induction false} PermanentIff(steps: seq<Step>)
    ensures var s := Run(steps);
            && Inv(s)
            && s.tracker.failedCount == FailuresSince(steps)
            && (s.tracker.mode == PERMANENT <==>
                  FailuresSince(steps) >= PERMANENT_THRESHOLD && !LiftedSince(steps))
            && s.timers <= 1
            && (s.tracker.mode == PERMANENT && s.timers > 0 ==> s.aborted || s.counted)
  {
    if steps != [] {
      var before, step := steps[..|steps| - 1], steps[|steps| - 1];
      PermanentIff(before);
      if Enabled(Run(before), step) {
        StepInv(Run(before), step);
      }
    }
  }

  /** No timer comes due between the two halves of a failed match. */
  predicate NoTimerInBetween(steps: seq<Step>) {
    steps != [] ==>
      var before := steps[..|steps| - 1];
      && NoTimerInBetween(before)
      && !(steps[|steps| - 1].Expire? && Run(before).timers > 0 && Run(before).counted)
  }

  /** Then the lockout is permanent exactly from the 20th such failure on: no timer lifts it, nor does
      the passing of time. */
  lemma {:induction false} PermanentIffUndisturbed(steps: seq<Step>)
    requires NoTimerInBetween(steps)
    ensures Run(steps).tracker.mode == PERMANENT <==> FailuresSince(steps) >= PERMANENT_THRESHOLD
  {
    PermanentIff(steps);
    if steps != [] {
      var before, step := steps[..|steps| - 1], steps[|steps| - 1];
      PermanentIff(before);
      PermanentIffUndisturbed(before);
      if Enabled(Run(before), step) {
        OnlyATimerInBetween(Run(before), step);
      }
    }
  }

  /** The first four failures lock nothing, the next fifteen lock for a time that starts with the last of
      them, and from the twentieth on the lockout is permanent. */
  lemma ModeOnFailure(steps: seq<Step>, now: int)
    requires !Run(steps).counted
    ensures var n, s := FailuresSince(steps) + 1, Run(steps + [Count(now)]);
            && s.counted && s.tracker.failedCount == n == FailuresSince(steps + [Count(now)])
            && (n < 5 ==> s.tracker.mode == NONE)
            && (5 <= n < 20 ==> s.tracker.mode == TIMED && s.tracker.timedStart == now)
            && (20 <= n ==> s.tracker.mode == PERMANENT)
            && (n < 5 || 20 <= n ==> s.tracker.timedStart == Run(steps).tracker.timedStart)
  {
    PermanentIff(steps);
    RunAppend(steps, Count(now));
    PermanentIff(steps + [Count(now)]);
  }

  /** A failure that is found to lock for a time leaves a timer asleep; when a timer comes due it is gone,
      and unless it was aborted there is no lockout, though the failures still count. */
  lemma TimerStartsAndEnds(steps: seq<Step>, elapsed: bool, now: int)
    ensures var s, r := Run(steps), Run(steps + [Check(elapsed, now)]);
            s.counted && r.tracker.mode == TIMED ==> r.started && r.timers == 1 && (!s.started ==> !r.aborted)
    ensures var s, r := Run(steps), Run(steps + [Expire]);
            s.timers > 0 ==>
              && r.timers == 0 && !r.started && !r.aborted && r.counted == s.counted
              && r.tracker.failedCount == s.tracker.failedCount
              && r.tracker.mode == if s.aborted then s.tracker.mode else NONE
  {
    PermanentIff(steps);
    RunAppend(steps, Check(elapsed, now));
    RunAppend(steps, Expire);
  }

  // ---------------------------------------------------------------- what the outside world sees

  /** Effects that give a verdict on a finger, and effects that turn the reader off. */
  datatype Kind = Verdict | ReaderOff

  predicate Is(e: Effect, kind: Kind) {
    match kind
    case Verdict => e.OnSucceeded? || e.OnFailed?
    case ReaderOff => e.FingerUp? || e.HbmOff?
  }

  /** The entries of the trace that are of a kind, in order. */
  function Only(trace: seq<Effect>, kind: Kind): seq<Effect> {
    if trace == [] then []
    else
      var last := trace[|trace| - 1];
      Only(trace[..|trace| - 1], kind) + if Is(last, kind) then [last] else []
  }

  lemma OnlyAppend(trace: seq<Effect>, e: Effect, kind: Kind)
    ensures Only(trace + [e], kind) == Only(trace, kind) + if Is(e, kind) then [e] else []
  {
    assert (trace + [e])[..|trace|] == trace;
  }

  /** A verdict and the reader turned off, or the reader turned off and a word on the lockout. */
  lemma OnlyAppendThree(trace: seq<Effect>, a: Effect, b: Effect, c: Effect)
    requires (a == OnSucceeded && b == FingerUp && c == HbmOff) || (a == FingerUp && b == HbmOff && AboutLockout(c))
    ensures Only(trace + [a, b, c], Verdict) == Only(trace, Verdict) + if a == OnSucceeded then [a] else []
    ensures Only(trace + [a, b, c], ReaderOff) == Only(trace, ReaderOff) + [FingerUp, HbmOff]
  {
    forall kind
      ensures Only(trace + [a, b, c], kind)
           == Only(trace, kind) + (if Is(a, kind) then [a] else []) + (if Is(b, kind) then [b] else [])
                + if Is(c, kind) then [c] else []
    {
      OnlyAppend(trace, a, kind);
      OnlyAppend(trace + [a], b, kind);
      OnlyAppend(trace + [a] + [b], c, kind);
      assert trace + [a] + [b] + [c] == trace + [a, b, c];
    }
  }

  /** The verdict a step calls for. */
  function VerdictOn(step: Step): seq<Effect> {
    match step
    case Match => [OnSucceeded]
    case Count(_) => [OnFailed]
    case _ => []
  }

  /** The reader is turned off after a match, and after a failure that leaves a lockout in force. */
  function Off(step: Step, mode: LockoutMode): seq<Effect> {
    if step.Match? || (step.Check? && mode != NONE) then [FingerUp, HbmOff] else []
  }

  lemma CheckIsSeen(s: Session, elapsed: bool, now: int)
    requires Enabled(s, Check(elapsed, now))
    ensures var r := Next(s, Check(elapsed, now));
            && Only(r.trace, Verdict) == Only(s.trace, Verdict)
            && Only(r.trace, ReaderOff)
                 == Only(s.trace, ReaderOff) + if r.tracker.mode != NONE then [FingerUp, HbmOff] else []
  {
    var t := Current(s.tracker, elapsed);
    if t.mode != NONE {
      var told := if t.mode == PERMANENT then OnPermanent else OnTimed(TimeLeft(t, now));
      OnlyAppendThree(s.trace, FingerUp, HbmOff, told);
    }
  }

  lemma VerdictIsSeen(s: Session, now: int)
    requires !s.counted
    ensures var r := Next(s, Count(now));
            && Only(r.trace, Verdict) == Only(s.trace, Verdict) + [OnFailed]
            && Only(r.trace, ReaderOff) == Only(s.trace, ReaderOff)
    ensures var r := Next(s, Match);
            && Only(r.trace, Verdict) == Only(s.trace, Verdict) + [OnSucceeded]
            && Only(r.trace, ReaderOff) == Only(s.trace, ReaderOff) + [FingerUp, HbmOff]
  {
    OnlyAppend(s.trace, OnFailed, Verdict);
    OnlyAppend(s.trace, OnFailed, ReaderOff);
    OnlyAppendThree(s.trace, OnSucceeded, FingerUp, HbmOff);
  }

  lemma ClearingIsNotSeen(s: Session, step: Step)
    requires Enabled(s, step) && (step.ResetLockout? || step.Expire?)
    ensures forall kind :: Only(Next(s, step).trace, kind) == Only(s.trace, kind)
  {
    OnlyAppend(s.trace, OnCleared, Verdict);
    OnlyAppend(s.trace, OnCleared, ReaderOff);
  }

  lemma StepIsSeen(s: Session, step: Step)
    requires Enabled(s, step)
    ensures Only(Next(s, step).trace, Verdict) == Only(s.trace, Verdict) + VerdictOn(step)
    ensures Only(Next(s, step).trace, ReaderOff)
         == Only(s.trace, ReaderOff) + Off(step, Next(s, step).tracker.mode)
  {
    match step
    case Count(now) => VerdictIsSeen(s, now);
    case Match => VerdictIsSeen(s, 0);
    case Check(elapsed, now) => CheckIsSeen(s, elapsed, now);
    case _ => ClearingIsNotSeen(s, step);
  }

  /** What the steps of a run call for, those that cannot be taken left out. */
  function Verdicts(steps: seq<Step>): seq<Effect> {
    if steps == [] then []
    else
      var before, step := steps[..|steps| - 1], steps[|steps| - 1];
      Verdicts(before) + if Enabled(Run(before), step) then VerdictOn(step) else []
  }

  function Offs(steps: seq<Step>): seq<Effect> {
    if steps == [] then []
    else
      var before, step := steps[..|steps| - 1], steps[|steps| - 1];
      Offs(before) + if Enabled(Run(before), step) then Off(step, Run(steps).tracker.mode) else []
  }

  /** Over every run the framework is told of a success exactly for each match and of a failure exactly
      for each failed match, in their order; and the reader is turned off exactly after each match and
      each failure that finds a lockout in force. */
  lemma {:induction false} VerdictsAreTold(steps: seq<Step>)
    ensures Only(Run(steps).trace, Verdict) == Verdicts(steps)
    ensures Only(Run(steps).trace, ReaderOff) == Offs(steps)
  {
    if steps != [] {
      var before, step := steps[..|steps| - 1], steps[|steps| - 1];
      VerdictsAreTold(before);
      if Enabled(Run(before), step) {
        StepIsSeen(Run(before), step);
      }
    }
  }

  /** What the framework was last told about lockouts. */
  function LastTold(trace: seq<Effect>): Effect {
    if trace == [] then OnCleared
    else
      var last := trace[|trace| - 1];
      if AboutLockout(last) then last
      else LastTold(trace[..|trace| - 1])
  }

  predicate AboutLockout(e: Effect) {
    e.OnPermanent? || e.OnTimed? || e.OnCleared?
  }

  lemma LastToldAppend(trace: seq<Effect>, e: Effect)
    ensures LastTold(trace + [e]) == if AboutLockout(e) then e else LastTold(trace)
  {
    assert (trace + [e])[..|trace|] == trace;
  }

  /** The mode the framework believes in. */
  function Believed(trace: seq<Effect>): LockoutMode {
    match LastTold(trace)
    case OnPermanent => PERMANENT
    case OnTimed(_) => TIMED
    case _ => NONE
  }

  /** Since the framework was last told about lockouts, a finger matched, or a timed lockout turned out
      to be over when a failure's consequences were drawn. */
  predicate UntoldSince(steps: seq<Step>) {
    steps != [] &&
      var before, s := steps[..|steps| - 1], Run(steps[..|steps| - 1]);
      match steps[|steps| - 1]
      case Match => UntoldSince(before) || !s.counted
      case Check(elapsed, _) =>
        if !s.counted || s.tracker.mode == NONE then UntoldSince(before)
        else s.tracker.mode == TIMED && elapsed
      case ResetLockout => false
      case Expire => UntoldSince(before) && (s.timers == 0 || s.aborted)
      case _ => UntoldSince(before)
  }

  lemma CheckTells(s: Session, elapsed: bool, now: int)
    requires Enabled(s, Check(elapsed, now))
    ensures var r := Next(s, Check(elapsed, now));
            Believed(r.trace) == if r.tracker.mode == NONE then Believed(s.trace) else r.tracker.mode
  {
    var t := Current(s.tracker, elapsed);
    var told := if t.mode == PERMANENT then OnPermanent else OnTimed(TimeLeft(t, now));
    LastToldAppend(s.trace + [FingerUp, HbmOff], told);
    assert s.trace + [FingerUp, HbmOff] + [told] == s.trace + [FingerUp, HbmOff, told];
  }

  lemma OthersTell(s: Session, step: Step)
    requires Enabled(s, step) && !step.Check?
    ensures Believed(Next(s, step).trace)
         == if step.ResetLockout? || (step.Expire? && !s.aborted) then NONE else Believed(s.trace)
  {
    match step
    case Count(_) => LastToldAppend(s.trace, OnFailed);
    case Match =>
      LastToldAppend(s.trace, OnSucceeded);
      LastToldAppend(s.trace + [OnSucceeded], FingerUp);
      LastToldAppend(s.trace + [OnSucceeded] + [FingerUp], HbmOff);
      assert s.trace + [OnSucceeded] + [FingerUp] + [HbmOff] == s.trace + [OnSucceeded, FingerUp, HbmOff];
    case _ => LastToldAppend(s.trace, OnCleared);
  }

  /** Over every run, between two messages, the lockout is what the framework was last told, unless it
      has ended without a word since then: in particular, whenever it is permanent or timed, the
      framework knows. */
  lemma {:induction false} FrameworkKnows(steps: seq<Step>)
    ensures var s := Run(steps);
            && (!s.counted || s.tracker.mode == NONE ==>
                  s.tracker.mode == if UntoldSince(steps) then NONE else Believed(s.trace))
            && (s.tracker.mode == PERMANENT && !s.counted ==> LastTold(s.trace) == OnPermanent)
  {
    if steps != [] {
      var before, step := steps[..|steps| - 1], steps[|steps| - 1];
      var s := Run(before);
      FrameworkKnows(before);
      PermanentIff(before);
      if Enabled(s, step) {
        if step.Check? {
          CheckTells(s, step.elapsed, step.now);
        } else {
          OthersTell(s, step);
        }
      }
    }
  }

  /** The time the framework is told at a failure that leads to a timed lockout: all of it if it is
      told at once, none exactly if telling took as long as the lockout. */
  lemma TimeTold(s: Session, now: int, later: int)
    requires Enabled(s, Count(now)) && 0 < now <= later
    requires TIMED_THRESHOLD - 1 <= s.tracker.failedCount < PERMANENT_THRESHOLD - 1
    ensures var r := Next(Next(s, Count(now)), Check(false, later));
            && r.tracker.mode == TIMED
            && LastTold(r.trace).OnTimed?
            && var left := LastTold(r.trace).timeLeft;
               && left <= TIMED_DURATION
               && (later == now ==> left == TIMED_DURATION)
               && (left > 0 <==> later - now < TIMED_DURATION * 1000000)
  {
    var half := Next(s, Count(now));
    var left := TimeLeft(half.tracker, later);
    TimeLeftCountsDown(half.tracker, later, later);
    LastToldAppend(half.trace + [FingerUp, HbmOff], OnTimed(left));
    assert half.trace + [FingerUp, HbmOff] + [OnTimed(left)] == half.trace + [FingerUp, HbmOff, OnTimed(left)];
  }

  // ---------------------------------------------------------------- runs that go wrong

  lemma RunAppend(steps: seq<Step>, step: Step)
    ensures Run(steps + [step]) == Do(Run(steps), step)
  {
    assert (steps + [step])[..|steps|] == steps;
  }

  function AFailure(): seq<Step> {
    [Count(1), Check(false, 1)]
  }

  function Failures(n: nat): seq<Step> {
    if n == 0 then [] else Failures(n - 1) + AFailure()
  }

  lemma RunFailure(run: seq<Step>)
    requires !Run(run).counted
    ensures Run(run + AFailure()) == Next(Next(Run(run), Count(1)), Check(false, 1))
  {
    RunAppend(run, Count(1));
    RunAppend(run + [Count(1)], Check(false, 1));
    assert run + AFailure() == run + [Count(1)] + [Check(false, 1)];
  }

  function ModeAfter(n: nat): LockoutMode {
    if n >= TIMED_THRESHOLD then TIMED else NONE
  }

  /** What one failure does to the flags and the timers. */
  lemma OneFailure(s: Session)
    requires !s.counted && s.tracker.failedCount < PERMANENT_THRESHOLD - 1
    requires s.tracker.mode == ModeAfter(s.tracker.failedCount)
    ensures var n, r := s.tracker.failedCount + 1, Next(Next(s, Count(1)), Check(false, 1));
            && r.tracker.failedCount == n && r.tracker.mode == ModeAfter(n) && !r.counted
            && if n < TIMED_THRESHOLD || s.started
               then r.started == s.started && r.aborted == s.aborted && r.timers == s.timers
               else r.started && !r.aborted && r.timers == s.timers + 1
  {
  }

  /** Failures that follow a run which ends without any on record. */
  lemma {:induction false} AfterFailures(run: seq<Step>, n: nat)
    requires n < PERMANENT_THRESHOLD && !Run(run).counted && Run(run).tracker == Reset(Run(run).tracker, true)
    ensures var b, s := Run(run), Run(run + Failures(n));
            && s.tracker.failedCount == n && s.tracker.mode == ModeAfter(n) && !s.counted
            && if n < TIMED_THRESHOLD || b.started
               then s.started == b.started && s.aborted == b.aborted && s.timers == b.timers
               else s.started && !s.aborted && s.timers == b.timers + 1
  {
    var before := run + Failures(if n == 0 then 0 else n - 1);
    if n == 0 {
      assert before == run;
    } else {
      AfterFailures(run, n - 1);
      OneFailure(Run(before));
      RunFailure(before);
      assert run + Failures(n) == before + AFailure();
    }
  }

  /** A timer comes due while the twentieth failure is being processed. */
  lemma TimerDuringTwentieth(run: seq<Step>)
    requires var s := Run(run); !s.counted && s.tracker.failedCount == 19 && s.timers > 0 && !s.aborted
    ensures var s := Run(run + [Count(1)] + [Expire] + [Check(false, 1)]);
            s.tracker.failedCount == 20 && s.tracker.mode == NONE && !s.counted
    ensures Run(run + [Count(1)]).tracker.mode == PERMANENT
  {
    RunAppend(run, Count(1));
    RunAppend(run + [Count(1)], Expire);
    RunAppend(run + [Count(1)] + [Expire], Check(false, 1));
  }

  /** Nineteen failures leave a timer asleep. If it comes due while the twentieth is being processed,
      the session ends up unlocked. */
  lemma UnlockedAfterTwenty()
    ensures var s := Run(Failures(19) + [Count(1)] + [Expire] + [Check(false, 1)]);
            s.tracker.failedCount == 20 && s.tracker.mode == NONE && !s.counted
    ensures Run(Failures(19) + [Count(1)]).tracker.mode == PERMANENT
  {
    assert [] + Failures(19) == Failures(19);
    AfterFailures([], 19);
    TimerDuringTwentieth(Failures(19));
  }

  /** A finger that matches during a permanent lockout ends it, and the framework, last told that the
      lockout is permanent, is not told. */
  lemma MatchedInLockout()
    ensures var locked := Failures(19) + AFailure();
            && Run(locked).tracker.mode == PERMANENT && !Run(locked).counted
            && var s := Run(locked + [Match]);
               s.tracker.mode == NONE && LastTold(s.trace) == OnPermanent
  {
    assert [] + Failures(19) == Failures(19);
    AfterFailures([], 19);
    MatchAfterTwentieth(Failures(19));
  }

  lemma MatchAfterTwentieth(run: seq<Step>)
    requires !Run(run).counted && Run(run).tracker.failedCount == 19
    ensures var s := Run(run + AFailure());
            s.tracker.mode == PERMANENT && !s.counted
    ensures var s := Run(run + AFailure() + [Match]);
            s.tracker.mode == NONE && LastTold(s.trace) == OnPermanent
  {
    RunFailure(run);
    FrameworkKnows(run + AFailure());
    RunAppend(run + AFailure(), Match);
    OthersTell(Run(run + AFailure()), Match);
  }

  /** Five failures, resetLockout and five more failures: the timer of the first lockout, aborted since,
      is all there is for the second, and once it has come due the lockout has none. */
  lemma TimedWithoutTimer()
    ensures var s := Run(Failures(5) + [ResetLockout] + Failures(5) + [Expire]);
            s.tracker.mode == TIMED && s.timers == 0 && !s.counted
  {
    assert [] + Failures(5) == Failures(5);
    AfterFailures([], 5);
    RunAppend(Failures(5), ResetLockout);
    AfterFailures(Failures(5) + [ResetLockout], 5);
    RunAppend(Failures(5) + [ResetLockout] + Failures(5), Expire);
  }
}
