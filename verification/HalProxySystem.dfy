/** The HAL proxy as a step system. Its event path and its wake lock run under different mutexes, and
    both service threads let go of theirs in the middle of a turn, so a step is one critical section:
    any number of steps of the sub-HALs, the framework and the other thread fit between two of them. */
module HalProxySystem {
  import opened Common
  import opened SensorTypes
  import opened EventQueue
  import opened Wakelock

  /** wake is the set of handles whose sensors advertise WAKE_UP. reading tells whether the wake lock
      thread is inside its blocking read. holders lists the start times of the live scoped wake locks,
      readWake counts wake-up events the framework has read and not acknowledged, and leaked counts
      references nobody will give back any more. clock is the last time anyone looked at the clock. */
  datatype Sys = Sys(
    wake: set<Handle>, timeout: int, running: bool,
    queue: Queue, lock: Lock, reading: bool,
    holders: seq<int>, readWake: nat, leaked: nat, clock: int)

  datatype Step =
    | Post(events: seq<Event>, wakeups: nat, locked: bool, writeOk: bool, now: int)
    | TakeFront
    | FinishWrite(ok: bool)
    | CommitWrite
    | FrameworkRead(n: nat)
    | Hold(now: int)
    | Release(i: nat)
    | CheckTimeout(now: int)
    | Acknowledge(processed: Option<nat>)
    | Stop
    | WakelockThreadExit(now: int)
    | Restart(capacity: nat, now: int)

  function Init(wake: set<Handle>, timeout: int, capacity: nat, limit: nat, now: int): Sys {
    Sys(wake, timeout, true,
        Queue(capacity, limit, [], 0, 0, Idle, []),
        Lock(0, now, now, false), false, [], 0, 0, now)
  }

  predicate Enabled(s: Sys, step: Step) {
    match step
    case Post(events, wakeups, _, _, now) => s.clock <= now && wakeups == Wakeups(s.wake, events)
    case TakeFront => s.running && s.queue.writer.Idle? && s.queue.pending != []
    case FinishWrite(ok) =>
      && s.queue.writer.Taken?
      && (ok ==> |s.queue.fmq| + s.queue.writer.n <= s.queue.capacity)
    case CommitWrite => s.queue.writer.Written?
    case FrameworkRead(n) => n <= |s.queue.fmq|
    case Hold(now) => s.clock <= now
    case Release(i) => i < |s.holders|
    case CheckTimeout(now) => s.running && !s.reading && s.lock.refCount > 0 && s.clock <= now
    case Acknowledge(_) => s.reading
    case Stop => s.running
    case WakelockThreadExit(now) => !s.running && !s.reading && s.clock <= now
    case Restart(capacity, now) =>
      && !s.running && !s.reading && s.queue.writer.Idle?
      && capacity > 0 && s.clock <= now
  }

  /** Scoped wake locks taken no earlier than the last reset: the ones whose release counts. */
  function Fresh(holders: seq<int>, resetTime: int): nat {
    if holders == [] then 0
    else (if holders[0] >= resetTime then 1 else 0) + Fresh(holders[1..], resetTime)
  }

  predicate TimedOut(s: Sys, now: int) {
    now - s.lock.startTime > s.timeout
  }

  /** What a failed blocking write takes off the reference count. */
  function FailureDelta(s: Sys): nat
    requires s.queue.pending != [] && s.queue.writer.Taken?
  {
    var front := s.queue.pending[0];
    if front.wakeups == 0 then 0
    else if |front.events| > s.queue.capacity then
      Wakeups(s.wake, front.events[..s.queue.capacity])
    else front.wakeups
  }

  function LostEvents(s: Sys, events: seq<Event>, writeOk: bool): seq<Event> {
    Lost(s.queue, events, writeOk)
  }

  function ResetLock(s: Sys, now: int): Sys {
    var lock := Reset(s.lock, s.running, now);
    var stale := Fresh(s.holders, s.lock.resetTime) - Fresh(s.holders, now);
    s.(lock := lock, clock := now,
       leaked := if s.running then 0 else if stale >= 0 then s.leaked + stale else s.leaked)
  }

  function PostStep(s: Sys, events: seq<Event>, wakeups: nat, locked: bool, writeOk: bool, now: int): Sys {
    s.(queue := EventQueue.Post(s.queue, events, wakeups, writeOk),
       lock := if locked then Increment(s.lock, s.running, wakeups, now) else s.lock,
       leaked := s.leaked
         + if locked && s.running then Wakeups(s.wake, LostEvents(s, events, writeOk)) else 0,
       clock := now)
  }

  function RestartStep(s: Sys, capacity: nat, now: int): Sys {
    var reset := ResetLock(s, now);
    reset.(running := true, queue := Clear(s.queue, capacity), readWake := 0,
           leaked := reset.leaked + Wakeups(s.wake, Unsent(s.queue))
             + Wakeups(s.wake, s.queue.fmq) + s.readWake)
  }

  function Next(s: Sys, step: Step): Sys
    requires Valid(s.queue) && Enabled(s, step)
  {
    match step
    case Post(events, wakeups, locked, writeOk, now) => PostStep(s, events, wakeups, locked, writeOk, now)
    case TakeFront => s.(queue := Take(s.queue))
    case FinishWrite(ok) =>
      var chunk := s.queue.pending[0].events[..s.queue.writer.n];
      if ok then s.(queue := Finish(s.queue, ok))
      else s.(queue := Finish(s.queue, ok),
              lock := Decrement(s.lock, s.running, FailureDelta(s), NO_START),
              leaked := s.leaked + if s.running then 0 else Wakeups(s.wake, chunk))
    case CommitWrite => s.(queue := Commit(s.queue))
    case FrameworkRead(n) =>
      s.(queue := Read(s.queue, n), readWake := s.readWake + Wakeups(s.wake, s.queue.fmq[..n]))
    case Hold(now) =>
      if !s.running then s.(clock := now)
      else s.(lock := Increment(s.lock, true, 1, now), holders := s.holders + [now], clock := now)
    case Release(i) =>
      s.(lock := Decrement(s.lock, s.running, 1, s.holders[i]),
         holders := s.holders[..i] + s.holders[i + 1..],
         leaked := s.leaked + if !s.running && s.holders[i] >= s.lock.resetTime then 1 else 0)
    case CheckTimeout(now) =>
      if TimedOut(s, now) then ResetLock(s, now) else s.(reading := true, clock := now)
    case Acknowledge(processed) =>
      if processed.None? then s.(reading := false)
      else
        var k := processed.value;
        s.(reading := false,
           lock := Decrement(s.lock, s.running, k, NO_START),
           readWake := s.readWake - Min(s.readWake, k),
           leaked := s.leaked + if s.running then 0 else Min(s.readWake, k))
    case Stop =>
      s.(running := false, queue := Read(s.queue, |s.queue.fmq|),
         leaked := s.leaked + Wakeups(s.wake, s.queue.fmq))
    case WakelockThreadExit(now) => ResetLock(s, now)
    case Restart(capacity, now) => RestartStep(s, capacity, now)
  }

  // ---------------------------------------------------------------- what every step keeps

  /** Every pending batch is recorded with at least the wake-up events it still holds, and no time on
      record lies in the future. */
  ghost predicate Inv(s: Sys) {
    && Valid(s.queue)
    && (forall b :: b in s.queue.pending ==> Wakeups(s.wake, b.events) <= b.wakeups)
    && 0 <= s.lock.resetTime <= s.clock
    && (forall t :: t in s.holders ==> 0 <= t <= s.clock)
    && Covered(s.lock)
  }

  lemma InitInv(wake: set<Handle>, timeout: int, capacity: nat, limit: nat, now: int)
    requires capacity > 0 && now >= 0
    ensures Inv(Init(wake, timeout, capacity, limit, now))
    ensures Ledger(Init(wake, timeout, capacity, limit, now))
  {
  }

  lemma StepValid(s: Sys, step: Step)
    requires Inv(s) && Enabled(s, step)
    ensures Valid(Next(s, step).queue)
  {
    match step
    case Post(events, wakeups, _, writeOk, _) => PostValid(s.queue, events, wakeups, writeOk);
    case TakeFront => TakeValid(s.queue);
    case FinishWrite(ok) => FinishUnsent(s.queue, ok);
    case CommitWrite => CommitValid(s.queue);
    case _ =>
  }

  lemma StepRecords(s: Sys, step: Step)
    requires Inv(s) && Enabled(s, step)
    ensures forall b :: b in Next(s, step).queue.pending ==> Wakeups(s.wake, b.events) <= b.wakeups
  {
    match step
    case Post(events, _, _, writeOk, _) =>
      WakeupsSplit(s.wake, events, NumToWrite(s.queue, events, writeOk));
    case CommitWrite =>
      var front := s.queue.pending[0];
      assert front in s.queue.pending;
      if |front.events| > s.queue.capacity {
        WakeupsSplit(s.wake, front.events, s.queue.capacity);
      }
    case _ =>
  }

  lemma StepInv(s: Sys, step: Step)
    requires Inv(s) && Enabled(s, step)
    ensures Inv(Next(s, step))
  {
    StepValid(s, step);
    StepRecords(s, step);
    StepTimes(s, step);
    StepHolders(s, step);
  }

  lemma StepTimes(s: Sys, step: Step)
    requires Inv(s) && Enabled(s, step)
    ensures 0 <= Next(s, step).lock.resetTime <= Next(s, step).clock
    ensures Covered(Next(s, step).lock)
  {
  }

  lemma StepHolders(s: Sys, step: Step)
    requires Inv(s) && Enabled(s, step)
    ensures forall t :: t in Next(s, step).holders ==> 0 <= t <= Next(s, step).clock
  {
    var r := Next(s, step);
    forall t | t in r.holders
      ensures t in s.holders || t == r.clock
    {
      if step.Hold? && s.running {
        assert r.holders == s.holders + [step.now];
      } else if step.Release? {
        assert r.holders == s.holders[..step.i] + s.holders[step.i + 1..];
        assert t in s.holders[..step.i] || t in s.holders[step.i + 1..];
      } else {
        assert r.holders == s.holders;
      }
    }
  }

  // ---------------------------------------------------------------- the ledger

  /** Everything the reference count is supposed to stand for. */
  function Owed(s: Sys): nat {
    Wakeups(s.wake, Unsent(s.queue)) + Wakeups(s.wake, s.queue.fmq) + s.readWake
      + Fresh(s.holders, s.lock.resetTime) + s.leaked
  }

  predicate Ledger(s: Sys) {
    s.lock.refCount == Owed(s)
  }

  /** The steps that keep the count truthful. Everything here can be read off before the step. */
  predicate Harmless(s: Sys, step: Step)
    requires Valid(s.queue) && Enabled(s, step)
  {
    match step
    case Post(events, _, locked, writeOk, _) =>
      // the events are counted, or none of those that survive is a wake-up event
      || (locked && s.running)
      || Wakeups(s.wake, events) == Wakeups(s.wake, LostEvents(s, events, writeOk))
    case FinishWrite(ok) =>
      // a failed write gives back what the batch was recorded with, not what is left of it
      var front := s.queue.pending[0];
      || ok || !s.running || |front.events| > s.queue.capacity
      || front.wakeups == Wakeups(s.wake, front.events)
      || s.lock.refCount == Wakeups(s.wake, front.events)
    case CheckTimeout(now) =>
      // a timeout forgives leaked references, but nothing that is still on its way
      TimedOut(s, now) ==>
        && Wakeups(s.wake, Unsent(s.queue)) + Wakeups(s.wake, s.queue.fmq) + s.readWake == 0
        && Fresh(s.holders, now) == 0
    case Acknowledge(processed) =>
      // the framework acknowledges no more than it read, or nothing else is counted
      processed.Some? && s.running ==>
        processed.value <= s.readWake || s.lock.refCount == s.readWake
    case _ => true
  }

  lemma {:induction false} FreshAntitone(holders: seq<int>, t: int, u: int)
    requires t <= u
    ensures Fresh(holders, u) <= Fresh(holders, t)
  {
    if holders != [] {
      FreshAntitone(holders[1..], t, u);
    }
  }

  lemma {:induction false} FreshAppend(holders: seq<int>, start: int, t: int)
    ensures Fresh(holders + [start], t) == Fresh(holders, t) + if start >= t then 1 else 0
  {
    if holders == [] {
      assert [start][1..] == [];
    } else {
      assert (holders + [start])[1..] == holders[1..] + [start];
      FreshAppend(holders[1..], start, t);
    }
  }

  lemma {:induction false} FreshRemove(holders: seq<int>, i: nat, t: int)
    requires i < |holders|
    ensures Fresh(holders[..i] + holders[i + 1..], t)
         == Fresh(holders, t) - if holders[i] >= t then 1 else 0
  {
    var r := holders[..i] + holders[i + 1..];
    if i == 0 {
      assert r == holders[1..];
    } else {
      assert r[1..] == holders[1..][..i - 1] + holders[1..][i..];
      FreshRemove(holders[1..], i - 1, t);
    }
  }

  /** A post adds its wake-up events to what is on its way, except for those that overflow. */
  lemma PostWakeups(s: Sys, events: seq<Event>, wakeups: nat, writeOk: bool)
    requires Valid(s.queue)
    ensures var r := EventQueue.Post(s.queue, events, wakeups, writeOk);
            Wakeups(s.wake, Unsent(r)) + Wakeups(s.wake, r.fmq) + Wakeups(s.wake, LostEvents(s, events, writeOk))
              == Wakeups(s.wake, Unsent(s.queue)) + Wakeups(s.wake, s.queue.fmq) + Wakeups(s.wake, events)
  {
    var n := NumToWrite(s.queue, events, writeOk);
    PostUnsent(s.queue, events, wakeups, writeOk);
    WakeupsSplit(s.wake, events, n);
    WakeupsConcat(s.wake, s.queue.fmq, events[..n]);
    WakeupsConcat(s.wake, Unsent(s.queue), events[n..]);
    assert Unsent(s.queue) + [] == Unsent(s.queue);
  }

  lemma PostLedger(s: Sys, step: Step)
    requires Inv(s) && Enabled(s, step) && step.Post? && Ledger(s)
    ensures Ledger(Next(s, step)) <==> Harmless(s, step)
  {
    PostWakeups(s, step.events, step.wakeups, step.writeOk);
  }

  /** The two halves of the front batch, in wake-up events. */
  lemma FinishWakeups(s: Sys, ok: bool)
    requires Inv(s) && s.queue.writer.Taken?
    ensures var front, n := s.queue.pending[0].events, s.queue.writer.n;
            && Wakeups(s.wake, Unsent(s.queue))
                 == Wakeups(s.wake, front[..n]) + Wakeups(s.wake, Unsent(Finish(s.queue, ok)))
            && Wakeups(s.wake, s.queue.fmq + front[..n])
                 == Wakeups(s.wake, s.queue.fmq) + Wakeups(s.wake, front[..n])
            && Wakeups(s.wake, front[..n]) <= Wakeups(s.wake, front) <= s.queue.pending[0].wakeups
            && (|front| <= s.queue.capacity ==> front[..n] == front)
  {
    var front, n := s.queue.pending[0].events, s.queue.writer.n;
    FinishUnsent(s.queue, ok);
    WakeupsConcat(s.wake, front[..n], Unsent(Finish(s.queue, ok)));
    WakeupsConcat(s.wake, s.queue.fmq, front[..n]);
    WakeupsSplit(s.wake, front, n);
    assert s.queue.pending[0] in s.queue.pending;
  }

  lemma FinishLedger(s: Sys, step: Step)
    requires Inv(s) && Enabled(s, step) && step.FinishWrite? && Ledger(s)
    ensures Ledger(Next(s, step)) <==> Harmless(s, step)
  {
    FinishWakeups(s, step.ok);
    var r := Next(s, step);
    if step.ok {
      assert Owed(r) == Owed(s);
    } else {
      var front := s.queue.pending[0];
      var chunk := Wakeups(s.wake, front.events[..s.queue.writer.n]);
      assert Owed(r) == Owed(s) - if s.running then chunk else 0;
      assert s.running ==> r.lock.refCount == s.lock.refCount - Min(s.lock.refCount, FailureDelta(s));
    }
  }

  lemma QueueLedger(s: Sys, step: Step)
    requires Inv(s) && Enabled(s, step) && Ledger(s)
    requires step.TakeFront? || step.CommitWrite? || step.FrameworkRead? || step.Stop?
    ensures Ledger(Next(s, step))
  {
    match step
    case TakeFront => TakeValid(s.queue);
    case CommitWrite => CommitValid(s.queue);
    case FrameworkRead(n) =>
      WakeupsSplit(s.wake, s.queue.fmq, n);
    case Stop =>
      assert s.queue.fmq[..|s.queue.fmq|] == s.queue.fmq;
  }

  lemma HolderLedger(s: Sys, step: Step)
    requires Inv(s) && Enabled(s, step) && Ledger(s) && (step.Hold? || step.Release?)
    ensures Ledger(Next(s, step))
  {
    match step
    case Hold(now) => FreshAppend(s.holders, now, s.lock.resetTime);
    case Release(i) =>
      FreshRemove(s.holders, i, s.lock.resetTime);
      assert s.holders[i] in s.holders;
  }

  lemma ResetLedger(s: Sys, step: Step)
    requires Inv(s) && Enabled(s, step) && Ledger(s)
    requires step.CheckTimeout? || step.WakelockThreadExit? || step.Restart?
    ensures Ledger(Next(s, step)) <==> Harmless(s, step)
  {
    FreshAntitone(s.holders, s.lock.resetTime, step.now);
  }

  lemma AcknowledgeLedger(s: Sys, step: Step)
    requires Inv(s) && Enabled(s, step) && Ledger(s) && step.Acknowledge?
    ensures Ledger(Next(s, step)) <==> Harmless(s, step)
  {
  }

  /** From a truthful count, a step leads to a truthful count exactly when it is harmless. */
  lemma LedgerExactly(s: Sys, step: Step)
    requires Inv(s) && Enabled(s, step) && Ledger(s)
    ensures Ledger(Next(s, step)) <==> Harmless(s, step)
  {
    match step
    case Post(_, _, _, _, _) => PostLedger(s, step);
    case FinishWrite(_) => FinishLedger(s, step);
    case Hold(_) => HolderLedger(s, step);
    case Release(_) => HolderLedger(s, step);
    case CheckTimeout(_) => ResetLedger(s, step);
    case WakelockThreadExit(_) => ResetLedger(s, step);
    case Restart(_, _) => ResetLedger(s, step);
    case Acknowledge(_) => AcknowledgeLedger(s, step);
    case _ => QueueLedger(s, step);
  }
}
