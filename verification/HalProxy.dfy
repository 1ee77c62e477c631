/** The HAL proxy's critical sections as they update its members. */
module HalProxy {
  import opened Common
  import opened SensorTypes
  import opened EventQueue
  import opened Wakelock
  import opened HalProxySystem

  /** What the specification keeps books on: see the last four fields of Sys. */
  datatype Books = Books(holders: seq<int>, readWake: nat, leaked: nat, clock: int)

  class HalProxy {
    const wakeSensors: set<Handle>
    const wakelockTimeoutNs: int
    const maxSizePendingWriteEventsQueue: nat

    var threadsRun: bool
    var pendingWriteEventsQueue: seq<Batch>
    var sizePendingWriteEventsQueue: nat
    var mostEventsObservedPendingWriteEventsQueue: nat
    var wakelockRefCount: nat
    var wakelockTimeoutStartTime: int
    var wakelockTimeoutResetTime: int

    // the message queue to the framework and the platform's wake lock
    var quantumCount: nat
    var eventQueue: seq<Event>
    var platformLockHeld: bool

    // where the two service threads stand while they hold no lock
    var writer: Writer
    var reading: bool

    ghost var books: Books

    ghost function QueueState(): EventQueue.Queue
      reads this
    {
      EventQueue.Queue(quantumCount, maxSizePendingWriteEventsQueue, pendingWriteEventsQueue,
        sizePendingWriteEventsQueue, mostEventsObservedPendingWriteEventsQueue, writer, eventQueue)
    }

    ghost function LockState(): Lock
      reads this
    {
      Lock(wakelockRefCount, wakelockTimeoutStartTime, wakelockTimeoutResetTime, platformLockHeld)
    }

    ghost function State(): Sys
      reads this
    {
      Sys(wakeSensors, wakelockTimeoutNs, threadsRun, QueueState(), LockState(), reading,
        books.holders, books.readWake, books.leaked, books.clock)
    }

    constructor (wake: set<Handle>, timeout: int, capacity: nat, limit: nat, now: int)
      ensures State() == Init(wake, timeout, capacity, limit, now)
    {
      wakeSensors, wakelockTimeoutNs, maxSizePendingWriteEventsQueue := wake, timeout, limit;
      threadsRun, writer, reading := true, Idle, false;
      pendingWriteEventsQueue, sizePendingWriteEventsQueue := [], 0;
      mostEventsObservedPendingWriteEventsQueue := 0;
      wakelockRefCount, wakelockTimeoutStartTime, wakelockTimeoutResetTime := 0, now, now;
      quantumCount, eventQueue, platformLockHeld := capacity, [], false;
      books := Books([], 0, 0, now);
    }

    // -------------------------------------------------------------- reference counting

    method IncrementRefCountAndMaybeAcquireWakelock(delta: nat, now: int) returns (ok: bool, timeoutStart: int)
      modifies this`wakelockRefCount, this`wakelockTimeoutStartTime, this`platformLockHeld
      ensures LockState() == Increment(old(LockState()), threadsRun, delta, now)
      ensures ok == threadsRun && (ok ==> timeoutStart == now)
      ensures ok ==> wakelockRefCount == old(wakelockRefCount) + delta && wakelockTimeoutStartTime == now
      ensures ok ==> (platformLockHeld <==> old(platformLockHeld) || old(wakelockRefCount) == 0)
    {
      if !threadsRun {
        return false, NO_START;
      }
      if wakelockRefCount == 0 {
        platformLockHeld := true;
      }
      wakelockTimeoutStartTime := now;
      wakelockRefCount := wakelockRefCount + delta;
      return true, wakelockTimeoutStartTime;
    }

    method DecrementRefCountAndMaybeReleaseWakelock(delta: nat, start: int)
      modifies this`wakelockRefCount, this`platformLockHeld
      ensures LockState() == Decrement(old(LockState()), threadsRun, delta, start)
      ensures threadsRun && (start == -1 || start >= wakelockTimeoutResetTime) ==>
        && wakelockRefCount == Max(0, old(wakelockRefCount) - delta)
        && (old(wakelockRefCount) > 0 ==> (platformLockHeld <==> old(platformLockHeld) && wakelockRefCount > 0))
      ensures !threadsRun || (start != -1 && start < wakelockTimeoutResetTime) || old(wakelockRefCount) == 0 ==>
        wakelockRefCount == old(wakelockRefCount) && platformLockHeld == old(platformLockHeld)
    {
      if !threadsRun {
        return;
      }
      var timeoutStart := if start == NO_START then wakelockTimeoutResetTime else start;
      if wakelockRefCount == 0 || timeoutStart < wakelockTimeoutResetTime {
        return;
      }
      wakelockRefCount := wakelockRefCount - Min(wakelockRefCount, delta);
      if wakelockRefCount == 0 {
        platformLockHeld := false;
      }
    }

    method ResetSharedWakelock(now: int)
      modifies this`wakelockRefCount, this`platformLockHeld, this`wakelockTimeoutResetTime
      ensures LockState() == Reset(old(LockState()), threadsRun, now)
      ensures wakelockTimeoutResetTime == now
      ensures wakelockRefCount == if threadsRun then 0 else old(wakelockRefCount)
    {
      DecrementRefCountAndMaybeReleaseWakelock(wakelockRefCount, NO_START);
      wakelockTimeoutResetTime := now;
    }

    method SharedWakelockDidTimeout(now: int) returns (didTimeout: bool, timeLeft: int)
      ensures didTimeout == TimedOut(State(), now)
      ensures didTimeout <==> now > wakelockTimeoutStartTime + wakelockTimeoutNs
      ensures !didTimeout ==> timeLeft >= 0 && now + timeLeft == wakelockTimeoutStartTime + wakelockTimeoutNs
    {
      var duration := now - wakelockTimeoutStartTime;
      if duration > wakelockTimeoutNs {
        didTimeout, timeLeft := true, 0;
      } else {
        didTimeout, timeLeft := false, wakelockTimeoutNs - duration;
      }
    }

    method CountNumWakeupEvents(events: seq<Event>, n: nat) returns (count: nat)
      requires n <= |events|
      ensures count == Wakeups(wakeSensors, events[..n])
    {
      count := 0;
      for i := 0 to n
        invariant count == Wakeups(wakeSensors, events[..i])
      {
        WakeupsConcat(wakeSensors, events[..i], [events[i]]);
        assert events[..i + 1] == events[..i] + [events[i]] && [events[i]][1..] == [];
        if events[i].handle in wakeSensors {
          count := count + 1;
        }
      }
    }

    // -------------------------------------------------------------- scoped wake locks

    method CreateScopedWakelock(now: int) returns (locked: bool, start: int)
      requires Valid(QueueState()) && Enabled(State(), Hold(now))
      modifies this
      ensures State() == Next(old(State()), Hold(now))
      ensures locked == threadsRun && (locked ==> books.holders == old(books.holders) + [start])
    {
      locked, start := IncrementRefCountAndMaybeAcquireWakelock(1, now);
      books := books.(clock := now, holders := books.holders + if locked then [now] else []);
      assert !locked ==> books.holders == old(books.holders);
    }

    method ReleaseScopedWakelock(start: int, ghost i: nat)
      requires Valid(QueueState()) && Enabled(State(), Release(i)) && start == books.holders[i]
      modifies this
      ensures State() == Next(old(State()), Release(i))
    {
      books := books.(holders := books.holders[..i] + books.holders[i + 1..],
                      leaked := books.leaked + if !threadsRun && start >= wakelockTimeoutResetTime then 1 else 0);
      DecrementRefCountAndMaybeReleaseWakelock(1, start);
    }

    // -------------------------------------------------------------- posting and draining events

    method PostEventsToMessageQueue(events: seq<Event>, numWakeupEvents: nat, locked: bool, writeOk: bool, now: int)
      requires |eventQueue| <= quantumCount
      modifies this
      ensures State() == PostStep(old(State()), events, numWakeupEvents, locked, writeOk, now)
    {
      ghost var before := State();
      if locked {
        var _, _ := IncrementRefCountAndMaybeAcquireWakelock(numWakeupEvents, now);
      }
      WriteOrEnqueue(events, numWakeupEvents, writeOk);
      books := Books(before.holders, before.readWake,
        PostStep(before, events, numWakeupEvents, locked, writeOk, now).leaked, now);
      assert LockState() == if locked then Increment(before.lock, threadsRun, numWakeupEvents, now) else before.lock;
    }

    /** The part of posting that concerns the two queues. */
    method WriteOrEnqueue(events: seq<Event>, numWakeupEvents: nat, writeOk: bool)
      requires |eventQueue| <= quantumCount
      modifies this`eventQueue, this`pendingWriteEventsQueue, this`sizePendingWriteEventsQueue
      modifies this`mostEventsObservedPendingWriteEventsQueue
      ensures QueueState() == EventQueue.Post(old(QueueState()), events, numWakeupEvents, writeOk)
    {
      ghost var before := QueueState();
      var numToWrite := 0;
      if pendingWriteEventsQueue == [] {
        numToWrite := Min(|events|, quantumCount - |eventQueue|);
        if numToWrite > 0 && !writeOk {
          numToWrite := 0;
        }
      }
      assert numToWrite == NumToWrite(before, events, writeOk);
      eventQueue := eventQueue + events[..numToWrite];
      var numLeft := |events| - numToWrite;
      if numToWrite < |events| && sizePendingWriteEventsQueue + numLeft <= maxSizePendingWriteEventsQueue {
        pendingWriteEventsQueue := pendingWriteEventsQueue + [Batch(events[numToWrite..], numWakeupEvents)];
        sizePendingWriteEventsQueue := sizePendingWriteEventsQueue + numLeft;
        mostEventsObservedPendingWriteEventsQueue :=
          Max(mostEventsObservedPendingWriteEventsQueue, sizePendingWriteEventsQueue);
      }
    }

    /** The thread picks the front batch and lets go of its lock. */
    method HandlePendingWritesTake() returns (chunk: seq<Event>)
      requires Valid(QueueState()) && Enabled(State(), TakeFront)
      modifies this`writer
      ensures State() == Next(old(State()), TakeFront)
      ensures chunk != [] && chunk <= Unsent(QueueState())
    {
      var numToWrite := Min(|pendingWriteEventsQueue[0].events|, quantumCount);
      chunk := pendingWriteEventsQueue[0].events[..numToWrite];
      writer := Taken(numToWrite);
      assert pendingWriteEventsQueue[0] in pendingWriteEventsQueue;
    }

    /** The blocking write has returned ok; the thread still holds no lock. */
    method HandlePendingWritesFinish(ok: bool)
      requires Valid(QueueState()) && Enabled(State(), FinishWrite(ok))
      modifies this
      ensures State() == Next(old(State()), FinishWrite(ok))
    {
      var numToWrite, front := writer.n, pendingWriteEventsQueue[0];
      if ok {
        eventQueue := eventQueue + front.events[..numToWrite];
      } else {
        books := books.(leaked := books.leaked
          + if threadsRun then 0 else Wakeups(wakeSensors, front.events[..numToWrite]));
        GiveUp(front);
      }
      writer := Written(numToWrite);
    }

    /** What a failed write takes off the reference count. */
    method GiveUp(front: Batch)
      requires Valid(QueueState()) && writer.Taken? && front == pendingWriteEventsQueue[0]
      modifies this`wakelockRefCount, this`platformLockHeld
      ensures LockState() == Decrement(old(LockState()), threadsRun, old(FailureDelta(State())), NO_START)
    {
      if front.wakeups > 0 {
        if |front.events| > quantumCount {
          var count := CountNumWakeupEvents(front.events, quantumCount);
          DecrementRefCountAndMaybeReleaseWakelock(count, NO_START);
        } else {
          DecrementRefCountAndMaybeReleaseWakelock(front.wakeups, NO_START);
        }
      }
    }

    method HandlePendingWritesCommit()
      requires Valid(QueueState()) && Enabled(State(), CommitWrite)
      modifies this`writer, this`sizePendingWriteEventsQueue, this`pendingWriteEventsQueue
      ensures State() == Next(old(State()), CommitWrite)
    {
      var front := pendingWriteEventsQueue[0];
      CommitBacklog(QueueState());
      sizePendingWriteEventsQueue := sizePendingWriteEventsQueue - writer.n;
      if |front.events| > quantumCount {
        pendingWriteEventsQueue := [front.(events := front.events[quantumCount..])] + pendingWriteEventsQueue[1..];
      } else {
        pendingWriteEventsQueue := pendingWriteEventsQueue[1..];
      }
      writer := Idle;
    }

    // -------------------------------------------------------------- the wake lock thread

    method HandleWakelocksCheck(now: int)
      requires Valid(QueueState()) && Enabled(State(), CheckTimeout(now))
      modifies this
      ensures State() == Next(old(State()), CheckTimeout(now))
    {
      var didTimeout, _ := SharedWakelockDidTimeout(now);
      if didTimeout {
        ResetSharedWakelock(now);
        books := books.(leaked := 0, clock := now);
      } else {
        reading := true;
        books := books.(clock := now);
      }
    }

    method HandleWakelocksAcknowledge(processed: Option<nat>)
      requires Valid(QueueState()) && Enabled(State(), Acknowledge(processed))
      modifies this
      ensures State() == Next(old(State()), Acknowledge(processed))
    {
      reading := false;
      if processed.Some? {
        ghost var paid := Min(books.readWake, processed.value);
        books := books.(readWake := books.readWake - paid, leaked := books.leaked + if threadsRun then 0 else paid);
        DecrementRefCountAndMaybeReleaseWakelock(processed.value, NO_START);
      }
    }

    method HandleWakelocksExit(now: int)
      requires Valid(QueueState()) && Enabled(State(), WakelockThreadExit(now))
      modifies this
      ensures State() == Next(old(State()), WakelockThreadExit(now))
    {
      books := books.(clock := now, leaked := ResetLock(State(), now).leaked);
      ResetSharedWakelock(now);
    }

    // -------------------------------------------------------------- stopping and starting over

    method StopThreads()
      requires Valid(QueueState()) && Enabled(State(), Stop)
      modifies this
      ensures State() == Next(old(State()), Stop)
    {
      threadsRun := false;
      books := books.(leaked := books.leaked + Wakeups(wakeSensors, eventQueue));
      eventQueue := eventQueue[|eventQueue|..];
    }

    /** initializeCommon once both threads have been joined. */
    method InitializeCommon(capacity: nat, now: int)
      requires writer.Idle? && books.clock <= now
      modifies this
      ensures State() == RestartStep(old(State()), capacity, now)
    {
      ghost var before := State();
      ResetSharedWakelock(now);
      pendingWriteEventsQueue, sizePendingWriteEventsQueue := [], 0;
      eventQueue, quantumCount := [], capacity;
      threadsRun := true;
      books := Books(before.holders, 0, RestartStep(before, capacity, now).leaked, now);
    }
  }
}
