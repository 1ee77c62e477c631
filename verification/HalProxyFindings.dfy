/** Concrete runs in which the wake lock and what it stands for part ways. */
module HalProxyFindings {
  import opened Common
  import opened SensorTypes
  import opened EventQueue
  import opened Wakelock
  import opened HalProxySystem
  import opened HalProxyRuns

  const TAP: Event := Event(7, 1.0)

  /** Nothing is pending, and the one place in the message queue is free or taken. */
  function Calm(fmq: seq<Event>, lock: Lock, readWake: nat, clock: int): Sys {
    Sys({7}, 100, true, Queue(1, 5, [], 0, 0, Idle, fmq), lock, false, [], readWake, 0, clock)
  }

  function Start(): Sys {
    Calm([], Lock(0, 0, 0, false), 0, 0)
  }

  lemma StartIsInit()
    ensures Start() == Init({7}, 100, 1, 5, 0)
  {
  }

  lemma TapWakeups()
    ensures Wakeups({7}, [TAP]) == 1 && Wakeups({7}, [TAP, TAP]) == 2 && Wakeups({7}, []) == 0
  {
    assert [TAP, TAP][1..] == [TAP] && [TAP][1..] == [];
  }

  lemma CalmIsValid(fmq: seq<Event>, lock: Lock, readWake: nat, clock: int)
    requires |fmq| <= 1
    ensures Valid(Calm(fmq, lock, readWake, clock).queue)
  {
  }

  lemma PostTap(lock: Lock, readWake: nat, clock: int, now: int)
    requires clock <= now
    ensures Do(Calm([], lock, readWake, clock), Post([TAP], 1, true, true, now))
         == Calm([TAP], Lock(lock.refCount + 1, now, lock.resetTime, lock.held || lock.refCount == 0), readWake, now)
  {
    TapWakeups();
    CalmIsValid([], lock, readWake, clock);
    assert [TAP][..1] == [TAP] && [TAP][1..] == [];
  }

  lemma ReadTap(lock: Lock, readWake: nat, clock: int)
    ensures Do(Calm([TAP], lock, readWake, clock), FrameworkRead(1)) == Calm([], lock, readWake + 1, clock)
  {
    TapWakeups();
    CalmIsValid([TAP], lock, readWake, clock);
    assert [TAP][..1] == [TAP] && [TAP][1..] == [];
  }

  lemma TimeOut(fmq: seq<Event>, lock: Lock, readWake: nat, clock: int, now: int)
    requires |fmq| <= 1 && lock.refCount > 0 && clock <= now && now - lock.startTime > 100
    ensures Do(Calm(fmq, lock, readWake, clock), CheckTimeout(now))
         == Calm(fmq, Lock(0, lock.startTime, now, false), readWake, now)
  {
    CalmIsValid(fmq, lock, readWake, clock);
  }

  lemma WaitForAcknowledgement(fmq: seq<Event>, lock: Lock, readWake: nat, clock: int, now: int)
    requires |fmq| <= 1 && lock.refCount > 0 && clock <= now && now - lock.startTime <= 100
    ensures Do(Calm(fmq, lock, readWake, clock), CheckTimeout(now))
         == Calm(fmq, lock, readWake, now).(reading := true)
  {
    CalmIsValid(fmq, lock, readWake, clock);
  }

  lemma {:induction false} AfterAppend(s: Sys, run: seq<Step>, step: Step)
    ensures After(s, run + [step]) == Do(After(s, run), step)
    decreases |run|
  {
    if run == [] {
      assert run + [step] == [step] && [step][1..] == [];
    } else {
      assert (run + [step])[1..] == run[1..] + [step];
      AfterAppend(Do(s, run[0]), run[1..], step);
    }
  }

  ghost predicate Leads(from: Sys, run: seq<Step>, to: Sys) {
    After(from, run) == to
  }

  /** Some run from the initial state leads here. */
  ghost predicate Reachable(s: Sys) {
    exists run :: Leads(Init({7}, 100, 1, 5, 0), run, s)
  }

  lemma StartReachable()
    ensures Reachable(Start())
  {
    StartIsInit();
    assert Leads(Start(), [], Start());
  }

  lemma OneMore(from: Sys, run: seq<Step>, s: Sys, step: Step)
    requires Leads(from, run, s)
    ensures Leads(from, run + [step], Do(s, step))
  {
    AfterAppend(from, run, step);
  }

  lemma ReachStep(s: Sys, step: Step, r: Sys)
    requires Reachable(s) && Do(s, step) == r
    ensures Reachable(r)
  {
    var run :| Leads(Init({7}, 100, 1, 5, 0), run, s);
    OneMore(Init({7}, 100, 1, 5, 0), run, s, step);
  }

  /** The wake lock is free although the framework has yet to read a wake-up event. */
  predicate Betrayed(s: Sys) {
    Wakeups(s.wake, s.queue.fmq) > 0 && s.lock.refCount == 0 && !s.lock.held
  }

  // ---------------------------------------------------------------- a late acknowledgement

  lemma OnePostedAndRead()
    ensures Reachable(Calm([], Lock(1, 1, 0, true), 1, 1))
  {
    StartReachable();
    PostTap(Lock(0, 0, 0, false), 0, 0, 1);
    var posted := Calm([TAP], Lock(1, 1, 0, true), 0, 1);
    ReachStep(Start(), Post([TAP], 1, true, true, 1), posted);
    ReadTap(Lock(1, 1, 0, true), 0, 1);
    ReachStep(posted, FrameworkRead(1), Calm([], Lock(1, 1, 0, true), 1, 1));
  }

  lemma ForgivenThenAnother()
    ensures Reachable(Calm([TAP], Lock(1, 300, 200, true), 1, 300))
  {
    OnePostedAndRead();
    TimeOut([], Lock(1, 1, 0, true), 1, 1, 200);
    var forgiven := Calm([], Lock(0, 1, 200, false), 1, 200);
    ReachStep(Calm([], Lock(1, 1, 0, true), 1, 1), CheckTimeout(200), forgiven);
    PostTap(Lock(0, 1, 200, false), 1, 200, 300);
    ReachStep(forgiven, Post([TAP], 1, true, true, 300), Calm([TAP], Lock(1, 300, 200, true), 1, 300));
  }

  /** After a timeout, the acknowledgement of an event posted before it pays for one posted after. */
  lemma LateAcknowledgement()
    ensures exists s :: Reachable(s) && Betrayed(s)
  {
    ForgivenThenAnother();
    WaitForAcknowledgement([TAP], Lock(1, 300, 200, true), 1, 300, 301);
    var waiting := Calm([TAP], Lock(1, 300, 200, true), 1, 301).(reading := true);
    ReachStep(Calm([TAP], Lock(1, 300, 200, true), 1, 300), CheckTimeout(301), waiting);
    LastReference();
    ReachStep(waiting, Acknowledge(Some(1)), Do(waiting, Acknowledge(Some(1))));
  }

  lemma LastReference()
    ensures Betrayed(Do(Calm([TAP], Lock(1, 300, 200, true), 1, 301).(reading := true), Acknowledge(Some(1))))
  {
    CalmIsValid([TAP], Lock(1, 300, 200, true), 1, 301);
    TapWakeups();
  }

  // ---------------------------------------------------------------- an unread event

  /** An event is posted and stored, and the threads are told to stop before the framework reads it. */
  lemma StoppedUnread()
    ensures var run := [Post([TAP], 1, true, true, 1), Stop];
            && AllReads(Start(), run) == [] && AllDrops(Start(), run) == [TAP]
            && After(Start(), run).queue.fmq == [] && Unsent(After(Start(), run).queue) == []
  {
    var run := [Post([TAP], 1, true, true, 1), Stop];
    var posted := Calm([TAP], Lock(1, 1, 0, true), 0, 1);
    PostTap(Lock(0, 0, 0, false), 0, 0, 1);
    CalmIsValid([], Lock(0, 0, 0, false), 0, 0);
    CalmIsValid([TAP], Lock(1, 1, 0, true), 0, 1);
    assert run[1..] == [Stop] && [Stop][1..] == [];
    assert Drops(Start(), run[0]) == [] && Drops(posted, Stop) == [TAP];
    assert [TAP][|[TAP]|..] == [];
    assert AllReads(posted, [Stop]) == [] && AllDrops(posted, [Stop]) == [TAP];
    assert After(Start(), run) == Do(posted, Stop);
  }

  // ---------------------------------------------------------------- a failed write

  function Split(writer: Writer): Sys {
    Sys({7}, 100, true, Queue(1, 5, [Batch([TAP], 2)], 1, 1, writer, [TAP]),
        Lock(2, 1, 0, true), false, [], 0, 0, 1)
  }

  lemma PostTwoTaps()
    ensures Do(Start(), Post([TAP, TAP], 2, true, true, 1)) == Split(Idle)
  {
    TapWakeups();
    CalmIsValid([], Lock(0, 0, 0, false), 0, 0);
    assert [TAP, TAP][..1] == [TAP] && [TAP, TAP][1..] == [TAP];
  }

  lemma SplitIsValid(writer: Writer)
    requires writer == Idle || writer == Taken(1)
    ensures Valid(Split(writer).queue)
  {
    assert Flatten([Batch([TAP], 2)]) == [TAP] by {
      assert [Batch([TAP], 2)][1..] == [] && [TAP] + [] == [TAP];
    }
  }

  lemma TakeSplit()
    ensures Do(Split(Idle), TakeFront) == Split(Taken(1))
  {
    SplitIsValid(Idle);
  }

  lemma FailSplit()
    ensures Betrayed(Do(Split(Taken(1)), FinishWrite(false)))
  {
    SplitIsValid(Taken(1));
    TapWakeups();
  }

  /** Two wake-up events are posted, one fits. When the write of the other fails, both references go,
      and the device may sleep although the framework has not read the first event. */
  lemma FailedWriteOfSplitBatch()
    ensures exists s :: Reachable(s) && Betrayed(s)
  {
    StartReachable();
    PostTwoTaps();
    ReachStep(Start(), Post([TAP, TAP], 2, true, true, 1), Split(Idle));
    TakeSplit();
    ReachStep(Split(Idle), TakeFront, Split(Taken(1)));
    FailSplit();
    ReachStep(Split(Taken(1)), FinishWrite(false), Do(Split(Taken(1)), FinishWrite(false)));
  }

  // ---------------------------------------------------------------- a lock nobody gives back

  /** A scoped wake lock is alive, and forgotten by a timeout or not. */
  function Holding(lock: Lock, clock: int): Sys {
    Calm([], lock, 0, clock).(holders := [1])
  }

  lemma HoldOne()
    ensures Do(Start(), Hold(1)) == Holding(Lock(1, 1, 0, true), 1)
  {
    CalmIsValid([], Lock(0, 0, 0, false), 0, 0);
  }

  lemma HoldTimesOut()
    ensures Do(Holding(Lock(1, 1, 0, true), 1), CheckTimeout(200)) == Holding(Lock(0, 1, 200, false), 200)
  {
    CalmIsValid([], Lock(1, 1, 0, true), 0, 1);
  }

  lemma PostNothing()
    ensures var r := Do(Holding(Lock(0, 1, 200, false), 200), Post([], 0, true, true, 300));
            r.lock.refCount == 0 && r.lock.held
  {
    CalmIsValid([], Lock(0, 1, 200, false), 0, 200);
    TapWakeups();
  }

  /** A batch that a sub-HAL posts with its wake lock taken and that is filtered down to nothing, after
      a timeout: the platform lock is acquired and nothing is counted that would release it. */
  lemma HeldForNothing()
    ensures exists s :: Reachable(s) && s.lock.refCount == 0 && s.lock.held
  {
    StartReachable();
    HoldOne();
    ReachStep(Start(), Hold(1), Holding(Lock(1, 1, 0, true), 1));
    HoldTimesOut();
    ReachStep(Holding(Lock(1, 1, 0, true), 1), CheckTimeout(200), Holding(Lock(0, 1, 200, false), 200));
    PostNothing();
    var r := Do(Holding(Lock(0, 1, 200, false), 200), Post([], 0, true, true, 300));
    ReachStep(Holding(Lock(0, 1, 200, false), 200), Post([], 0, true, true, 300), r);
  }
}
