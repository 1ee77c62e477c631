/** What holds of the HAL proxy over every run: any sequence of steps, in any interleaving. */
module HalProxyRuns {
  import opened Common
  import opened SensorTypes
  import opened EventQueue
  import opened EventLog
  import opened Wakelock
  import opened HalProxySystem

  /** A step that cannot be taken changes nothing. */
  ghost function Do(s: Sys, step: Step): Sys {
    if Valid(s.queue) && Enabled(s, step) then Next(s, step) else s
  }

  ghost function After(s: Sys, run: seq<Step>): Sys
    decreases |run|
  {
    if run == [] then s else After(Do(s, run[0]), run[1..])
  }

  lemma NextInv(s: Sys, step: Step)
    requires Inv(s)
    ensures Inv(Do(s, step))
  {
    if Enabled(s, step) {
      StepInv(s, step);
    }
  }

  lemma {:induction false} AlwaysInv(s: Sys, run: seq<Step>)
    requires Inv(s)
    ensures Inv(After(s, run))
    decreases |run|
  {
    if run != [] {
      NextInv(s, run[0]);
      AlwaysInv(Do(s, run[0]), run[1..]);
    }
  }

  // ---------------------------------------------------------------- events

  ghost function DoLog(s: Sys, log: Log, step: Step): Log {
    if !Valid(s.queue) || !Enabled(s, step) then log
    else
      match step
      case Post(events, _, _, writeOk, _) => LogPost(s.queue, log, events, writeOk)
      case FinishWrite(ok) => LogFinish(s.queue, log, ok)
      case FrameworkRead(n) => LogRead(s.queue, log, n, true)
      case Stop => LogRead(s.queue, log, |s.queue.fmq|, false)
      case Restart(_, _) => LogClear(s.queue, log)
      case _ => log
  }

  /** The history of a run. */
  ghost function LogAfter(s: Sys, log: Log, run: seq<Step>): Log
    decreases |run|
  {
    if run == [] then log else LogAfter(Do(s, run[0]), DoLog(s, log, run[0]), run[1..])
  }

  const NOTHING := Log([], [], [], [], [])

  lemma StepInOrder(s: Sys, log: Log, step: Step)
    requires Inv(s) && InOrder(s.queue, log)
    ensures InOrder(Do(s, step).queue, DoLog(s, log, step))
  {
    if Enabled(s, step) {
      match step
      case Post(events, wakeups, _, writeOk, _) => PostInOrder(s.queue, log, events, wakeups, writeOk);
      case TakeFront => TakeValid(s.queue);
      case FinishWrite(ok) => FinishInOrder(s.queue, log, ok);
      case CommitWrite => CommitValid(s.queue);
      case FrameworkRead(n) => ReadInOrder(s.queue, log, n, true);
      case Stop => ReadInOrder(s.queue, log, |s.queue.fmq|, false);
      case Restart(capacity, _) => ClearInOrder(s.queue, log, capacity);
      case _ =>
    }
  }

  lemma {:induction false} AlwaysInOrder(s: Sys, log: Log, run: seq<Step>)
    requires Inv(s) && InOrder(s.queue, log)
    ensures InOrder(After(s, run).queue, LogAfter(s, log, run))
    decreases |run|
  {
    if run != [] {
      NextInv(s, run[0]);
      StepInOrder(s, log, run[0]);
      AlwaysInOrder(Do(s, run[0]), DoLog(s, log, run[0]), run[1..]);
    }
  }

  /** What the framework reads. */
  ghost function Reads(s: Sys, step: Step): seq<Event> {
    if Valid(s.queue) && Enabled(s, step) && step.FrameworkRead? then s.queue.fmq[..step.n] else []
  }

  ghost function AllReads(s: Sys, run: seq<Step>): seq<Event>
    decreases |run|
  {
    if run == [] then [] else Reads(s, run[0]) + AllReads(Do(s, run[0]), run[1..])
  }

  lemma StepDelivers(s: Sys, log: Log, step: Step)
    requires |log.handed| == |log.consumed|
    ensures var r := DoLog(s, log, step);
            |r.handed| == |r.consumed| && Delivered(r) == Delivered(log) + Reads(s, step)
  {
    if Valid(s.queue) && Enabled(s, step) {
      match step
      case FrameworkRead(n) => ReadDelivers(s.queue, log, n, true);
      case Stop => ReadDelivers(s.queue, log, |s.queue.fmq|, false);
      case Restart(_, _) => ClearDelivers(s.queue, log);
      case _ =>
    }
  }

  lemma {:induction false} AlwaysDelivers(s: Sys, log: Log, run: seq<Step>)
    requires |log.handed| == |log.consumed|
    ensures var r := LogAfter(s, log, run);
            |r.handed| == |r.consumed| && Delivered(r) == Delivered(log) + AllReads(s, run)
    decreases |run|
  {
    if run != [] {
      StepDelivers(s, log, run[0]);
      AlwaysDelivers(Do(s, run[0]), DoLog(s, log, run[0]), run[1..]);
      Assoc(Delivered(log), Reads(s, run[0]), AllReads(Do(s, run[0]), run[1..]));
    }
  }

  /** In every run the posted events, minus those dropped, reach the message queue in posting order,
      each once; what has left the message queue is a prefix of them, and what the framework has read
      is that prefix without what stopping and restarting threw away. */
  lemma DeliveredInOrder(wake: set<Handle>, timeout: int, capacity: nat, limit: nat, now: int, run: seq<Step>)
    requires capacity > 0 && now >= 0
    ensures var s := Init(wake, timeout, capacity, limit, now);
            var q, log := After(s, run).queue, LogAfter(s, NOTHING, run);
            && |log.kept| == |log.posted|
            && Select(log.posted, log.kept) == log.consumed + q.fmq + Unsent(q)
            && log.written == log.consumed + q.fmq
            && |log.handed| == |log.consumed|
            && AllReads(s, run) == Select(log.consumed, log.handed)
  {
    InitInv(wake, timeout, capacity, limit, now);
    InOrderFrom(Init(wake, timeout, capacity, limit, now), run);
  }

  lemma InOrderFrom(s: Sys, run: seq<Step>)
    requires Inv(s) && s.queue.fmq == [] && Unsent(s.queue) == []
    ensures var q, log := After(s, run).queue, LogAfter(s, NOTHING, run);
            && InOrder(q, log)
            && AllReads(s, run) == Delivered(log)
  {
    assert InOrder(s.queue, NOTHING);
    AlwaysDelivers(s, NOTHING, run);
    AlwaysInOrder(s, NOTHING, run);
    assert Delivered(NOTHING) == [] && [] + AllReads(s, run) == AllReads(s, run);
  }

  /** The pending counter is the number of pending events, within its limit and its high-water mark. */
  lemma CounterIsExact(wake: set<Handle>, timeout: int, capacity: nat, limit: nat, now: int, run: seq<Step>)
    requires capacity > 0 && now >= 0
    ensures var q := After(Init(wake, timeout, capacity, limit, now), run).queue;
            && q.size == |Flatten(q.pending)| <= q.limit
            && q.size <= q.mostObserved
            && forall b :: b in q.pending ==> b.events != []
  {
    InitInv(wake, timeout, capacity, limit, now);
    AlwaysInv(Init(wake, timeout, capacity, limit, now), run);
  }

  /** The events a step loses: the tail that overflows, the chunk of a failed write, what is unread when
      the threads are told to stop, and all that is unread or pending at a re-initialisation. */
  ghost function Drops(s: Sys, step: Step): seq<Event> {
    if !Valid(s.queue) || !Enabled(s, step) then []
    else
      match step
      case Post(events, _, _, writeOk, _) => LostEvents(s, events, writeOk)
      case FinishWrite(ok) => if ok then [] else s.queue.pending[0].events[..s.queue.writer.n]
      case Stop => s.queue.fmq
      case Restart(_, _) => s.queue.fmq + Unsent(s.queue)
      case _ => []
  }

  ghost function AllDrops(s: Sys, run: seq<Step>): seq<Event>
    decreases |run|
  {
    if run == [] then [] else Drops(s, run[0]) + AllDrops(Do(s, run[0]), run[1..])
  }

  lemma ArrivalsAccounted(s: Sys, log: Log, lost: multiset<Event>, step: Step)
    requires Inv(s) && Enabled(s, step) && Accounted(s.queue, log, lost)
    requires step.Post? || step.FinishWrite?
    ensures Accounted(Do(s, step).queue, DoLog(s, log, step), lost + multiset(Drops(s, step)))
  {
    match step
    case Post(events, wakeups, _, writeOk, _) => PostAccounted(s.queue, log, lost, events, wakeups, writeOk);
    case FinishWrite(ok) => FinishAccounted(s.queue, log, lost, ok);
  }

  lemma DeparturesAccounted(s: Sys, log: Log, lost: multiset<Event>, step: Step)
    requires Inv(s) && Enabled(s, step) && Accounted(s.queue, log, lost)
    requires step.FrameworkRead? || step.Stop? || step.Restart?
    ensures Accounted(Do(s, step).queue, DoLog(s, log, step), lost + multiset(Drops(s, step)))
  {
    match step
    case FrameworkRead(n) => ReadAccounted(s.queue, log, lost, n, true);
    case Stop =>
      ReadAccounted(s.queue, log, lost, |s.queue.fmq|, false);
      assert s.queue.fmq[..|s.queue.fmq|] == s.queue.fmq;
    case Restart(capacity, _) => ClearAccounted(s.queue, log, lost, capacity);
  }

  lemma StepAccounted(s: Sys, log: Log, lost: multiset<Event>, step: Step)
    requires Inv(s) && Accounted(s.queue, log, lost)
    ensures Accounted(Do(s, step).queue, DoLog(s, log, step), lost + multiset(Drops(s, step)))
  {
    if Enabled(s, step) && (step.Post? || step.FinishWrite?) {
      ArrivalsAccounted(s, log, lost, step);
    } else if Enabled(s, step) && (step.FrameworkRead? || step.Stop? || step.Restart?) {
      DeparturesAccounted(s, log, lost, step);
    } else {
      var r := Do(s, step).queue;
      assert r.fmq == s.queue.fmq && Unsent(r) == Unsent(s.queue) by {
        if step.TakeFront? && Enabled(s, step) {
          TakeValid(s.queue);
        } else if step.CommitWrite? && Enabled(s, step) {
          CommitValid(s.queue);
        }
      }
      assert Drops(s, step) == [] && lost + multiset{} == lost;
      assert DoLog(s, log, step) == log;
    }
  }

  lemma {:induction false} AlwaysAccounted(s: Sys, log: Log, lost: multiset<Event>, run: seq<Step>)
    requires Inv(s) && Accounted(s.queue, log, lost)
    ensures Accounted(After(s, run).queue, LogAfter(s, log, run), lost + multiset(AllDrops(s, run)))
    decreases |run|
  {
    if run != [] {
      StepAccounted(s, log, lost, run[0]);
      NextInv(s, run[0]);
      AlwaysAccounted(Do(s, run[0]), DoLog(s, log, run[0]), lost + multiset(Drops(s, run[0])), run[1..]);
    }
  }

  /** What is posted or written is never taken back. */
  lemma {:induction false} WrittenStays(s: Sys, log: Log, run: seq<Step>)
    ensures log.written <= LogAfter(s, log, run).written && log.posted <= LogAfter(s, log, run).posted
    decreases |run|
  {
    if run != [] {
      WrittenStays(Do(s, run[0]), DoLog(s, log, run[0]), run[1..]);
    }
  }

  /** Events are conserved, each as often as it was posted: whatever was posted and is neither read,
      nor in the message queue, nor still to be written was lost by one of those kinds of step, and
      those are the events without a mark. */
  lemma NothingElseIsLost(wake: set<Handle>, timeout: int, capacity: nat, limit: nat, now: int, run: seq<Step>)
    requires capacity > 0 && now >= 0
    ensures var s := Init(wake, timeout, capacity, limit, now);
            var q, log := After(s, run).queue, LogAfter(s, NOTHING, run);
            && multiset(log.posted) == multiset(AllReads(s, run)) + multiset(q.fmq) + multiset(Unsent(q))
                 + multiset(AllDrops(s, run))
            && |log.kept| == |log.posted| && |log.handed| == |log.consumed|
            && multiset(AllDrops(s, run))
                 == multiset(Select(log.posted, Not(log.kept))) + multiset(Select(log.consumed, Not(log.handed)))
  {
    var s := Init(wake, timeout, capacity, limit, now);
    InitInv(wake, timeout, capacity, limit, now);
    AlwaysInOrder(s, NOTHING, run);
    AlwaysAccounted(s, NOTHING, multiset{}, run);
    AlwaysDelivers(s, NOTHING, run);
    LostAreUnmarked(After(s, run).queue, LogAfter(s, NOTHING, run), multiset(AllDrops(s, run)));
  }

  /** The runs that lose nothing are exactly those that hand every posted event on, in order. */
  lemma NoDropsMeansAll(wake: set<Handle>, timeout: int, capacity: nat, limit: nat, now: int, run: seq<Step>)
    requires capacity > 0 && now >= 0
    ensures var s := Init(wake, timeout, capacity, limit, now);
            var q, log := After(s, run).queue, LogAfter(s, NOTHING, run);
            AllDrops(s, run) == [] <==> log.posted == AllReads(s, run) + q.fmq + Unsent(q)
  {
    var s := Init(wake, timeout, capacity, limit, now);
    var q, log := After(s, run).queue, LogAfter(s, NOTHING, run);
    DeliveredInOrder(wake, timeout, capacity, limit, now, run);
    NothingElseIsLost(wake, timeout, capacity, limit, now, run);
    if AllDrops(s, run) == [] {
      SelectAll(log.posted, log.kept);
      SelectAll(log.consumed, log.handed);
    }
    SameSize(log.posted, AllReads(s, run), q.fmq, Unsent(q), AllDrops(s, run));
  }

  lemma SameSize(all: seq<Event>, a: seq<Event>, b: seq<Event>, c: seq<Event>, d: seq<Event>)
    requires multiset(all) == multiset(a) + multiset(b) + multiset(c) + multiset(d)
    ensures |all| == |a| + |b| + |c| + |d|
  {
    assert |all| == |multiset(all)|;
  }

  lemma {:induction false} SelectAll(events: seq<Event>, marks: seq<bool>)
    requires |events| == |marks| && Select(events, Not(marks)) == []
    ensures Select(events, marks) == events
  {
    if events != [] {
      assert Not(marks)[1..] == Not(marks[1..]);
      SelectAll(events[1..], marks[1..]);
    }
  }

  // ---------------------------------------------------------------- draining

  ghost function Commit(s: Sys, step: Step): nat {
    if Valid(s.queue) && Enabled(s, step) && step.CommitWrite? then 1 else 0
  }

  ghost function Commits(s: Sys, run: seq<Step>): nat
    decreases |run|
  {
    if run == [] then 0 else Commit(s, run[0]) + Commits(Do(s, run[0]), run[1..])
  }

  ghost function Added(s: Sys, step: Step): nat {
    if Valid(s.queue) && Enabled(s, step) && step.Post?
    then PostTurns(s.queue, step.events, step.writeOk) else 0
  }

  ghost function AddedTurns(s: Sys, run: seq<Step>): nat
    decreases |run|
  {
    if run == [] then 0 else Added(s, run[0]) + AddedTurns(Do(s, run[0]), run[1..])
  }

  lemma StepTurns(s: Sys, step: Step)
    requires Inv(s) && !step.Restart?
    ensures var r := Do(s, step);
            && r.queue.capacity == s.queue.capacity
            && Commit(s, step) + Backlog(r.queue.pending, s.queue.capacity)
                 == Backlog(s.queue.pending, s.queue.capacity) + Added(s, step)
  {
    if Enabled(s, step) {
      if step.Post? {
        PostBacklog(s.queue, step.events, step.wakeups, step.writeOk);
      } else if step.CommitWrite? {
        CommitBacklog(s.queue);
      }
    }
  }

  predicate NoRestart(run: seq<Step>) {
    forall step :: step in run ==> !step.Restart?
  }

  /** Turns are conserved: in every interleaving, the turns taken and the turns still needed add up to
      the turns needed at first and those added by posts, ceil(n / capacity) for n events. */
  lemma {:induction false} TurnsAddUp(s: Sys, run: seq<Step>)
    requires Inv(s) && NoRestart(run)
    ensures var r := After(s, run);
            && r.queue.capacity == s.queue.capacity
            && Inv(r)
            && Commits(s, run) + Backlog(r.queue.pending, s.queue.capacity)
                 == Backlog(s.queue.pending, s.queue.capacity) + AddedTurns(s, run)
    decreases |run|
  {
    if run != [] {
      assert run[0] in run;
      StepTurns(s, run[0]);
      NextInv(s, run[0]);
      TurnsAddUp(Do(s, run[0]), run[1..]);
    }
  }

  /** One turn of the writer, with a framework that reads all there is. */
  ghost function OneTurn(s: Sys): seq<Step> {
    [FrameworkRead(|s.queue.fmq|), TakeFront, FinishWrite(true), CommitWrite]
  }

  ghost function DrainRun(s: Sys, turns: nat): seq<Step>
    decreases turns
  {
    if turns == 0 then [] else OneTurn(s) + DrainRun(After(s, OneTurn(s)), turns - 1)
  }

  lemma {:induction false} AfterConcat(s: Sys, a: seq<Step>, b: seq<Step>)
    ensures After(s, a + b) == After(After(s, a), b)
    ensures Commits(s, a + b) == Commits(s, a) + Commits(After(s, a), b)
    decreases |a|
  {
    if a == [] {
      assert a + b == b;
    } else {
      assert (a + b)[1..] == a[1..] + b;
      AfterConcat(Do(s, a[0]), a[1..], b);
    }
  }

  lemma AfterOne(s: Sys, step: Step, rest: seq<Step>)
    ensures After(s, [step] + rest) == After(Do(s, step), rest)
    ensures Commits(s, [step] + rest) == Commit(s, step) + Commits(Do(s, step), rest)
  {
    assert ([step] + rest)[1..] == rest;
  }

  lemma TwoSteps(s: Sys, a: Step, b: Step)
    ensures After(s, [a, b]) == Do(Do(s, a), b)
    ensures Commits(s, [a, b]) == Commit(s, a) + Commit(Do(s, a), b)
  {
    AfterOne(s, a, [b]);
    AfterOne(Do(s, a), b, []);
    assert [a, b] == [a] + [b] && [b] == [b] + [];
  }

  lemma FourSteps(s: Sys, a: Step, b: Step, c: Step, d: Step)
    ensures After(s, [a, b, c, d]) == Do(Do(Do(Do(s, a), b), c), d)
    ensures Commits(s, [a, b, c, d]) == Commit(s, a) + Commit(Do(s, a), b) + Commit(Do(Do(s, a), b), c)
                                      + Commit(Do(Do(Do(s, a), b), c), d)
  {
    AfterConcat(s, [a, b], [c, d]);
    TwoSteps(s, a, b);
    TwoSteps(Do(Do(s, a), b), c, d);
    assert [a, b, c, d] == [a, b] + [c, d];
  }

  lemma TurnQueue(s: Sys)
    requires Inv(s) && s.running && s.queue.writer.Idle? && s.queue.pending != [] && s.queue.fmq == []
    ensures var s1 := Do(s, TakeFront);
            var s2 := Do(s1, FinishWrite(true));
            var r := Do(s2, CommitWrite);
            && Commit(s, TakeFront) + Commit(s1, FinishWrite(true)) + Commit(s2, CommitWrite) == 1
            && r.running && r.queue.writer.Idle? && r.queue.capacity == s.queue.capacity
            && Backlog(r.queue.pending, s.queue.capacity) == Backlog(s.queue.pending, s.queue.capacity) - 1
  {
    TurnBacklog(s.queue);
    assert Do(s, TakeFront) == s.(queue := Take(s.queue));
    assert Do(s.(queue := Take(s.queue)), FinishWrite(true)) == s.(queue := Finish(Take(s.queue), true));
  }

  lemma TurnDrains(s: Sys)
    requires Inv(s) && s.running && s.queue.writer.Idle? && s.queue.pending != []
    ensures var r := After(s, OneTurn(s));
            && Inv(r) && r.running && r.queue.writer.Idle? && r.queue.capacity == s.queue.capacity
            && Backlog(r.queue.pending, s.queue.capacity) == Backlog(s.queue.pending, s.queue.capacity) - 1
            && Commits(s, OneTurn(s)) == 1
  {
    var read := FrameworkRead(|s.queue.fmq|);
    FourSteps(s, read, TakeFront, FinishWrite(true), CommitWrite);
    NextInv(s, read);
    TurnQueue(Do(s, read));
    AlwaysInv(s, OneTurn(s));
  }

  lemma NoBacklog(batches: seq<Batch>, capacity: nat)
    requires capacity > 0 && forall b :: b in batches ==> b.events != []
    ensures Backlog(batches, capacity) == 0 <==> batches == []
  {
    if batches != [] {
      assert batches[0] in batches;
    }
  }

  /** A backlog drains: while the threads run and the framework reads, there is a run of just the turns it
      needs, ceil(n / capacity) for a batch of n events, that writes it all. */
  lemma {:induction false} DrainsInTurns(s: Sys, turns: nat)
    requires Inv(s) && s.running && s.queue.writer.Idle?
    requires turns == Backlog(s.queue.pending, s.queue.capacity)
    ensures var run := DrainRun(s, turns);
            && Commits(s, run) == turns
            && After(s, run).queue.pending == [] && After(s, run).queue.size == 0
    decreases turns
  {
    NoBacklog(s.queue.pending, s.queue.capacity);
    if turns > 0 {
      var r := After(s, OneTurn(s));
      TurnDrains(s);
      DrainsInTurns(r, turns - 1);
      AfterConcat(s, OneTurn(s), DrainRun(r, turns - 1));
    }
  }

  // ---------------------------------------------------------------- stopped and started again

  /** While the threads are stopped, nothing changes what the count says or whether the lock is held. */
  lemma {:induction false} StoppedChangesNothing(s: Sys, run: seq<Step>)
    requires Inv(s) && !s.running && NoRestart(run)
    ensures var r := After(s, run);
            && !r.running
            && r.lock.refCount == s.lock.refCount && r.lock.held == s.lock.held
            && r.lock.startTime == s.lock.startTime
    decreases |run|
  {
    if run != [] {
      assert run[0] in run && forall step :: step in run[1..] ==> step in run;
      NextInv(s, run[0]);
      StoppedChangesNothing(Do(s, run[0]), run[1..]);
    }
  }

  /** Stopping empties the message queue and leaves the pending events, the count and the lock alone. */
  lemma StopLeadsTo(s: Sys)
    requires Inv(s) && s.running
    ensures var r := Do(s, Stop);
            && !r.running && Inv(r) && r.lock == s.lock && r.holders == s.holders
            && r.queue == s.queue.(fmq := [])
  {
    NextInv(s, Stop);
    assert s.queue.fmq[|s.queue.fmq|..] == [];
  }

  /** Re-initialising, possible once both service threads are done, starts over with an empty queue of the
      new capacity and leaves the count and the lock alone. */
  lemma RestartLeadsTo(s: Sys, capacity: nat, now: int)
    requires Inv(s) && !s.running && !s.reading && s.queue.writer == Idle && capacity > 0 && s.clock <= now
    ensures var r := Do(s, Restart(capacity, now));
            && r.running && !r.reading && Inv(r)
            && r.queue == Queue(capacity, s.queue.limit, [], 0, s.queue.mostObserved, Idle, [])
            && r.lock == Lock(s.lock.refCount, s.lock.startTime, now, s.lock.held)
            && r.holders == s.holders && r.wake == s.wake && r.clock == now
  {
    NextInv(s, Restart(capacity, now));
  }

  /** Then a post of up to that many events goes straight to the new message queue. */
  lemma FirstPost(s: Sys, events: seq<Event>, now: int)
    requires Inv(s) && s.queue.fmq == [] && s.queue.pending == [] && |events| <= s.queue.capacity && s.clock <= now
    ensures var posted := Do(s, Post(events, Wakeups(s.wake, events), true, true, now)).queue;
            posted.fmq == events && posted.pending == []
  {
    PostKeepsIff(s.queue, events, Wakeups(s.wake, events), true, |events|);
    assert events[..|events|] == events && [] + events == events;
  }

  /** Between a stop and the end of the re-initialisation the count stays what it was, whatever happens in
      between; then the threads run, nothing is pending, and what is posted goes straight through. */
  lemma StopAndRestart(s: Sys, run: seq<Step>, capacity: nat, now: int, events: seq<Event>)
    requires Inv(s) && s.running && NoRestart(run)
    requires var stopped := After(Do(s, Stop), run);
             !stopped.reading && stopped.queue.writer == Idle && capacity > 0 && stopped.clock <= now
    ensures var r := Do(After(Do(s, Stop), run), Restart(capacity, now));
            && r.running && r.queue.capacity == capacity
            && r.lock == Lock(s.lock.refCount, s.lock.startTime, now, s.lock.held)
            && (|events| <= capacity ==>
                  var posted := Do(r, Post(events, Wakeups(r.wake, events), true, true, now)).queue;
                  posted.fmq == events && posted.pending == [])
  {
    StopLeadsTo(s);
    AlwaysInv(Do(s, Stop), run);
    StoppedChangesNothing(Do(s, Stop), run);
    var stopped := After(Do(s, Stop), run);
    RestartLeadsTo(stopped, capacity, now);
    if |events| <= capacity {
      FirstPost(Do(stopped, Restart(capacity, now)), events, now);
    }
  }

  // ---------------------------------------------------------------- the wake lock

  /** A scoped wake lock adds one reference while the threads run, and given back before a reset it takes
      off what it added. */
  lemma HeldAndGivenBack(s: Sys, now: int)
    requires Inv(s) && s.clock <= now
    ensures var r := Do(s, Hold(now));
            && (!s.running ==> r == s.(clock := now))
            && (s.running ==>
                  && r.holders == s.holders + [now]
                  && r.lock == Lock(s.lock.refCount + 1, now, s.lock.resetTime, true)
                  && var b := Do(r, Release(|s.holders|));
                     && b.holders == s.holders && b.lock.refCount == s.lock.refCount && b.queue == s.queue
                     && (b.lock.held <==> s.lock.refCount > 0))
  {
    if s.running {
      var r := Do(s, Hold(now));
      NextInv(s, Hold(now));
      assert r.holders[..|s.holders|] + r.holders[|s.holders| + 1..] == s.holders;
    }
  }

  /** The writer starts on a batch only while the threads run, but a write it has started ends whether or
      not they do. */
  lemma WriterFinishes(s: Sys, ok: bool)
    requires Inv(s) && s.queue.writer.Taken? && (ok ==> |s.queue.fmq| + s.queue.writer.n <= s.queue.capacity)
    ensures var r := Do(s, FinishWrite(ok));
            && r.queue == Finish(s.queue, ok) && r.queue.writer.n <= r.queue.size
            && Do(r, CommitWrite).queue == EventQueue.Commit(r.queue)
    ensures !s.running ==> Do(s, FinishWrite(ok)).lock == s.lock
  {
    NextInv(s, FinishWrite(ok));
    CommitValid(Finish(s.queue, ok));
  }

  lemma NoTurnWhileStopped(s: Sys)
    requires Inv(s)
    ensures Do(s, TakeFront) != s ==> s.running && s.queue.pending != []
  {
  }

  /** The wake lock thread that ends leaves the count as it is, and no reference taken before counts any
      more when it is given back. */
  lemma ThreadEnds(s: Sys, now: int)
    requires Inv(s) && !s.running && !s.reading && s.clock <= now
    ensures var r := Do(s, WakelockThreadExit(now));
            r.lock == s.lock.(resetTime := now) && r.queue == s.queue && r.holders == s.holders && r.clock == now
  {
  }

  /** The end of a blocking read takes what was acknowledged off the count, as far as it goes, and nothing
      if the read failed or the threads are stopped; the lock is released at zero and not before. */
  lemma AcknowledgeLeadsTo(s: Sys, processed: Option<nat>)
    requires Inv(s) && s.reading
    ensures var r := Do(s, Acknowledge(processed));
            && !r.reading && r.queue == s.queue && r.running == s.running && r.holders == s.holders
            && (processed.None? || !s.running || s.lock.refCount == 0 ==> r.lock == s.lock)
            && (processed.Some? && s.running && s.lock.refCount > 0 ==>
                  var left := Max(0, s.lock.refCount - processed.value);
                  r.lock == Lock(left, s.lock.startTime, s.lock.resetTime, s.lock.held && left > 0))
  {
  }

  /** A look at the clock resets exactly if more than the timeout has passed since a reference was last
      taken; otherwise the thread goes and waits, and the lock stays as it is. */
  lemma ResetsIff(s: Sys, now: int)
    requires Inv(s) && s.running && !s.reading && s.lock.refCount > 0 && s.clock <= now
    ensures var r := Do(s, CheckTimeout(now));
            if now > s.lock.startTime + s.timeout
            then r.lock == Lock(0, s.lock.startTime, now, false) && !r.reading
            else r.lock == s.lock && r.reading
  {
  }

  ghost predicate HarmlessRun(s: Sys, run: seq<Step>)
    decreases |run|
  {
    run != [] ==>
      && (Valid(s.queue) && Enabled(s, run[0]) ==> Harmless(s, run[0]))
      && HarmlessRun(Do(s, run[0]), run[1..])
  }

  lemma {:induction false} LedgerThroughout(s: Sys, run: seq<Step>)
    requires Inv(s) && Ledger(s) && HarmlessRun(s, run)
    ensures Inv(After(s, run)) && Ledger(After(s, run))
    decreases |run|
  {
    if run != [] {
      NextInv(s, run[0]);
      if Enabled(s, run[0]) {
        LedgerExactly(s, run[0]);
      }
      LedgerThroughout(Do(s, run[0]), run[1..]);
    }
  }

  /** Something the device must stay awake for: a wake-up event on its way to the framework or not
      yet acknowledged, or a live scoped wake lock. */
  predicate MustStayAwake(s: Sys) {
    || Wakeups(s.wake, Unsent(s.queue)) > 0
    || Wakeups(s.wake, s.queue.fmq) > 0
    || s.readWake > 0
    || Fresh(s.holders, s.lock.resetTime) > 0
  }

  /** In every run of harmless steps the platform wake lock is held whenever it must be. */
  lemma AwakeWhileNeeded(wake: set<Handle>, timeout: int, capacity: nat, limit: nat, now: int, run: seq<Step>)
    requires capacity > 0 && now >= 0
    requires HarmlessRun(Init(wake, timeout, capacity, limit, now), run)
    ensures var r := After(Init(wake, timeout, capacity, limit, now), run);
            MustStayAwake(r) ==> r.lock.held
  {
    InitInv(wake, timeout, capacity, limit, now);
    LedgerThroughout(Init(wake, timeout, capacity, limit, now), run);
  }

  /** The steps that leave references behind: a wake-up event lost to overflow after it was counted,
      and whatever the threads can no longer give back once they are told to stop. */
  ghost predicate Leaks(s: Sys, step: Step) {
    Valid(s.queue) && Enabled(s, step) &&
      match step
      case Post(events, _, _, writeOk, _) => Wakeups(s.wake, LostEvents(s, events, writeOk)) > 0
      case Stop => true
      case _ => false
  }

  ghost predicate LeakFree(s: Sys, run: seq<Step>)
    decreases |run|
  {
    run != [] ==> !Leaks(s, run[0]) && LeakFree(Do(s, run[0]), run[1..])
  }

  lemma {:induction false} NothingLeaks(s: Sys, run: seq<Step>)
    requires Inv(s) && s.running && s.leaked == 0 && LeakFree(s, run)
    ensures After(s, run).running && After(s, run).leaked == 0
    decreases |run|
  {
    if run != [] {
      NextInv(s, run[0]);
      NothingLeaks(Do(s, run[0]), run[1..]);
    }
  }

  /** In a run of harmless steps, while the threads run and no wake-up event overflows, the reference
      count is exactly the wake-up events pending or unacknowledged and the scoped wake locks taken since
      the last reset. */
  lemma CountIsExact(wake: set<Handle>, timeout: int, capacity: nat, limit: nat, now: int, run: seq<Step>)
    requires capacity > 0 && now >= 0
    requires HarmlessRun(Init(wake, timeout, capacity, limit, now), run)
    requires LeakFree(Init(wake, timeout, capacity, limit, now), run)
    ensures var r := After(Init(wake, timeout, capacity, limit, now), run);
            r.lock.refCount == Wakeups(wake, Unsent(r.queue)) + Wakeups(wake, r.queue.fmq)
              + r.readWake + Fresh(r.holders, r.lock.resetTime)
  {
    var s := Init(wake, timeout, capacity, limit, now);
    InitInv(wake, timeout, capacity, limit, now);
    LedgerThroughout(s, run);
    NothingLeaks(s, run);
    SameWake(s, run);
  }

  lemma {:induction false} SameWake(s: Sys, run: seq<Step>)
    ensures After(s, run).wake == s.wake
    decreases |run|
  {
    if run != [] {
      SameWake(Do(s, run[0]), run[1..]);
    }
  }

  // ---------------------------------------------------------------- held exactly while counted

  /** A locked batch without a single wake-up event, posted when nothing is counted any more: the wake
      lock is acquired for a reference that is never added. */
  predicate EmptyAcquire(s: Sys, step: Step) {
    step.Post? && step.locked && s.running && step.wakeups == 0 && s.lock.refCount == 0
  }

  ghost predicate NoEmptyAcquire(s: Sys, run: seq<Step>)
    decreases |run|
  {
    run != [] ==> !EmptyAcquire(s, run[0]) && NoEmptyAcquire(Do(s, run[0]), run[1..])
  }

  /** One step at a time: the platform lock stays exact unless the step is such a post. */
  lemma HeldExactlyStep(s: Sys, step: Step)
    requires Inv(s) && Enabled(s, step) && Exact(s.lock)
    ensures Exact(Next(s, step).lock) <==> !EmptyAcquire(s, step)
  {
    if step.Post? && step.locked {
      IncrementExactIff(s.lock, s.running, step.wakeups, step.now);
    }
  }

  /** Through timeouts, over-acknowledgements, failed writes and re-initialisations, the platform lock
      is held exactly while the count is positive. */
  lemma {:induction false} HeldExactly(s: Sys, run: seq<Step>)
    requires Inv(s) && Exact(s.lock) && NoEmptyAcquire(s, run)
    ensures Exact(After(s, run).lock)
    decreases |run|
  {
    if run != [] {
      NextInv(s, run[0]);
      if Enabled(s, run[0]) {
        HeldExactlyStep(s, run[0]);
      }
      HeldExactly(Do(s, run[0]), run[1..]);
    }
  }

  /** Without such a post, in every run of harmless steps, the device is kept awake exactly for what it
      must stay awake for and for references that nobody can give back any more; if none are left
      behind, exactly while it must. */
  lemma AwakeExactly(wake: set<Handle>, timeout: int, capacity: nat, limit: nat, now: int, run: seq<Step>)
    requires capacity > 0 && now >= 0
    requires HarmlessRun(Init(wake, timeout, capacity, limit, now), run)
    requires NoEmptyAcquire(Init(wake, timeout, capacity, limit, now), run)
    ensures var s := Init(wake, timeout, capacity, limit, now);
            var r := After(s, run);
            && (r.lock.held <==> MustStayAwake(r) || r.leaked > 0)
            && (LeakFree(s, run) ==> (r.lock.held <==> MustStayAwake(r)))
  {
    var s := Init(wake, timeout, capacity, limit, now);
    InitInv(wake, timeout, capacity, limit, now);
    LedgerThroughout(s, run);
    HeldExactly(s, run);
    if LeakFree(s, run) {
      NothingLeaks(s, run);
    }
  }

  // ---------------------------------------------------------------- scoped wake locks

  /** Giving back a scoped wake lock lowers a positive count exactly when it is not older than the
      last reset. */
  lemma ReleaseCountsIffFresh(s: Sys, i: nat)
    requires Inv(s) && i < |s.holders| && s.running && s.lock.refCount > 0
    ensures Next(s, Release(i)).lock.refCount
         == s.lock.refCount - if s.holders[i] >= s.lock.resetTime then 1 else 0
  {
    assert s.holders[i] in s.holders;
  }

  lemma StepResetTime(s: Sys, step: Step)
    requires Inv(s)
    ensures s.lock.resetTime <= Do(s, step).lock.resetTime
  {
  }

  /** Once stale, always stale: no later step makes an old start time count again. */
  lemma {:induction false} ResetTimeGrows(s: Sys, run: seq<Step>)
    requires Inv(s)
    ensures s.lock.resetTime <= After(s, run).lock.resetTime
    decreases |run|
  {
    if run != [] {
      NextInv(s, run[0]);
      StepResetTime(s, run[0]);
      ResetTimeGrows(Do(s, run[0]), run[1..]);
    }
  }

  /** A scoped wake lock taken before a reset never lowers the count, however the run goes on. */
  lemma StaleForever(s: Sys, now: int, run: seq<Step>, i: nat)
    requires Inv(s) && Enabled(s, CheckTimeout(now)) && TimedOut(s, now)
    requires var r := After(Do(s, CheckTimeout(now)), run); i < |r.holders| && r.holders[i] < now
    ensures var r := After(Do(s, CheckTimeout(now)), run); Do(r, Release(i)).lock == r.lock
  {
    var reset := Do(s, CheckTimeout(now));
    var r := After(reset, run);
    NextInv(s, CheckTimeout(now));
    AlwaysInv(reset, run);
    ResetTimeGrows(reset, run);
    assert r.holders[i] in r.holders;
  }

  /** No posts, and no acknowledgements: holders, and the wake lock thread that checks for a timeout,
      resets, or waits in a blocking read that fails. The timeout is not negative, or the clock moves on
      between taking a reference and resetting. */
  ghost predicate HoldersOnly(s: Sys, run: seq<Step>)
    decreases |run|
  {
    run != [] ==>
      && (|| run[0].Hold? || run[0].Release? || run[0] == Acknowledge(None)
          || (run[0].CheckTimeout? && (s.timeout >= 0 || run[0].now !in s.holders)))
      && HoldersOnly(Do(s, run[0]), run[1..])
  }

  lemma {:induction false} FreshNone(holders: seq<int>, t: int)
    requires forall h :: h in holders ==> h < t
    ensures Fresh(holders, t) == 0
  {
    if holders != [] {
      assert holders[0] in holders && forall h :: h in holders[1..] ==> h in holders;
      FreshNone(holders[1..], t);
    }
  }

  predicate NoEvents(s: Sys) {
    s.queue.pending == [] && s.queue.fmq == [] && s.readWake == 0
  }

  /** The timeout is counted from a time no earlier than that of any live scoped wake lock. */
  predicate Begun(s: Sys) {
    forall t :: t in s.holders ==> t <= s.lock.startTime
  }

  lemma HolderStep(s: Sys, step: Step)
    requires Inv(s) && s.running && NoEvents(s) && Begun(s) && HoldersOnly(s, [step])
    ensures NoEvents(Do(s, step)) && Do(s, step).running && !Leaks(s, step)
    ensures Enabled(s, step) ==> Harmless(s, step)
  {
    assert [step][0] == step;
    if Enabled(s, step) && step.CheckTimeout? && TimedOut(s, step.now) {
      FreshNone(s.holders, step.now);
    }
  }

  lemma HolderBegun(s: Sys, step: Step)
    requires Inv(s) && Begun(s) && (step.Hold? || step.Release? || step.CheckTimeout? || step.Acknowledge?)
    ensures Begun(Do(s, step))
  {
    var r := Do(s, step);
    forall t | t in r.holders
      ensures t <= r.lock.startTime
    {
      assert t in s.holders || t == r.lock.startTime;
    }
  }

  lemma {:induction false} HolderRun(s: Sys, run: seq<Step>)
    requires Inv(s) && s.running && NoEvents(s) && Begun(s) && HoldersOnly(s, run)
    ensures HarmlessRun(s, run) && LeakFree(s, run) && NoEvents(After(s, run))
    decreases |run|
  {
    if run != [] {
      NextInv(s, run[0]);
      HolderStep(s, run[0]);
      HolderBegun(s, run[0]);
      HolderRun(Do(s, run[0]), run[1..]);
    }
  }

  /** Then the count is the number of live scoped wake locks taken since the last reset. */
  lemma CountIsHolders(wake: set<Handle>, timeout: int, capacity: nat, limit: nat, now: int, run: seq<Step>)
    requires capacity > 0 && now >= 0
    requires HoldersOnly(Init(wake, timeout, capacity, limit, now), run)
    ensures var r := After(Init(wake, timeout, capacity, limit, now), run);
            r.lock.refCount == Fresh(r.holders, r.lock.resetTime)
  {
    InitInv(wake, timeout, capacity, limit, now);
    HolderRun(Init(wake, timeout, capacity, limit, now), run);
    CountIsExact(wake, timeout, capacity, limit, now, run);
  }
}
