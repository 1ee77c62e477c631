/** The event path of the HAL proxy: the message queue to the framework, the queue of batches still
    waiting for room in it, and the thread that drains that queue with its lock released mid-write. */
module EventQueue {
  import opened Common
  import opened SensorTypes

  /** Events still to be written, and the wake-up count of the batch they were posted in. */
  datatype Batch = Batch(events: seq<Event>, wakeups: nat)

  /** Where the pending-writes thread stands. Taken and Written hold no lock: the first n events of
      the front batch are about to be written, or have just been written or given up. */
  datatype Writer = Idle | Taken(n: nat) | Written(n: nat)

  /** limit bounds the pending events. fmq holds what the framework has not read yet. */
  datatype Queue = Queue(
    capacity: nat, limit: nat,
    pending: seq<Batch>, size: nat, mostObserved: nat,
    writer: Writer, fmq: seq<Event>)

  function Flatten(batches: seq<Batch>): seq<Event> {
    if batches == [] then [] else batches[0].events + Flatten(batches[1..])
  }

  /** The events of the pending batches that no write has been tried on: a prefix the thread has
      finished with is still in the front batch until the thread takes its lock back. */
  function Unsent(q: Queue): seq<Event> {
    var all := Flatten(q.pending);
    if q.writer.Written? && q.writer.n <= |all| then all[q.writer.n..] else all
  }

  function Room(q: Queue): nat {
    if |q.fmq| <= q.capacity then q.capacity - |q.fmq| else 0
  }

  // ---------------------------------------------------------------- the operations

  /** How many of the posted events go straight to the message queue: none while anything is pending,
      otherwise as many as fit, unless the write fails. */
  function NumToWrite(q: Queue, events: seq<Event>, writeOk: bool): (n: nat)
    ensures n <= |events| && |q.fmq| + n <= Max(q.capacity, |q.fmq|)
  {
    if q.pending != [] || !writeOk then 0 else Min(|events|, Room(q))
  }

  /** The rest of a posted batch would push the pending queue over its limit. */
  predicate Overflows(q: Queue, events: seq<Event>, writeOk: bool) {
    q.size + |events| - NumToWrite(q, events, writeOk) > q.limit
  }

  /** What a post drops. */
  function Lost(q: Queue, events: seq<Event>, writeOk: bool): seq<Event> {
    if Overflows(q, events, writeOk) then events[NumToWrite(q, events, writeOk)..] else []
  }

  function Post(q: Queue, events: seq<Event>, wakeups: nat, writeOk: bool): Queue {
    var n := NumToWrite(q, events, writeOk);
    var left := |events| - n;
    var sent := q.(fmq := q.fmq + events[..n]);
    if left == 0 || Overflows(q, events, writeOk) then sent
    else
      sent.(pending := q.pending + [Batch(events[n..], wakeups)],
            size := q.size + left,
            mostObserved := Max(q.mostObserved, q.size + left))
  }

  function Take(q: Queue): Queue
    requires q.pending != []
  {
    q.(writer := Taken(Min(|q.pending[0].events|, q.capacity)))
  }

  /** The blocking write ends: all n events are stored, or none is and they are given up. */
  function Finish(q: Queue, ok: bool): Queue
    requires q.writer.Taken? && q.pending != [] && q.writer.n <= |q.pending[0].events|
  {
    var done := q.(writer := Written(q.writer.n));
    if ok then done.(fmq := q.fmq + q.pending[0].events[..q.writer.n]) else done
  }

  /** The thread has its lock back and removes the events it is done with. */
  function Commit(q: Queue): Queue
    requires q.writer.Written? && q.pending != [] && q.writer.n <= q.size
  {
    var front := q.pending[0];
    var shrunk := q.(writer := Idle, size := q.size - q.writer.n);
    if |front.events| > q.capacity then
      shrunk.(pending := [front.(events := front.events[q.capacity..])] + q.pending[1..])
    else
      shrunk.(pending := q.pending[1..])
  }

  /** n events leave the message queue. */
  function Read(q: Queue, n: nat): Queue
    requires n <= |q.fmq|
  {
    q.(fmq := q.fmq[n..])
  }

  /** Re-initialisation forgets the pending events and starts over with another message queue. */
  function Clear(q: Queue, capacity: nat): Queue {
    q.(capacity := capacity, pending := [], size := 0, writer := Idle, fmq := [])
  }

  // ---------------------------------------------------------------- what every operation keeps

  ghost predicate Valid(q: Queue) {
    && q.capacity > 0
    && |q.fmq| <= q.capacity
    && (forall b :: b in q.pending ==> b.events != [])
    && q.size == |Flatten(q.pending)|
    && q.size <= q.limit
    && q.size <= q.mostObserved <= q.limit
    && (!q.writer.Idle? ==> q.pending != [] && q.writer.n == Min(|q.pending[0].events|, q.capacity))
  }

  lemma {:induction false} FlattenAppend(batches: seq<Batch>, b: Batch)
    ensures Flatten(batches + [b]) == Flatten(batches) + b.events
  {
    if batches == [] {
      assert [b][1..] == [];
    } else {
      assert (batches + [b])[1..] == batches[1..] + [b];
      FlattenAppend(batches[1..], b);
    }
  }

  lemma PostValid(q: Queue, events: seq<Event>, wakeups: nat, writeOk: bool)
    requires Valid(q)
    ensures Valid(Post(q, events, wakeups, writeOk))
    ensures var n, r := NumToWrite(q, events, writeOk), Post(q, events, wakeups, writeOk);
            Flatten(r.pending) == Flatten(q.pending)
              + if Overflows(q, events, writeOk) then [] else events[n..]
  {
    var n := NumToWrite(q, events, writeOk);
    FlattenAppend(q.pending, Batch(events[n..], wakeups));
  }

  /** A post in terms of the queue's members: what goes to the message queue, what is kept in a batch of
      its own, and that nothing is dropped unless it would push the pending events over their limit. */
  lemma PostKeepsIff(q: Queue, events: seq<Event>, wakeups: nat, writeOk: bool, n: nat)
    requires Valid(q)
    requires if q.pending != [] || !writeOk then n == 0
             else n <= |events| && |q.fmq| + n <= q.capacity && (n == |events| || |q.fmq| + n == q.capacity)
    ensures var r := Post(q, events, wakeups, writeOk);
            var fits := q.size + |events| - n <= q.limit;
            && r.fmq == q.fmq + events[..n]
            && (Lost(q, events, writeOk) == [] <==> fits)
            && (!fits ==> Lost(q, events, writeOk) == events[n..])
            && (n < |events| && fits ==>
                  && r.pending == q.pending + [Batch(events[n..], wakeups)]
                  && r.size == q.size + |events| - n
                  && r.mostObserved == if q.mostObserved < r.size then r.size else q.mostObserved)
            && (n == |events| || !fits ==>
                  r.pending == q.pending && r.size == q.size && r.mostObserved == q.mostObserved)
            && r.capacity == q.capacity && r.limit == q.limit && r.writer == q.writer
  {
    assert n == NumToWrite(q, events, writeOk);
  }

  /** A whole turn of the writer on its front batch: it tries the first events, as many as the message
      queue can hold at all, and whether or not they get there, they leave the batch and it keeps the rest. */
  lemma TurnOnFront(q: Queue, ok: bool, n: nat)
    requires Valid(q) && q.writer.Idle? && q.pending != []
    requires n <= |q.pending[0].events| && n <= q.capacity && (n == |q.pending[0].events| || n == q.capacity)
    requires ok ==> |q.fmq| + n <= q.capacity
    ensures var taken := Take(q);
            && taken == q.(writer := Taken(n)) && Valid(taken)
            && var done := Finish(taken, ok);
            && Valid(done) && done.writer.n <= done.size
            && var front, r := q.pending[0], Commit(done);
            && n > 0
            && r.fmq == (if ok then q.fmq + front.events[..n] else q.fmq)
            && r.size == q.size - n && r.writer == Idle
            && r.pending == (if n < |front.events| then [Batch(front.events[n..], front.wakeups)] else [])
                              + q.pending[1..]
            && r.capacity == q.capacity && r.limit == q.limit && r.mostObserved == q.mostObserved
  {
    var taken := Take(q);
    TakeValid(q);
    assert q.pending[0] in q.pending;
    FinishUnsent(taken, ok);
    CommitValid(Finish(taken, ok));
  }

  lemma PostUnsent(q: Queue, events: seq<Event>, wakeups: nat, writeOk: bool)
    requires Valid(q)
    ensures var n, r := NumToWrite(q, events, writeOk), Post(q, events, wakeups, writeOk);
            Unsent(r) == Unsent(q) + if Overflows(q, events, writeOk) then [] else events[n..]
  {
    PostValid(q, events, wakeups, writeOk);
    if q.writer.Written? {
      assert q.writer.n <= |q.pending[0].events| <= |Flatten(q.pending)|;
    }
  }

  lemma TakeValid(q: Queue)
    requires Valid(q) && q.writer.Idle? && q.pending != []
    ensures Valid(Take(q)) && Unsent(Take(q)) == Unsent(q)
  {
  }

  /** Whatever the write's outcome, the batch's first n events stop being unsent; the others stay. */
  lemma FinishUnsent(q: Queue, ok: bool)
    requires Valid(q) && q.writer.Taken?
    ensures Unsent(q) == q.pending[0].events[..q.writer.n] + Unsent(Finish(q, ok))
    ensures (ok ==> |q.fmq| + q.writer.n <= q.capacity) ==> Valid(Finish(q, ok))
  {
    var n, front, rest := q.writer.n, q.pending[0].events, Flatten(q.pending[1..]);
    assert Flatten(q.pending) == front + rest;
    assert front + rest == front[..n] + (front + rest)[n..];
  }

  lemma CommitValid(q: Queue)
    requires Valid(q) && q.writer.Written?
    ensures q.writer.n <= q.size
    ensures Valid(Commit(q)) && Unsent(Commit(q)) == Unsent(q)
  {
    var n, front, rest := q.writer.n, q.pending[0].events, Flatten(q.pending[1..]);
    assert Flatten(q.pending) == front + rest;
    assert (front + rest)[n..] == front[n..] + rest;
    if |front| > q.capacity {
      var r := Commit(q);
      assert r.pending[1..] == q.pending[1..];
      assert Flatten(r.pending) == front[n..] + rest;
    }
  }

  // ---------------------------------------------------------------- how long a backlog takes

  /** Turns of the pending-writes thread a batch of n events needs. */
  function Turns(n: nat, capacity: nat): nat
    requires capacity > 0
  {
    if n == 0 then 0 else 1 + Turns(n - Min(n, capacity), capacity)
  }

  /** That is n / capacity, rounded up. */
  lemma {:induction false} TurnsIsCeiling(n: nat, capacity: nat)
    requires capacity > 0
    ensures n <= Turns(n, capacity) * capacity < n + capacity
  {
    if n > capacity {
      var rest := Turns(n - capacity, capacity);
      TurnsIsCeiling(n - capacity, capacity);
      assert Turns(n, capacity) == 1 + rest;
      assert (1 + rest) * capacity == capacity + rest * capacity;
    } else if n > 0 {
      assert Turns(0, capacity) == 0;
    }
  }

  /** Turns the whole backlog still needs, the one in progress included. */
  function Backlog(batches: seq<Batch>, capacity: nat): nat
    requires capacity > 0
  {
    if batches == [] then 0
    else Turns(|batches[0].events|, capacity) + Backlog(batches[1..], capacity)
  }

  lemma {:induction false} BacklogAppend(batches: seq<Batch>, b: Batch, capacity: nat)
    requires capacity > 0
    ensures Backlog(batches + [b], capacity) == Backlog(batches, capacity) + Turns(|b.events|, capacity)
  {
    if batches == [] {
      assert [b][1..] == [];
    } else {
      assert (batches + [b])[1..] == batches[1..] + [b];
      BacklogAppend(batches[1..], b, capacity);
    }
  }

  /** Turns a post adds to the backlog. */
  function PostTurns(q: Queue, events: seq<Event>, writeOk: bool): nat
    requires q.capacity > 0
  {
    if Overflows(q, events, writeOk) then 0
    else Turns(|events| - NumToWrite(q, events, writeOk), q.capacity)
  }

  lemma PostBacklog(q: Queue, events: seq<Event>, wakeups: nat, writeOk: bool)
    requires Valid(q)
    ensures var r := Post(q, events, wakeups, writeOk);
            Backlog(r.pending, q.capacity) == Backlog(q.pending, q.capacity) + PostTurns(q, events, writeOk)
  {
    BacklogAppend(q.pending, Batch(events[NumToWrite(q, events, writeOk)..], wakeups), q.capacity);
  }

  /** So does a whole turn that finds the message queue empty. */
  lemma TurnBacklog(q: Queue)
    requires Valid(q) && q.writer.Idle? && q.pending != [] && q.fmq == []
    ensures var done := Finish(Take(q), true);
            && Valid(Take(q)) && Valid(done) && done.writer.n <= done.size
            && |q.fmq| + Take(q).writer.n <= q.capacity
            && Valid(Commit(done)) && Commit(done).writer == Idle && Commit(done).capacity == q.capacity
            && Backlog(Commit(done).pending, q.capacity) == Backlog(q.pending, q.capacity) - 1
  {
    TurnOnFront(q, true, Min(|q.pending[0].events|, q.capacity));
    CommitBacklog(Finish(Take(q), true));
    CommitValid(Finish(Take(q), true));
  }

  /** Every turn of the thread shortens the backlog by exactly one. */
  lemma CommitBacklog(q: Queue)
    requires Valid(q) && q.writer.Written?
    ensures q.writer.n <= q.size
    ensures Backlog(Commit(q).pending, q.capacity) == Backlog(q.pending, q.capacity) - 1
    ensures |Flatten(Commit(q).pending)| < |Flatten(q.pending)|
  {
    var front, r := q.pending[0].events, Commit(q);
    assert Flatten(q.pending) == front + Flatten(q.pending[1..]);
    assert front != [];
    if |front| > q.capacity {
      assert r.pending[1..] == q.pending[1..];
    } else {
      assert Turns(0, q.capacity) == 0;
    }
  }
}
