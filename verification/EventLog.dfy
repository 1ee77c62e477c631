/** The history of a run of the proxy's event path, and the order in which it delivers. */
module EventLog {
  import opened SensorTypes
  import opened EventQueue

  /** Every event posted and whether it made it into the message queue or still may; every event ever
      stored there; those that have left it again, and whether the framework read them or they were
      thrown away. */
  datatype Log = Log(
    posted: seq<Event>, kept: seq<bool>, written: seq<Event>, consumed: seq<Event>, handed: seq<bool>)

  /** What the framework has read. */
  function Delivered(log: Log): seq<Event>
    requires |log.handed| == |log.consumed|
  {
    Select(log.consumed, log.handed)
  }

  // ---------------------------------------------------------------- which events are still kept

  function Repeat(b: bool, n: nat): seq<bool> {
    seq(n, _ => b)
  }

  /** The events marked true, in posting order. */
  function Select(events: seq<Event>, kept: seq<bool>): seq<Event>
    requires |events| == |kept|
  {
    if events == [] then []
    else if kept[0] then [events[0]] + Select(events[1..], kept[1..])
    else Select(events[1..], kept[1..])
  }

  /** Unmarks n marked positions after skipping the first skip marked ones. */
  function Unmark(kept: seq<bool>, skip: nat, n: nat): (r: seq<bool>)
    ensures |r| == |kept|
  {
    if kept == [] then []
    else if !kept[0] then [false] + Unmark(kept[1..], skip, n)
    else if skip > 0 then [true] + Unmark(kept[1..], skip - 1, n)
    else if n > 0 then [false] + Unmark(kept[1..], 0, n - 1)
    else kept
  }

  lemma SelectCons(e: Event, events: seq<Event>, b: bool, kept: seq<bool>)
    requires |events| == |kept|
    ensures Select([e] + events, [b] + kept) == if b then [e] + Select(events, kept) else Select(events, kept)
  {
    assert ([e] + events)[1..] == events && ([b] + kept)[1..] == kept;
  }

  lemma {:induction false} SelectConcat(e1: seq<Event>, k1: seq<bool>, e2: seq<Event>, k2: seq<bool>)
    requires |e1| == |k1| && |e2| == |k2|
    ensures Select(e1 + e2, k1 + k2) == Select(e1, k1) + Select(e2, k2)
  {
    if e1 == [] {
      assert e1 + e2 == e2 && k1 + k2 == k2;
    } else {
      SelectConcat(e1[1..], k1[1..], e2, k2);
      SelectCons(e1[0], e1[1..] + e2, k1[0], k1[1..] + k2);
      assert [e1[0]] + (e1[1..] + e2) == e1 + e2 && [k1[0]] + (k1[1..] + k2) == k1 + k2;
      Assoc([e1[0]], Select(e1[1..], k1[1..]), Select(e2, k2));
    }
  }

  lemma Assoc(a: seq<Event>, b: seq<Event>, c: seq<Event>)
    ensures a + (b + c) == a + b + c
  {
  }

  /** s without the n elements that follow the first skip. */
  function Cut(s: seq<Event>, skip: nat, n: nat): seq<Event>
    requires skip + n <= |s|
  {
    s[..skip] + s[skip + n..]
  }

  lemma CutCons(e: Event, s: seq<Event>, skip: nat, n: nat)
    requires skip + n <= |s|
    ensures Cut([e] + s, skip + 1, n) == [e] + Cut(s, skip, n)
    ensures skip == 0 ==> Cut([e] + s, 0, n + 1) == Cut(s, 0, n)
    ensures Cut(s, skip, 0) == s
  {
  }

  lemma {:induction false} SelectRepeat(events: seq<Event>, b: bool)
    ensures Select(events, Repeat(b, |events|)) == if b then events else []
  {
    if events != [] {
      assert Repeat(b, |events|)[1..] == Repeat(b, |events[1..]|);
      SelectRepeat(events[1..], b);
    }
  }

  lemma UnmarkCons(kept: seq<bool>, skip: nat, n: nat)
    ensures Unmark([false] + kept, skip, n) == [false] + Unmark(kept, skip, n)
    ensures Unmark([true] + kept, skip + 1, n) == [true] + Unmark(kept, skip, n)
    ensures Unmark([true] + kept, 0, n + 1) == [false] + Unmark(kept, 0, n)
    ensures Unmark(kept, 0, 0) == kept
    decreases |kept|
  {
    assert ([false] + kept)[1..] == kept && ([true] + kept)[1..] == kept;
    if kept != [] {
      UnmarkCons(kept[1..], 0, 0);
      assert [kept[0]] + kept[1..] == kept;
    }
  }

  lemma {:induction false} SelectUnmark(events: seq<Event>, kept: seq<bool>, skip: nat, n: nat)
    requires |events| == |kept| && skip + n <= |Select(events, kept)|
    ensures Select(events, Unmark(kept, skip, n)) == Cut(Select(events, kept), skip, n)
  {
    if events != [] {
      var e, tail, ks := events[0], events[1..], kept[1..];
      assert events == [e] + tail && kept == [kept[0]] + ks;
      if kept[0] && skip == 0 && n == 0 {
        UnmarkCons(kept, 0, 0);
        CutCons(e, Select(events, kept), 0, 0);
      } else if !kept[0] {
        SelectUnmark(tail, ks, skip, n);
        UnmarkCons(ks, skip, n);
        SelectCons(e, tail, false, Unmark(ks, skip, n));
      } else if skip > 0 {
        SelectUnmark(tail, ks, skip - 1, n);
        UnmarkCons(ks, skip - 1, n);
        SelectCons(e, tail, true, Unmark(ks, skip - 1, n));
        CutCons(e, Select(tail, ks), skip - 1, n);
      } else {
        SelectUnmark(tail, ks, 0, n - 1);
        UnmarkCons(ks, 0, n - 1);
        SelectCons(e, tail, false, Unmark(ks, 0, n - 1));
        CutCons(e, Select(tail, ks), 0, n - 1);
      }
    }
  }

  // ---------------------------------------------------------------- what each operation records

  /** The tail that overflows is dropped at once. */
  function LogPost(q: Queue, log: Log, events: seq<Event>, writeOk: bool): Log {
    var n := NumToWrite(q, events, writeOk);
    Log(log.posted + events,
        log.kept + (Repeat(true, n) + Repeat(!Overflows(q, events, writeOk), |events| - n)),
        log.written + events[..n],
        log.consumed, log.handed)
  }

  /** The chunk is stored, or given up: those are the first events not yet written. */
  function LogFinish(q: Queue, log: Log, ok: bool): Log
    requires q.writer.Taken? && q.pending != [] && q.writer.n <= |q.pending[0].events|
  {
    if ok then log.(written := log.written + q.pending[0].events[..q.writer.n])
    else log.(kept := Unmark(log.kept, |log.written|, q.writer.n))
  }

  /** n events leave the message queue, for the framework or for nobody. */
  function LogRead(q: Queue, log: Log, n: nat, byFramework: bool): Log
    requires n <= |q.fmq|
  {
    log.(consumed := log.consumed + q.fmq[..n], handed := log.handed + Repeat(byFramework, n))
  }

  function LogClear(q: Queue, log: Log): Log {
    log.(kept := Unmark(log.kept, |log.written|, |Unsent(q)|),
         consumed := log.consumed + q.fmq, handed := log.handed + Repeat(false, |q.fmq|))
  }

  // ---------------------------------------------------------------- order

  /** Delivery in order: the posted events that were not dropped are exactly those written followed
      by those still to be written, and the message queue hands them on first in, first out. */
  ghost predicate InOrder(q: Queue, log: Log) {
    && |log.kept| == |log.posted|
    && Select(log.posted, log.kept) == log.written + Unsent(q)
    && log.written == log.consumed + q.fmq
    && |log.handed| == |log.consumed|
  }

  lemma DropMiddle(a: seq<Event>, b: seq<Event>, c: seq<Event>)
    ensures var s := a + (b + c); s[..|a|] == a && s[|a| + |b|..] == c
  {
  }

  lemma PostKeeps(q: Queue, log: Log, events: seq<Event>, writeOk: bool)
    requires |log.kept| == |log.posted|
    ensures var n, r := NumToWrite(q, events, writeOk), LogPost(q, log, events, writeOk);
            && |r.kept| == |r.posted|
            && Select(r.posted, r.kept) == Select(log.posted, log.kept)
                 + (events[..n] + if Overflows(q, events, writeOk) then [] else events[n..])
  {
    var n, keep := NumToWrite(q, events, writeOk), !Overflows(q, events, writeOk);
    var first, second := Repeat(true, n), Repeat(keep, |events| - n);
    assert events[..n] + events[n..] == events;
    SelectRepeat(events[..n], true);
    SelectRepeat(events[n..], keep);
    SelectConcat(events[..n], first, events[n..], second);
    SelectConcat(log.posted, log.kept, events, first + second);
  }

  lemma PostInOrder(q: Queue, log: Log, events: seq<Event>, wakeups: nat, writeOk: bool)
    requires Valid(q) && InOrder(q, log)
    ensures InOrder(Post(q, events, wakeups, writeOk), LogPost(q, log, events, writeOk))
  {
    var n, r := NumToWrite(q, events, writeOk), Post(q, events, wakeups, writeOk);
    PostKeeps(q, log, events, writeOk);
    PostUnsent(q, events, wakeups, writeOk);
    var direct, later := events[..n], if Overflows(q, events, writeOk) then [] else events[n..];
    Assoc(log.consumed, q.fmq, direct);
    if n > 0 {
      assert Unsent(q) == [];
      assert log.written + Unsent(q) == log.written && Unsent(r) == later;
      Assoc(log.written, direct, later);
    } else {
      assert direct == [] && direct + later == later && log.written + direct == log.written;
      Assoc(log.written, Unsent(q), later);
    }
  }

  lemma FinishInOrder(q: Queue, log: Log, ok: bool)
    requires Valid(q) && q.writer.Taken? && InOrder(q, log)
    ensures InOrder(Finish(q, ok), LogFinish(q, log, ok))
  {
    var n, chunk, rest := q.writer.n, q.pending[0].events[..q.writer.n], Unsent(Finish(q, ok));
    FinishUnsent(q, ok);
    if ok {
      Assoc(log.written, chunk, rest);
      Assoc(log.consumed, q.fmq, chunk);
    } else {
      SelectUnmark(log.posted, log.kept, |log.written|, n);
      DropMiddle(log.written, chunk, rest);
    }
  }

  lemma ReadInOrder(q: Queue, log: Log, n: nat, byFramework: bool)
    requires InOrder(q, log) && n <= |q.fmq|
    ensures InOrder(Read(q, n), LogRead(q, log, n, byFramework))
  {
    Assoc(log.consumed, q.fmq[..n], q.fmq[n..]);
    assert q.fmq[..n] + q.fmq[n..] == q.fmq;
  }

  lemma ReadDelivers(q: Queue, log: Log, n: nat, byFramework: bool)
    requires |log.handed| == |log.consumed| && n <= |q.fmq|
    ensures Delivered(LogRead(q, log, n, byFramework)) == Delivered(log) + if byFramework then q.fmq[..n] else []
  {
    SelectRepeat(q.fmq[..n], byFramework);
    SelectConcat(log.consumed, log.handed, q.fmq[..n], Repeat(byFramework, n));
  }

  lemma ClearDelivers(q: Queue, log: Log)
    requires |log.handed| == |log.consumed|
    ensures Delivered(LogClear(q, log)) == Delivered(log)
  {
    SelectRepeat(q.fmq, false);
    SelectConcat(log.consumed, log.handed, q.fmq, Repeat(false, |q.fmq|));
    assert Delivered(log) + [] == Delivered(log);
  }

  lemma ClearInOrder(q: Queue, log: Log, capacity: nat)
    requires InOrder(q, log)
    ensures InOrder(Clear(q, capacity), LogClear(q, log))
  {
    var r := Clear(q, capacity);
    SelectUnmark(log.posted, log.kept, |log.written|, |Unsent(q)|);
    DropMiddle(log.written, Unsent(q), []);
    assert Unsent(q) + [] == Unsent(q) && Unsent(r) == [];
    assert log.written + [] == log.written;
    assert log.consumed + q.fmq + [] == log.consumed + q.fmq;
  }

  // ---------------------------------------------------------------- conservation

  function Not(marks: seq<bool>): (r: seq<bool>)
    ensures |r| == |marks|
  {
    seq(|marks|, i requires 0 <= i < |marks| => !marks[i])
  }

  lemma BagCons(e: Event, all: seq<Event>, a: seq<Event>, b: seq<Event>)
    requires multiset(all) == multiset(a) + multiset(b)
    ensures multiset([e] + all) == multiset([e] + a) + multiset(b)
  {
  }

  /** What is selected and what is not are all there is. */
  lemma {:induction false} SelectSplits(events: seq<Event>, marks: seq<bool>)
    requires |events| == |marks|
    ensures multiset(events) == multiset(Select(events, marks)) + multiset(Select(events, Not(marks)))
  {
    if events != [] {
      var e, tail, ms := events[0], events[1..], marks[1..];
      SelectSplits(tail, ms);
      assert events == [e] + tail && marks == [marks[0]] + ms && Not(marks) == [!marks[0]] + Not(ms);
      SelectCons(e, tail, marks[0], ms);
      SelectCons(e, tail, !marks[0], Not(ms));
      if marks[0] {
        BagCons(e, tail, Select(tail, ms), Select(tail, Not(ms)));
      } else {
        BagCons(e, tail, Select(tail, Not(ms)), Select(tail, ms));
      }
    }
  }

  /** Every event posted has been read, is in the message queue, is still to be written, or is in
      lost, each as often as it was posted. */
  ghost predicate Accounted(q: Queue, log: Log, lost: multiset<Event>) {
    && |log.handed| == |log.consumed|
    && multiset(log.posted) == multiset(Delivered(log)) + multiset(q.fmq) + multiset(Unsent(q)) + lost
  }

  /** In an orderly history the lost events are those without a mark. */
  lemma LostAreUnmarked(q: Queue, log: Log, lost: multiset<Event>)
    requires InOrder(q, log) && Accounted(q, log, lost)
    ensures lost == multiset(Select(log.posted, Not(log.kept))) + multiset(Select(log.consumed, Not(log.handed)))
  {
    SelectSplits(log.posted, log.kept);
    SelectSplits(log.consumed, log.handed);
    var unread, unsent := multiset(q.fmq), multiset(Unsent(q));
    var unmarked := multiset(Select(log.posted, Not(log.kept)));
    assert multiset(log.posted) == multiset(log.consumed) + unread + unsent + unmarked;
    Cancel(multiset(Delivered(log)) + unread + unsent, lost,
      unmarked + multiset(Select(log.consumed, Not(log.handed))));
  }

  lemma Cancel(a: multiset<Event>, b: multiset<Event>, c: multiset<Event>)
    requires a + b == a + c
    ensures b == c
  {
    assert a + b - a == b && a + c - a == c;
  }

  lemma PostAccounted(q: Queue, log: Log, lost: multiset<Event>, events: seq<Event>, wakeups: nat, writeOk: bool)
    requires Valid(q) && Accounted(q, log, lost)
    ensures Accounted(Post(q, events, wakeups, writeOk), LogPost(q, log, events, writeOk),
              lost + multiset(if Overflows(q, events, writeOk) then events[NumToWrite(q, events, writeOk)..] else []))
  {
    PostUnsent(q, events, wakeups, writeOk);
    var n, r := NumToWrite(q, events, writeOk), Post(q, events, wakeups, writeOk);
    var later := if Overflows(q, events, writeOk) then [] else events[n..];
    var gone := if Overflows(q, events, writeOk) then events[n..] else [];
    assert LogPost(q, log, events, writeOk).posted == log.posted + (events[..n] + (later + gone));
    assert r.fmq == q.fmq + events[..n] && Unsent(r) == Unsent(q) + later;
    Regroup(log.posted, Delivered(log), q.fmq, Unsent(q), lost, events[..n], later, gone);
  }

  lemma Regroup(posted: seq<Event>, read: seq<Event>, fmq: seq<Event>, unsent: seq<Event>, lost: multiset<Event>,
      direct: seq<Event>, later: seq<Event>, gone: seq<Event>)
    requires multiset(posted) == multiset(read) + multiset(fmq) + multiset(unsent) + lost
    ensures multiset(posted + (direct + (later + gone)))
         == multiset(read) + multiset(fmq + direct) + multiset(unsent + later) + (lost + multiset(gone))
  {
    assert multiset(posted + (direct + (later + gone)))
        == multiset(posted) + (multiset(direct) + (multiset(later) + multiset(gone)));
  }

  lemma FinishAccounted(q: Queue, log: Log, lost: multiset<Event>, ok: bool)
    requires Valid(q) && q.writer.Taken? && Accounted(q, log, lost)
    ensures Accounted(Finish(q, ok), LogFinish(q, log, ok),
              lost + multiset(if ok then [] else q.pending[0].events[..q.writer.n]))
  {
    FinishUnsent(q, ok);
  }

  lemma ReadAccounted(q: Queue, log: Log, lost: multiset<Event>, n: nat, byFramework: bool)
    requires Accounted(q, log, lost) && n <= |q.fmq|
    ensures Accounted(Read(q, n), LogRead(q, log, n, byFramework),
              lost + multiset(if byFramework then [] else q.fmq[..n]))
  {
    ReadDelivers(q, log, n, byFramework);
    assert q.fmq == q.fmq[..n] + q.fmq[n..];
  }

  lemma ClearAccounted(q: Queue, log: Log, lost: multiset<Event>, capacity: nat)
    requires Accounted(q, log, lost)
    ensures Accounted(Clear(q, capacity), LogClear(q, log), lost + multiset(q.fmq + Unsent(q)))
  {
    ClearDelivers(q, log);
  }
}
