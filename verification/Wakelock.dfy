/** The reference count behind the sub-HALs' shared wake lock, as functions on its four fields. */
module Wakelock {
  import opened Common

  /** held is the platform's view: acquired and not yet released. */
  datatype Lock = Lock(refCount: nat, startTime: int, resetTime: int, held: bool)

  /** The caller leaves the start time out. */
  const NO_START := -1

  function Increment(w: Lock, running: bool, delta: nat, now: int): Lock {
    if !running then w
    else w.(held := w.held || w.refCount == 0, startTime := now, refCount := w.refCount + delta)
  }

  function Decrement(w: Lock, running: bool, delta: nat, start: int): Lock {
    var begun := if start == NO_START then w.resetTime else start;
    if !running || w.refCount == 0 || begun < w.resetTime then w
    else
      var left := w.refCount - Min(w.refCount, delta);
      w.(refCount := left, held := w.held && left != 0)
  }

  function Reset(w: Lock, running: bool, now: int): Lock {
    Decrement(w, running, w.refCount, NO_START).(resetTime := now)
  }

  /** A counted reference always has the platform lock behind it. */
  predicate Covered(w: Lock) {
    w.refCount > 0 ==> w.held
  }

  /** The platform lock is held exactly while something is counted. */
  predicate Exact(w: Lock) {
    w.held <==> w.refCount > 0
  }

  /** Taking a reference keeps the lock exact unless it adds nothing to a count of zero. */
  lemma IncrementExactIff(w: Lock, running: bool, delta: nat, now: int)
    requires Exact(w)
    ensures Exact(Increment(w, running, delta, now)) <==> !running || delta > 0 || w.refCount > 0
  {
  }
}
