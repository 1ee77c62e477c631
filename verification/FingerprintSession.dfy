/** The fingerprint session and its lockout tracker as they update their members. */
module FingerprintSession {
  import opened Lockout
  import Udfps

  class LockoutTracker {
    var failedCount: nat
    var lockoutTimedStart: int
    var currentMode: LockoutMode

    ghost function State(): Tracker
      reads this
    {
      Tracker(failedCount, lockoutTimedStart, currentMode)
    }

    constructor ()
      ensures State() == Tracker(0, 0, NONE)
    {
      failedCount, lockoutTimedStart, currentMode := 0, 0, NONE;
    }

    method Reset(clearAttemptCounter: bool)
      modifies this
      ensures State() == Lockout.Reset(old(State()), clearAttemptCounter)
      ensures failedCount == (if clearAttemptCounter then 0 else old(failedCount))
      ensures currentMode == NONE && lockoutTimedStart == 0
    {
      if clearAttemptCounter {
        failedCount := 0;
      }
      lockoutTimedStart := 0;
      currentMode := NONE;
    }

    method AddFailedAttempt(now: int)
      modifies this
      ensures State() == Lockout.AddFailedAttempt(old(State()), now)
      ensures failedCount == old(failedCount) + 1
      ensures failedCount >= 20 ==> currentMode == PERMANENT && lockoutTimedStart == old(lockoutTimedStart)
      ensures 5 <= failedCount < 20 ==> currentMode == TIMED && lockoutTimedStart == now
      ensures failedCount < 5 ==> currentMode == old(currentMode) && lockoutTimedStart == old(lockoutTimedStart)
    {
      failedCount := failedCount + 1;
      if failedCount >= PERMANENT_THRESHOLD {
        currentMode := PERMANENT;
      } else if failedCount >= TIMED_THRESHOLD {
        currentMode := TIMED;
        lockoutTimedStart := now;
      }
    }

    method GetMode(elapsed: bool) returns (mode: LockoutMode)
      modifies this
      ensures State() == Current(old(State()), elapsed) && mode == currentMode
      ensures failedCount == old(failedCount)
      ensures old(currentMode) == TIMED && elapsed ==> currentMode == NONE && lockoutTimedStart == 0
      ensures old(currentMode) != TIMED || !elapsed ==>
        currentMode == old(currentMode) && lockoutTimedStart == old(lockoutTimedStart)
    {
      if currentMode == TIMED && elapsed {
        currentMode := NONE;
        lockoutTimedStart := 0;
      }
      mode := currentMode;
    }

    method GetLockoutTimeLeft(now: int) returns (res: int)
      ensures res == TimeLeft(State(), now)
      ensures lockoutTimedStart <= 0 ==> res == 0
      ensures lockoutTimedStart > 0 ==>
        // whole milliseconds gone by, cut toward zero
        var gone := TIMED_DURATION - res;
        if now >= lockoutTimedStart then gone * 1000000 <= now - lockoutTimedStart < (gone + 1) * 1000000
        else (gone - 1) * 1000000 < now - lockoutTimedStart <= gone * 1000000
    {
      res := 0;
      if lockoutTimedStart > 0 {
        var elapsed := Milliseconds(now - lockoutTimedStart);
        res := TIMED_DURATION - elapsed;
      }
    }
  }

  class FingerprintSession {
    const lockoutTracker: LockoutTracker
    const udfpsHandler: Udfps.UdfpsHandler
    var isLockoutTimerStarted: bool
    var isLockoutTimerAborted: bool
    ghost var timers: nat
    ghost var counted: bool
    ghost var trace: seq<Effect>

    ghost function State(): Session
      reads this, lockoutTracker
    {
      Session(lockoutTracker.State(), isLockoutTimerStarted, isLockoutTimerAborted, timers, counted, trace)
    }

    constructor ()
      ensures State() == FRESH && udfpsHandler.State() == Udfps.START
      ensures fresh(lockoutTracker) && fresh(udfpsHandler)
    {
      lockoutTracker := new LockoutTracker();
      udfpsHandler := new Udfps.UdfpsHandler();
      isLockoutTimerStarted, isLockoutTimerAborted := false, false;
      timers, counted, trace := 0, false, [];
    }

    /** The reader is told that the finger is up, and the high-brightness mode is left. */
    method StopReading()
      modifies this`trace, udfpsHandler
      ensures trace == old(trace) + [FingerUp, HbmOff]
      ensures udfpsHandler.State() == Udfps.Next(old(udfpsHandler.State()), Udfps.FingerUp)
    {
      udfpsHandler.OnFingerUp();
      trace := trace + [FingerUp, HbmOff];
    }

    method ClearLockout(clearAttemptCounter: bool)
      modifies this`trace, lockoutTracker
      ensures State() == Lockout.ClearLockout(old(State()), clearAttemptCounter)
    {
      lockoutTracker.Reset(clearAttemptCounter);
      trace := trace + [OnCleared];
    }

    method StartLockoutTimer()
      modifies this`isLockoutTimerAborted, this`isLockoutTimerStarted, this`timers
      ensures State() == Lockout.StartLockoutTimer(old(State()))
    {
      isLockoutTimerAborted := false;
      timers := timers + 1;
      isLockoutTimerStarted := true;
    }

    method LockoutTimerExpired()
      requires Enabled(State(), Expire)
      modifies this, lockoutTracker
      ensures State() == Next(old(State()), Expire)
    {
      if !isLockoutTimerAborted {
        ClearLockout(false);
      }
      isLockoutTimerStarted := false;
      isLockoutTimerAborted := false;
      timers := timers - 1;
    }

    method OnResetLockout()
      modifies this, lockoutTracker
      ensures State() == Next(old(State()), ResetLockout)
    {
      ClearLockout(true);
      isLockoutTimerAborted := true;
    }

    /** While a lockout is in force, the reader is off. */
    method CheckSensorLockout(elapsed: bool, now: int) returns (locked: bool)
      requires counted
      modifies this, lockoutTracker, udfpsHandler
      ensures State() == Next(old(State()), Check(elapsed, now))
      ensures locked == (lockoutTracker.currentMode != NONE)
      ensures udfpsHandler.State() == if locked then Udfps.Next(old(udfpsHandler.State()), Udfps.FingerUp)
                                                else old(udfpsHandler.State())
    {
      counted := false;
      var lockoutMode := lockoutTracker.GetMode(elapsed);
      ghost var t := lockoutTracker.State();
      if lockoutMode != NONE {
        StopReading();
      }
      if lockoutMode == PERMANENT {
        trace := trace + [OnPermanent];
        isLockoutTimerAborted := true;
        assert trace == old(trace) + [FingerUp, HbmOff, OnPermanent];
        return true;
      } else if lockoutMode == TIMED {
        var timeLeft := lockoutTracker.GetLockoutTimeLeft(now);
        trace := trace + [OnTimed(timeLeft)];
        assert trace == old(trace) + [FingerUp, HbmOff, OnTimed(timeLeft)] && lockoutTracker.State() == t;
        if !isLockoutTimerStarted {
          StartLockoutTimer();
        }
        return true;
      }
      return false;
    }

    /** A finger was presented: fid names the matching one, or is 0. */
    method NotifyAuthenticated(fid: int, now: int, elapsed: bool, later: int)
      requires !counted
      modifies this, lockoutTracker, udfpsHandler
      ensures State() == if fid != 0 then Next(old(State()), Match)
                         else Next(Next(old(State()), Count(now)), Check(elapsed, later))
      ensures old(trace) + [if fid != 0 then OnSucceeded else OnFailed] <= trace
      ensures lockoutTracker.currentMode != NONE || fid != 0 ==>
        udfpsHandler.State() == Udfps.Next(old(udfpsHandler.State()), Udfps.FingerUp)
    {
      if fid != 0 {
        trace := trace + [OnSucceeded];
        lockoutTracker.Reset(true);
        StopReading();
        assert trace == old(trace) + [OnSucceeded, FingerUp, HbmOff];
      } else {
        trace := trace + [OnFailed];
        lockoutTracker.AddFailedAttempt(now);
        counted := true;
        var _ := CheckSensorLockout(elapsed, later);
      }
    }
  }
}
