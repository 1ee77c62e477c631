/** Switching all sub-HALs to another operation mode, and back if one refuses. */
module OperationModes {

  datatype Mode = NORMAL | DATA_INJECTION
  datatype Result = OK | Failed(code: int)

  /** One call: what each sub-HAL returns when asked to switch, and when asked to switch back. */
  datatype Call = Call(mode: Mode, answers: seq<Result>, rollbacks: seq<Result>)

  /** The sub-HALs' own modes, and the one the proxy has on record. */
  datatype Modes = Modes(subHals: seq<Mode>, current: Mode)

  /** How many sub-HALs accept before the first one that does not. */
  function Accepting(answers: seq<Result>): (n: nat)
    ensures n <= |answers| && (forall i :: 0 <= i < n ==> answers[i] == OK)
    ensures n < |answers| ==> answers[n] != OK
  {
    if answers == [] || answers[0] != OK then 0 else 1 + Accepting(answers[1..])
  }

  predicate Fits(m: Modes, c: Call) {
    |c.answers| == |c.rollbacks| == |m.subHals|
  }

  /** A sub-HAL that refuses, to switch or to switch back, keeps the mode it has. */
  function ModeAfter(m: Modes, c: Call, i: nat): Mode
    requires Fits(m, c) && i < |m.subHals|
  {
    var k := Accepting(c.answers);
    if i >= k then m.subHals[i]
    else if k < |c.answers| && c.rollbacks[i] == OK then m.current
    else c.mode
  }

  function After(m: Modes, c: Call): (r: Modes)
    requires Fits(m, c)
    ensures |r.subHals| == |m.subHals|
  {
    Modes(seq(|m.subHals|, i requires 0 <= i < |m.subHals| => ModeAfter(m, c, i)),
          if Accepting(c.answers) == |c.answers| then c.mode else m.current)
  }

  ghost predicate Agree(m: Modes) {
    forall i :: 0 <= i < |m.subHals| ==> m.subHals[i] == m.current
  }

  predicate Refused(c: Call) {
    Accepting(c.answers) < |c.answers|
  }

  /** From agreement, a call leads to agreement exactly when nobody refused, or whoever had switched
      also switched back, or there was nothing to switch. */
  lemma AllOrNothingIff(m: Modes, c: Call)
    requires Fits(m, c) && Agree(m)
    ensures Agree(After(m, c)) <==>
      || !Refused(c)
      || c.mode == m.current
      || forall i :: 0 <= i < Accepting(c.answers) ==> c.rollbacks[i] == OK
  {
    var r := After(m, c);
    if Refused(c) {
      assert forall i :: 0 <= i < Accepting(c.answers) ==>
        (r.subHals[i] == r.current <==> c.rollbacks[i] == OK || c.mode == m.current);
    }
  }

  /** Sub-HAL by sub-HAL, whatever their modes are: if nobody refuses, all have the new mode and it is put
      on record; else the first one to refuse and those after it keep theirs, and each one before it gets
      the recorded mode back, or stays in the new one if it refuses to go back. */
  lemma EverySubHal(m: Modes, c: Call, i: nat)
    requires Fits(m, c) && i < |m.subHals|
    ensures (forall j :: 0 <= j < |c.answers| ==> c.answers[j] == OK) ==>
              After(m, c).subHals[i] == c.mode && After(m, c).current == c.mode
    ensures (exists j :: 0 <= j <= i && c.answers[j] != OK) ==>
              After(m, c).subHals[i] == m.subHals[i] && After(m, c).current == m.current
    ensures (forall j :: 0 <= j <= i ==> c.answers[j] == OK)
              && (exists j :: i < j < |c.answers| && c.answers[j] != OK) ==>
              && After(m, c).current == m.current
              && After(m, c).subHals[i] == if c.rollbacks[i] == OK then m.current else c.mode
  {
  }

  /** While rolling back works, the sub-HALs agree with the record after any number of calls, whoever
      refuses, and the record is the mode of the last call nobody refused. */
  lemma {:induction false} AlwaysAgree(m: Modes, calls: seq<Call>)
    requires Agree(m)
    requires forall c :: c in calls ==> Fits(m, c)
    requires forall c :: c in calls ==> forall i :: 0 <= i < |c.rollbacks| ==> c.rollbacks[i] == OK
    ensures |AfterAll(m, calls).subHals| == |m.subHals| && Agree(AfterAll(m, calls))
    ensures AfterAll(m, calls).current == LastAccepted(m.current, calls)
    decreases |calls|
  {
    if calls != [] {
      assert calls[0] in calls;
      AllOrNothingIff(m, calls[0]);
      assert forall c :: c in calls[1..] ==> c in calls;
      AlwaysAgree(After(m, calls[0]), calls[1..]);
    }
  }

  function AfterAll(m: Modes, calls: seq<Call>): Modes
    decreases |calls|
  {
    if calls == [] then m
    else AfterAll(if Fits(m, calls[0]) then After(m, calls[0]) else m, calls[1..])
  }

  function LastAccepted(initial: Mode, calls: seq<Call>): Mode
    decreases |calls|
  {
    if calls == [] then initial
    else LastAccepted(if Refused(calls[0]) then initial else calls[0].mode, calls[1..])
  }

  class ModeSwitch {
    var subHals: seq<Mode>
    var currentOperationMode: Mode

    ghost function State(): Modes
      reads this
    {
      Modes(subHals, currentOperationMode)
    }

    constructor (subHals: seq<Mode>, current: Mode)
      ensures State() == Modes(subHals, current)
    {
      this.subHals, currentOperationMode := subHals, current;
    }

    method SetOperationMode(mode: Mode, answers: seq<Result>, rollbacks: seq<Result>) returns (result: Result)
      requires |answers| == |rollbacks| == |subHals|
      modifies this
      ensures State() == After(old(State()), Call(mode, answers, rollbacks))
      ensures var k := Accepting(answers); result == if k == |answers| then OK else answers[k]
    {
      result := OK;
      var subHalIndex := 0;
      ghost var k := Accepting(answers);
      while subHalIndex < |subHals|
        invariant 0 <= subHalIndex <= |subHals| == |old(subHals)|
        invariant result == OK && subHalIndex <= k
        invariant forall i :: 0 <= i < subHalIndex ==> subHals[i] == mode
        invariant forall i :: subHalIndex <= i < |subHals| ==> subHals[i] == old(subHals[i])
        invariant currentOperationMode == old(currentOperationMode)
      {
        result := answers[subHalIndex];
        if result != OK {
          break;
        }
        subHals := subHals[subHalIndex := mode];
        subHalIndex := subHalIndex + 1;
      }
      assert subHalIndex == k;
      if result != OK {
        for i := 0 to subHalIndex
          invariant |subHals| == |old(subHals)| && currentOperationMode == old(currentOperationMode)
          invariant forall j :: 0 <= j < i ==> subHals[j] == if rollbacks[j] == OK then currentOperationMode else mode
          invariant forall j :: i <= j < subHalIndex ==> subHals[j] == mode
          invariant forall j :: subHalIndex <= j < |subHals| ==> subHals[j] == old(subHals[j])
        {
          if rollbacks[i] == OK {
            subHals := subHals[i := currentOperationMode];
          }
        }
      } else {
        currentOperationMode := mode;
      }
      assert subHals == After(old(State()), Call(mode, answers, rollbacks)).subHals;
    }
  }
}
