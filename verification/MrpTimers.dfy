/**
 The timers of a station: what one call of `mrp_periodic` does to every attribute, and what becomes of a declaration in
 the leave-all rounds of its own station (module_avb_srp/src/avb_mrp.c).
 */
module MrpTimers {
  import opened MrpEvents
  import opened Wrappers
  import opened MrpStateMachine
  import opened MrpSpeech

  /** Which timers a call finds run out; `late` is the leave timer of the attribute looked at. */
  datatype Timers = Timers(periodic: bool, leaveAll: bool, join: bool, late: bool)

  function If(condition: bool, i: Input): seq<Input> {
    if condition then [i] else []
  }

  /** What a call does to an attribute; `flag` says that a leave-all is due since an earlier call. */
  function InputsOf(flag: bool, t: Timers): seq<Input> {
    If(t.periodic, PeriodicElapsed) + If(t.leaveAll, LeaveAllHeard) + If(t.join, Opportunity(flag || t.leaveAll))
    + [Polled(t.late)]
  }

  /** The leave-all stays due until the join timer has run out. */
  function FlagAfter(flag: bool, t: Timers): bool {
    !t.join && (flag || t.leaveAll)
  }

  class MrpScheduler {
    var leaveAll: bool

    constructor ()
      ensures !leaveAll
    {
      leaveAll := false;
    }

    /** `mrp_periodic`: the events that each attribute is given, in order. */
    method Periodic(t: Timers) returns (inputs: seq<Input>)
      modifies this
      ensures inputs == InputsOf(old(leaveAll), t) && leaveAll == FlagAfter(old(leaveAll), t)
    {
      inputs := [];
      if t.periodic {
        inputs := inputs + [PeriodicElapsed];
      }
      if t.leaveAll {
        leaveAll := true;
        inputs := inputs + [LeaveAllHeard];
      }
      if t.join {
        inputs := inputs + [Opportunity(leaveAll)];
        leaveAll := false;
      }
      inputs := inputs + [Polled(t.late)];
    }
  }

  // ---------- whole runs of a station ----------

  /** A call of `mrp_periodic`, or a request or message in between. */
  datatype Step = Called(t: Timers) | Between(i: Input)

  /** What the steps amount to for an attribute, and whether a leave-all is due. */
  function Unrolled(steps: seq<Step>): (seq<Input>, bool) {
    if steps == [] then ([], false)
    else
      var (run, flag) := Unrolled(steps[..|steps| - 1]);
      match steps[|steps| - 1]
      case Called(t) => (run + InputsOf(flag, t), FlagAfter(flag, t))
      case Between(i) => (run + [i], flag)
  }

  /** Only `mrp_periodic` gives opportunities. */
  predicate Outside(steps: seq<Step>) {
    forall i :: 0 <= i < |steps| && steps[i].Between? ==> !steps[i].i.Opportunity?
  }

  /** Since position `j` there was a LeaveAll and no opportunity behind it. */
  predicate LedBy(run: seq<Input>, k: int, j: int) {
    0 <= j < k <= |run| && run[j].LeaveAllHeard? && forall m :: j < m < k ==> !run[m].Opportunity?
  }

  ghost predicate Led(run: seq<Input>, k: int) {
    exists j :: LedBy(run, k, j)
  }

  /** Every leave-all round is led by a LeaveAll; and one is due exactly if it has been given and not been sent. */
  ghost predicate AllLed(run: seq<Input>) {
    forall k :: 0 <= k < |run| && run[k] == Opportunity(true) ==> Led(run, k)
  }

  lemma LedSnoc(run: seq<Input>, i: Input, k: int)
    ensures k <= |run| ==> (Led(run + [i], k) <==> Led(run, k))
    ensures Led(run + [i], |run| + 1) <== i.LeaveAllHeard? || (Led(run, |run|) && !i.Opportunity?)
  {
    var all := run + [i];
    assert forall m :: 0 <= m < |run| ==> all[m] == run[m];
    if k <= |run| {
      forall j ensures LedBy(all, k, j) <==> LedBy(run, k, j) {
      }
    }
    if i.LeaveAllHeard? {
      assert LedBy(all, |all|, |run|);
    } else if Led(run, |run|) && !i.Opportunity? {
      var j :| LedBy(run, |run|, j);
      assert LedBy(all, |all|, j);
    }
  }

  /** The run keeps to it, and if a leave-all is due there was a LeaveAll since the last opportunity. */
  ghost predicate Orderly(run: seq<Input>, due: bool) {
    AllLed(run) && (due ==> Led(run, |run|))
  }

  /** Whether a leave-all is due after one more input. */
  function DueThen(due: bool, i: Input): bool {
    i.LeaveAllHeard? || (due && !i.Opportunity?)
  }

  lemma OrderlySnoc(run: seq<Input>, i: Input, due: bool)
    requires Orderly(run, due) && (i == Opportunity(true) ==> due)
    ensures Orderly(run + [i], DueThen(due, i))
  {
    forall k | 0 <= k < |run + [i]| && (run + [i])[k] == Opportunity(true) ensures Led(run + [i], k) {
      LedSnoc(run, i, k);
    }
    LedSnoc(run, i, |run|);
  }

  lemma OrderlyIf(run: seq<Input>, given: bool, i: Input, due: bool)
    requires Orderly(run, due) && (given && i == Opportunity(true) ==> due)
    ensures Orderly(run + If(given, i), if given then DueThen(due, i) else due)
  {
    if given {
      OrderlySnoc(run, i, due);
    } else {
      assert run + If(given, i) == run;
    }
  }

  lemma CallIsOrderly(run: seq<Input>, flag: bool, t: Timers)
    requires Orderly(run, flag)
    ensures Orderly(run + InputsOf(flag, t), FlagAfter(flag, t))
  {
    var due := flag || t.leaveAll;
    OrderlyIf(run, t.periodic, PeriodicElapsed, flag);
    var a := run + If(t.periodic, PeriodicElapsed);
    OrderlyIf(a, t.leaveAll, LeaveAllHeard, flag);
    var b := a + If(t.leaveAll, LeaveAllHeard);
    OrderlyIf(b, t.join, Opportunity(due), due);
    var c := b + If(t.join, Opportunity(due));
    OrderlySnoc(c, Polled(t.late), FlagAfter(flag, t));
    CallInParts(run, flag, t);
  }

  lemma CallInParts(run: seq<Input>, flag: bool, t: Timers)
    ensures run + InputsOf(flag, t)
            == run + If(t.periodic, PeriodicElapsed) + If(t.leaveAll, LeaveAllHeard)
               + If(t.join, Opportunity(flag || t.leaveAll)) + [Polled(t.late)]
  {
  }

  /**
   In every run of a station each leave-all round is led by a LeaveAll that its attributes are given before it, with no
   opportunity in between.
   */
  lemma {:induction false} LeaveAllRoundsAreLed(steps: seq<Step>)
    requires Outside(steps)
    ensures var (run, flag) := Unrolled(steps); Orderly(run, flag)
  {
    if steps == [] {
    } else {
      var shorter, step := steps[..|steps| - 1], steps[|steps| - 1];
      LeaveAllRoundsAreLed(shorter);
      var (run, flag) := Unrolled(shorter);
      match step
      case Called(t) => CallIsOrderly(run, flag, t);
      case Between(i) => OrderlySnoc(run, i, flag);
    }
  }

  // ---------- what is said in a leave-all round ----------

  /** Neither an opportunity nor a request, a restart, or another station's JoinIn. */
  predicate Unheard(rest: seq<Input>) {
    forall i :: 0 <= i < |rest| ==> Undisturbing(rest[i])
  }

  predicate Undisturbing(i: Input) {
    !i.Opportunity? && Upholds(i) && !i.NewRequested? && !(i.Received? && i.three == JOIN_IN)
  }

  lemma UndisturbedStep(s: State, i: Input)
    requires s.applicant in {VN, VP} && Undisturbing(i)
    ensures After(s, i).applicant == s.applicant
  {
  }

  lemma {:induction false} StaysUnheard(s: State, run: seq<Input>, rest: seq<Input>)
    requires Wanted(run) && Unheard(rest)
    ensures Run(s, run + [LeaveAllHeard] + rest).applicant == if NewsOwed(run) > 0 then VN else VP
  {
    var all := run + [LeaveAllHeard] + rest;
    if rest == [] {
      assert all[..|all| - 1] == run;
      DeclaresWhatIsWanted(s, run);
      NeverQuietByHearing(s, run);
      NewsOwedByState(s, run);
    } else {
      assert all[..|all| - 1] == run + [LeaveAllHeard] + rest[..|rest| - 1];
      StaysUnheard(s, run, rest[..|rest| - 1]);
      assert Undisturbing(rest[|rest| - 1]);
      UndisturbedStep(Run(s, run + [LeaveAllHeard] + rest[..|rest| - 1]), rest[|rest| - 1]);
    }
  }

  /**
   In the leave-all rounds of its own station a declaration that nobody else was heard to share says New if one is due,
   and otherwise Mt, which registers with no one; its Joins follow in the next two plain rounds.
   */
  lemma OwnLeaveAllSaysNoJoin(s: State, run: seq<Input>, rest: seq<Input>)
    requires Wanted(run) && Unheard(rest)
    ensures SentAfter(s, run + [LeaveAllHeard] + rest, true) == Some(if NewsOwed(run) > 0 then NEW else MT)
    ensures NewsOwed(run) == 0 ==>
              var after := run + [LeaveAllHeard] + rest + [Opportunity(true)];
              && SaysJoin(SentAfter(s, after, false))
              && SaysJoin(SentAfter(s, after + [Opportunity(false)], false))
  {
    StaysUnheard(s, run, rest);
    var all := run + [LeaveAllHeard] + rest;
    var after := all + [Opportunity(true)];
    assert after[..|after| - 1] == all;
    assert (after + [Opportunity(false)])[..|after|] == after;
  }
}
