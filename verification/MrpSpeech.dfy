/**
 What an applicant says at every opportunity to transmit, as a count over the requests, messages and timers of its run
 (module_avb_srp/src/avb_mrp.c).
 */
module MrpSpeech {
  import opened MrpEvents
  import opened Wrappers
  import opened MrpStateMachine

  predicate HearsLeave(i: Input) {
    i.LeaveAllHeard? || (i.Received? && i.three == LV)
  }

  /** A message that says that the attribute is known elsewhere, or not. */
  predicate HearsState(i: Input) {
    i.Received? && i.three in {JOIN_IN, IN, JOIN_MT, MT}
  }

  // ---------- while a declaration is wanted ----------

  /** How many New messages are still due, and how many Joins then. */
  datatype Due = Due(news: nat, joins: nat)

  function DueAfter(d: Due, i: Input): Due {
    if i.NewRequested? then Due(2, 0)
    else if HearsLeave(i) then (if d.news > 0 then Due(2, 0) else Due(0, 2))
    else if i.Opportunity? && d.news > 0 then Due(d.news - 1, 0)
    else if i.Opportunity? && i.leaveAll && d.joins == 2 then d
    else if i.Opportunity? then Due(0, if d.joins > 0 then d.joins - 1 else 0)
    else if d.news > 0 then d
    else if i.Received? && i.three == JOIN_IN then Due(0, 1)
    else if (HearsState(i) || i.PeriodicElapsed?) && d.joins == 0 then Due(0, 1)
    else d
  }

  /** What is due after a run, a count over the run alone. */
  function DueAfterAll(d: Due, run: seq<Input>): Due {
    if run == [] then d else DueAfter(DueAfterAll(d, run[..|run| - 1]), run[|run| - 1])
  }

  /** What is said when so much is due. */
  function Says(d: Due, registered: bool, leaveAll: bool): Option<ThreeEvent> {
    if d.news > 0 then Some(NEW)
    else if leaveAll then Some(if d.joins == 2 then MT else JOIN_MT)
    else if d.joins > 0 then Some(if registered then JOIN_IN else JOIN_MT)
    else None
  }

  /** The declaration is not taken back. */
  predicate Upheld(run: seq<Input>) {
    forall i :: 0 <= i < |run| ==> Upholds(run[i])
  }

  predicate Upholds(i: Input) {
    !i.LeaveRequested? && !i.Started?
  }

  predicate Speaks(a: ApplicantState) {
    a in {VP, VN, AN, AA, QA, AP}
  }

  function DueIn(a: ApplicantState): Due {
    match a
    case VN => Due(2, 0)
    case AN => Due(1, 0)
    case VP => Due(0, 2)
    case AA | AP => Due(0, 1)
    case _ => Due(0, 0)
  }

  lemma DueStep(s: State, i: Input)
    requires Speaks(s.applicant) && Upholds(i)
    ensures Speaks(After(s, i).applicant) && DueIn(After(s, i).applicant) == DueAfter(DueIn(s.applicant), i)
  {
  }

  /** `before`, then the request, then `run`. */
  function Requested(before: seq<Input>, request: Input, run: seq<Input>): seq<Input> {
    before + [request] + run
  }

  lemma RequestedSnoc(before: seq<Input>, request: Input, run: seq<Input>)
    ensures var all := Requested(before, request, run);
            if run == [] then all == before + [request] && all[..|all| - 1] == before
            else all[..|all| - 1] == Requested(before, request, run[..|run| - 1]) && all[|all| - 1] == run[|run| - 1]
  {
  }

  /** A request for a declaration that was not wanted, or for a new one. */
  predicate Asks(before: seq<Input>, request: Input) {
    request.NewRequested? || (request.JoinRequested? && !Wanted(before))
  }

  /**
   What a request makes due: New twice; Join twice, but only once if an Lv was not yet sent or another station was heard
   to have joined.
   */
  function FirstDue(s: State, before: seq<Input>, request: Input): Due {
    if request.NewRequested? then Due(2, 0) else Due(0, if Run(s, before).applicant in {VO, LO} then 2 else 1)
  }

  lemma RequestMakesDue(s: State, before: seq<Input>, request: Input)
    requires Asks(before, request)
    ensures var a := After(Run(s, before), request).applicant; Speaks(a) && DueIn(a) == FirstDue(s, before, request)
  {
    DeclaresWhatIsWanted(s, before);
    NeverQuietByHearing(s, before);
  }

  lemma {:induction false} DueInEveryRun(s: State, before: seq<Input>, request: Input, run: seq<Input>)
    requires Asks(before, request) && Upheld(run)
    ensures var a := Run(s, Requested(before, request, run)).applicant;
            Speaks(a) && DueIn(a) == DueAfterAll(FirstDue(s, before, request), run)
  {
    RequestedSnoc(before, request, run);
    if run == [] {
      RequestMakesDue(s, before, request);
    } else {
      DueInEveryRun(s, before, request, run[..|run| - 1]);
      DueStep(Run(s, Requested(before, request, run[..|run| - 1])), run[|run| - 1]);
    }
  }

  /** In every run, as long as a declaration is upheld, each opportunity says exactly what is due. */
  lemma WantedSaysWhatIsDue(s: State, before: seq<Input>, request: Input, run: seq<Input>, leaveAll: bool)
    requires Asks(before, request) && Upheld(run)
    ensures var all := Requested(before, request, run);
            SentAfter(s, all, leaveAll)
            == Says(DueAfterAll(FirstDue(s, before, request), run), Run(s, all).registrar.In?, leaveAll)
  {
    DueInEveryRun(s, before, request, run);
  }

  // ---------- how often a Join is said ----------

  /** Nothing but plain opportunities and polls. */
  predicate Quiet(run: seq<Input>) {
    forall i :: 0 <= i < |run| ==> run[i].Polled? || run[i] == Opportunity(false)
  }

  lemma {:induction false} QuietDue(d: Due, run: seq<Input>)
    requires d.news == 0 && Quiet(run)
    ensures DueAfterAll(d, run) == Due(0, if Opportunities(run) < d.joins then d.joins - Opportunities(run) else 0)
  {
    if run == [] {
    } else {
      QuietDue(d, run[..|run| - 1]);
    }
  }

  predicate SaysJoin(said: Option<ThreeEvent>) {
    said == Some(JOIN_IN) || said == Some(JOIN_MT)
  }

  /**
   A Join request where nothing was wanted, nothing had been left and nobody was heard: Join goes out on exactly the
   next two opportunities, and nothing at all on the later ones.
   */
  lemma JoinSentExactlyTwice(s: State, before: seq<Input>, run: seq<Input>)
    requires !Wanted(before) && Run(s, before).applicant in {VO, LO} && Quiet(run)
    ensures var said := SentAfter(s, Requested(before, JoinRequested, run), false);
            (SaysJoin(said) <==> Opportunities(run) < 2) && (said.None? <==> Opportunities(run) >= 2)
  {
    WantedSaysWhatIsDue(s, before, JoinRequested, run, false);
    QuietDue(Due(0, 2), run);
  }

  lemma {:induction false} DueAppend(d: Due, run: seq<Input>, more: seq<Input>)
    ensures DueAfterAll(d, run + more) == DueAfterAll(DueAfterAll(d, run), more)
  {
    if more == [] {
      assert run + more == run;
    } else {
      var n := |more| - 1;
      assert (run + more)[..|run| + n] == run + more[..n];
      DueAppend(d, run, more[..n]);
    }
  }

  /** Once the Joins are out, each time the periodic timer elapses Join goes out once more. */
  lemma PeriodicRepeatsOnce(s: State, before: seq<Input>, request: Input, run: seq<Input>, rest: seq<Input>)
    requires Asks(before, request) && Upheld(run) && DueAfterAll(FirstDue(s, before, request), run) == Due(0, 0)
    requires Quiet(rest)
    ensures var said := SentAfter(s, Requested(before, request, run + ([PeriodicElapsed] + rest)), false);
            (SaysJoin(said) <==> Opportunities(rest) == 0) && (said.None? <==> Opportunities(rest) > 0)
  {
    var first, more := FirstDue(s, before, request), [PeriodicElapsed] + rest;
    assert forall i :: 0 <= i < |run + more| && |run| < i ==> (run + more)[i] == rest[i - |run| - 1];
    WantedSaysWhatIsDue(s, before, request, run + more, false);
    DueAppend(first, run, more);
    DueAppend(Due(0, 0), [PeriodicElapsed], rest);
    assert [PeriodicElapsed][..0] == [];
    QuietDue(Due(0, 1), rest);
  }

  // ---------- while nothing is wanted ----------

  /** What an applicant without a declaration has left to say: Lv, an answer to a leave, or nothing. */
  datatype Duty = Leaving | Answering | Silent

  function DutyAfter(d: Duty, i: Input): Duty {
    if i.Started? then Silent
    else if HearsLeave(i) then (if d.Leaving? then Leaving else Answering)
    else if i.Opportunity? then (if i.leaveAll then Answering else Silent)
    else if HearsState(i) && d.Answering? then Silent
    else d
  }

  function DutyAfterAll(d: Duty, run: seq<Input>): Duty {
    if run == [] then d else DutyAfter(DutyAfterAll(d, run[..|run| - 1]), run[|run| - 1])
  }

  /** An answer says what the registrar has; a leave-all round is answered in the next plain one. */
  function SaysOnDuty(d: Duty, registered: bool, leaveAll: bool): Option<ThreeEvent> {
    match d
    case Leaving => Some(LV)
    case Answering => if leaveAll then None else Some(if registered then IN else MT)
    case Silent => None
  }

  predicate Unclaimed(run: seq<Input>) {
    forall i :: 0 <= i < |run| ==> !run[i].NewRequested? && !run[i].JoinRequested?
  }

  predicate Observes(a: ApplicantState) {
    a in {VO, AO, LA, LO}
  }

  function DutyIn(a: ApplicantState): Duty {
    if a.LA? then Leaving else if a.LO? then Answering else Silent
  }

  lemma DutyStep(s: State, i: Input)
    requires Observes(s.applicant) && !i.NewRequested? && !i.JoinRequested?
    ensures Observes(After(s, i).applicant) && DutyIn(After(s, i).applicant) == DutyAfter(DutyIn(s.applicant), i)
  {
  }

  /** A Leave request owes an Lv unless the declaration is passive: never sent, or taken for another's. */
  function FirstDuty(s: State, before: seq<Input>): Duty {
    if Run(s, before).applicant in {VP, AP} then Silent else Leaving
  }

  lemma {:induction false} DutyInEveryRun(s: State, before: seq<Input>, run: seq<Input>)
    requires Wanted(before) && Unclaimed(run)
    ensures var a := Run(s, Requested(before, LeaveRequested, run)).applicant;
            Observes(a) && DutyIn(a) == DutyAfterAll(FirstDuty(s, before), run)
  {
    RequestedSnoc(before, LeaveRequested, run);
    if run == [] {
      DeclaresWhatIsWanted(s, before);
      NeverQuietByHearing(s, before);
    } else {
      DutyInEveryRun(s, before, run[..|run| - 1]);
      DutyStep(Run(s, Requested(before, LeaveRequested, run[..|run| - 1])), run[|run| - 1]);
    }
  }

  /** In every run, from a Leave request to the next request for a declaration, each opportunity says what duty asks. */
  lemma UnwantedSaysItsDuty(s: State, before: seq<Input>, run: seq<Input>, leaveAll: bool)
    requires Wanted(before) && Unclaimed(run)
    ensures var all := Requested(before, LeaveRequested, run);
            SentAfter(s, all, leaveAll)
            == SaysOnDuty(DutyAfterAll(FirstDuty(s, before), run), Run(s, all).registrar.In?, leaveAll)
  {
    DutyInEveryRun(s, before, run);
  }

  /** So does one that nothing was ever requested of. */
  lemma {:induction false} NeverRequestedSaysItsDuty(s: State, run: seq<Input>, leaveAll: bool)
    requires Unclaimed(run)
    ensures Observes(Run(s, run).applicant) && DutyIn(Run(s, run).applicant) == DutyAfterAll(Silent, run)
    ensures SentAfter(s, run, leaveAll) == SaysOnDuty(DutyAfterAll(Silent, run), Run(s, run).registrar.In?, leaveAll)
  {
    if run == [] {
    } else {
      NeverRequestedSaysItsDuty(s, run[..|run| - 1], leaveAll);
      DutyStep(Run(s, run[..|run| - 1]), run[|run| - 1]);
    }
  }

  // ---------- the registrar ----------

  predicate HearsJoin(i: Input) {
    i.Received? && i.three in {NEW, JOIN_IN, JOIN_MT}
  }

  /** A leave heard from others, or the leave-all of this station. */
  predicate Loosens(i: Input) {
    HearsLeave(i) || i == Opportunity(true)
  }

  /** A join was heard, and nothing behind it loosens the registration. */
  ghost predicate Registered(run: seq<Input>) {
    exists j :: 0 <= j < |run| && HearsJoin(run[j]) && KeptFrom(run, j + 1)
  }

  predicate KeptFrom(run: seq<Input>, from: int) {
    forall k :: 0 <= from <= k < |run| ==> Keeps(run[k])
  }

  /** Input `n` loosens what is registered then. */
  ghost predicate LoosenedAt(run: seq<Input>, n: int) {
    0 <= n < |run| && Loosens(run[n]) && Registered(run[..n])
  }

  /** A registration was loosened, and since then neither was a join heard nor did the leave timer run out. */
  ghost predicate Aging(run: seq<Input>) {
    exists n :: 0 <= n < |run| && LoosenedAt(run, n) && LooseFrom(run, n + 1)
  }

  predicate LooseFrom(run: seq<Input>, from: int) {
    forall k :: 0 <= from <= k < |run| ==> KeepsLoose(run[k])
  }

  predicate Keeps(i: Input) {
    !Loosens(i) && !i.Started?
  }

  predicate KeepsLoose(i: Input) {
    !HearsJoin(i) && !i.Started? && i != Polled(true)
  }

  lemma KeptSnoc(run: seq<Input>, i: Input, from: int)
    requires 0 <= from <= |run|
    ensures KeptFrom(run + [i], from) <==> KeptFrom(run, from) && Keeps(i)
    ensures LooseFrom(run + [i], from) <==> LooseFrom(run, from) && KeepsLoose(i)
  {
    var all := run + [i];
    assert all[|run|] == i && forall k :: from <= k < |run| ==> all[k] == run[k];
  }

  lemma RegisteredSnoc(run: seq<Input>, i: Input)
    ensures Registered(run + [i]) <==> HearsJoin(i) || (Registered(run) && Keeps(i))
  {
    var all := run + [i];
    assert all[|run|] == i && KeptFrom(all, |all|);
    if Registered(all) && !HearsJoin(i) {
      var j :| 0 <= j < |all| && HearsJoin(all[j]) && KeptFrom(all, j + 1);
      KeptSnoc(run, i, j + 1);
      assert HearsJoin(run[j]);
    }
    if Registered(run) && Keeps(i) {
      var j :| 0 <= j < |run| && HearsJoin(run[j]) && KeptFrom(run, j + 1);
      KeptSnoc(run, i, j + 1);
      assert HearsJoin(all[j]);
    }
  }

  lemma AgingSnoc(run: seq<Input>, i: Input)
    ensures Aging(run + [i]) <==> (Registered(run) && Loosens(i)) || (Aging(run) && KeepsLoose(i))
  {
    var all := run + [i];
    assert all[|run|] == i && all[..|run|] == run && LooseFrom(all, |all|);
    if Aging(all) {
      var n :| 0 <= n < |all| && LoosenedAt(all, n) && LooseFrom(all, n + 1);
      if n < |run| {
        KeptSnoc(run, i, n + 1);
        LoosenedBefore(run, i, n);
      }
    }
    if Registered(run) && Loosens(i) {
      assert LoosenedAt(all, |run|);
    }
    if Aging(run) && KeepsLoose(i) {
      var n :| 0 <= n < |run| && LoosenedAt(run, n) && LooseFrom(run, n + 1);
      KeptSnoc(run, i, n + 1);
      LoosenedBefore(run, i, n);
    }
  }

  lemma LoosenedBefore(run: seq<Input>, i: Input, n: int)
    requires 0 <= n < |run|
    ensures LoosenedAt(run + [i], n) <==> LoosenedAt(run, n)
  {
    assert (run + [i])[n] == run[n] && (run + [i])[..n] == run[..n];
  }

  lemma RegistrarStepped(s: State, i: Input)
    requires s.running <==> s.registrar.Lv?
    ensures After(s, i).registrar.In? <==> HearsJoin(i) || (s.registrar.In? && Keeps(i))
    ensures After(s, i).registrar.Lv? <==> (s.registrar.In? && Loosens(i)) || (s.registrar.Lv? && KeepsLoose(i))
    ensures RaisedBy(s, i) == Some(IndicateLeave) <==> s.registrar.Lv? && i == Polled(true)
  {
  }

  /**
   In every run an attribute is registered exactly if a join was heard behind the latest leave, leave-all and restart,
   and its registration ages exactly from the leave that loosened it to the next join, restart, or end of the leave
   timer.
   */
  lemma {:induction false} RegistrarFollowsMessages(s: State, run: seq<Input>)
    ensures Run(s, run).registrar.In? <==> Registered(run)
    ensures Run(s, run).registrar.Lv? <==> Aging(run)
  {
    if run == [] {
    } else {
      var shorter, i := run[..|run| - 1], run[|run| - 1];
      RegistrarFollowsMessages(s, shorter);
      TimerRunsExactlyInLv(s, shorter);
      RegistrarStepped(Run(s, shorter), i);
      RegisteredSnoc(shorter, i);
      AgingSnoc(shorter, i);
      assert run == shorter + [i];
    }
  }

  /** A Leave is indicated exactly when the leave timer runs out on a registration that was not renewed. */
  lemma LeaveIndicatedExactlyWhen(s: State, run: seq<Input>, i: Input)
    ensures RaisedBy(Run(s, run), i) == Some(IndicateLeave) <==> Aging(run) && i == Polled(true)
  {
    RegistrarFollowsMessages(s, run);
    TimerRunsExactlyInLv(s, run);
    RegistrarStepped(Run(s, run), i);
  }

  // ---------- what comes with an indication ----------

  /** The parameter of the latest message that raised an indication since the last poll handed them over. */
  function LatestParameter(s: State, run: seq<Input>): Option<int> {
    if run == [] then None
    else
      var before, i := run[..|run| - 1], run[|run| - 1];
      if RaisedBy(Run(s, before), i).Some? then Some(if i.Received? then i.four else 0)
      else if i.Polled? then None
      else LatestParameter(s, before)
  }

  lemma ParameterStep(s: State, i: Input, latest: Option<int>)
    requires (s.pending != {} <==> latest.Some?) && (latest.Some? ==> s.parameter == latest.value)
    ensures var t, raised := After(s, i), RaisedBy(s, i);
            var next := if raised.Some? then Some(if i.Received? then i.four else 0)
                        else if i.Polled? then None else latest;
            (t.pending != {} <==> next.Some?) && (next.Some? ==> t.parameter == next.value)
  {
  }

  /**
   In every run what is handed over with pending indications is the parameter of the message that raised the latest.
   */
  lemma {:induction false} ParameterIsOfLatest(s: State, run: seq<Input>)
    requires s.pending == {}
    ensures var t, latest := Run(s, run), LatestParameter(s, run);
            (t.pending != {} <==> latest.Some?) && (latest.Some? ==> t.parameter == latest.value)
  {
    if run == [] {
    } else {
      ParameterIsOfLatest(s, run[..|run| - 1]);
      ParameterStep(Run(s, run[..|run| - 1]), run[|run| - 1], LatestParameter(s, run[..|run| - 1]));
    }
  }
}
