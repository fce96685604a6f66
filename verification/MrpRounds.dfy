/**
 Two stations over many transmit opportunities: an attribute that was requested at one of them is registered at the
 other after every plain round, as long as frames arrive and nobody takes it back (module_avb_srp/src/avb_mrp.c).
 */
module MrpRounds {
  import opened Bytes
  import opened Wrappers
  import opened MrpEvents
  import opened MrpPdu
  import opened MrpDeclarations
  import opened MrpViews
  import opened MrpReceiver
  import opened MrpAttributeList
  import opened MrpStations
  import S = MrpStateMachine

  /**
   One opportunity of the sender: what has happened to its attribute and to the receiver's since the one before, the
   order of its list and the states of its attributes, and the frame, which stands in what the receiver got.
   */
  datatype Round = Round(ours: seq<S.Input>, theirs: seq<S.Input>, s: seq<int>, was: seq<S.State>, leaveAll: bool,
                         frame: seq<byte>, rx: seq<byte>, end: nat)

  function Through(st: S.State, run: seq<S.Input>): S.State {
    if run == [] then st else S.After(Through(st, run[..|run| - 1]), run[|run| - 1])
  }

  /** The sender's attribute after some rounds. */
  function Sender(st: S.State, rounds: seq<Round>): S.State {
    if rounds == [] then st
    else
      var r := rounds[|rounds| - 1];
      S.After(Through(Sender(st, rounds[..|rounds| - 1]), r.ours), S.Opportunity(r.leaveAll))
  }

  /** The receiver's attribute after one round; an empty frame is not sent. */
  function Reached(other: S.State, app: Application, a: Attribute, r: Round): S.State {
    var st := Through(other, r.theirs);
    if r.frame == [] || |r.rx| <= r.end then st
    else Answer(st, ParseMessages(app, HasLengths(app), r.rx, r.end, 1), a, true)
  }

  function Receiver(other: S.State, app: Application, a: Attribute, rounds: seq<Round>): S.State {
    if rounds == [] then other
    else Reached(Receiver(other, app, a, rounds[..|rounds| - 1]), app, a, rounds[|rounds| - 1])
  }

  /** What leaves a declaration standing: anything but a Leave request or a restart. */
  predicate AllStand(run: seq<S.Input>) {
    forall i :: 0 <= i < |run| ==> Stands(run[i])
  }

  predicate Stands(i: S.Input) {
    !i.LeaveRequested? && !i.Started? && !i.Opportunity?
  }

  /** What leaves a registration standing: neither a leave of any kind, heard or sent, nor a restart. */
  predicate AllSpare(run: seq<S.Input>) {
    forall i :: 0 <= i < |run| ==> Spares(run[i])
  }

  predicate Spares(i: S.Input) {
    !i.Started? && !i.LeaveAllHeard? && !(i.Received? && i.three == LV) && !(i.Opportunity? && i.leaveAll)
  }

  /** The round is as the two stations have it: attribute `k` of the sender goes on from `st`. */
  ghost predicate Happens(list: AttributeList, info: seq<Attribute>, app: Application, k: int, a: Attribute,
                          st: S.State, r: Round)
  {
    && |r.was| == |list.types| && |r.s| < 256 && k in r.s && 0 <= k < |r.was| == |info| && SameAs(info[k], a)
    && r.was[k] == Through(st, r.ours) && AllStand(r.ours) && AllSpare(r.theirs)
    && SentAs(list, info, r.s, r.was, app, r.leaveAll, r.frame) && (r.frame != [] ==> Receives(r.rx, r.end, r.frame))
    && !SomeoneSays(info, r.s, r.was, TxEvent(r.leaveAll), a, LV)
  }

  ghost predicate AllHappen(list: AttributeList, info: seq<Attribute>, app: Application, k: int, a: Attribute,
                            st: S.State, rounds: seq<Round>)
  {
    rounds == [] ||
    (AllHappen(list, info, app, k, a, st, rounds[..|rounds| - 1])
     && Happens(list, info, app, k, a, Sender(st, rounds[..|rounds| - 1]), rounds[|rounds| - 1]))
  }

  // ---------- one station at a time ----------

  /** An applicant that declares, and is not one of the quiet observers that no run reaches. */
  predicate Declares(st: S.State) {
    S.Declaring(st.applicant) && !st.applicant.QO? && !st.applicant.QP?
  }

  lemma DeclaresOn(st: S.State, i: S.Input)
    requires Declares(st) && (Stands(i) || i.Opportunity?)
    ensures Declares(S.After(st, i)) && (S.After(st, i).applicant.QA? ==> st.applicant.QA? || i.Opportunity?)
    ensures i.Opportunity? && i.leaveAll && st.applicant.VP? ==> S.After(st, i).applicant.VP?
  {
  }

  lemma {:induction false} DeclaresThrough(st: S.State, run: seq<S.Input>)
    requires Declares(st) && AllStand(run)
    ensures Declares(Through(st, run)) && (Through(st, run).applicant.QA? ==> st.applicant.QA?)
  {
    if run == [] {
    } else {
      DeclaresThrough(st, run[..|run| - 1]);
      assert Stands(run[|run| - 1]);
      DeclaresOn(Through(st, run[..|run| - 1]), run[|run| - 1]);
    }
  }

  /** A state as runs have them: the attribute is in use, and its leave timer runs exactly in Lv. */
  predicate Proper(st: S.State) {
    Active(st) && (st.running <==> st.registrar.Lv?)
  }

  lemma ProperOn(st: S.State, i: S.Input)
    requires Proper(st)
    ensures Proper(S.After(st, i)) && (Spares(i) && st.registrar.In? ==> S.After(st, i).registrar.In?)
  {
    S.TimerStep(st, i);
  }

  lemma {:induction false} ProperThrough(st: S.State, run: seq<S.Input>)
    requires Proper(st)
    ensures Proper(Through(st, run)) && (AllSpare(run) && st.registrar.In? ==> Through(st, run).registrar.In?)
  {
    if run == [] {
    } else {
      ProperThrough(st, run[..|run| - 1]);
      ProperOn(Through(st, run[..|run| - 1]), run[|run| - 1]);
      assert AllSpare(run) ==> AllSpare(run[..|run| - 1]) && Spares(run[|run| - 1]);
    }
  }

  lemma {:induction false} AnswerIsProper(st: S.State, said: seq<Indication>, a: Attribute)
    requires Proper(st)
    ensures Proper(Answer(st, said, a, true))
    decreases |said|
  {
    if said == [] {
    } else {
      var i := said[0];
      if i.LeaveAll? {
        ProperOn(st, S.LeaveAllHeard);
      } else {
        ProperOn(st, S.Received(i.three, i.four));
      }
      AnswerIsProper(Answered(st, i, a, true), said[1..], a);
    }
  }

  lemma DeclaringSpeaks(st: S.State, leaveAll: bool)
    requires Declares(st)
    ensures S.Sent(st, TxEvent(leaveAll)) in {Some(NEW), Some(JOIN_IN), Some(JOIN_MT)}
            <==> if leaveAll then !st.applicant.VP? else !st.applicant.QA?
    ensures Active(st)
  {
  }

  // ---------- one round ----------

  /** An empty frame stands for a plain round in which nobody says anything. */
  lemma NothingSent(list: AttributeList, info: seq<Attribute>, s: seq<int>, was: seq<S.State>, app: Application,
                    leaveAll: bool, k: int, a: Attribute, event: ThreeEvent)
    requires |was| == |list.types| && Described(list, info) && |s| < 256 && BelongsTo(KindOf(a), app)
    requires SentAs(list, info, s, was, app, leaveAll, []) && k in s && 0 <= k < |info| && SameAs(info[k], a)
    ensures !leaveAll && !Says(was, k, TxEvent(leaveAll), event)
  {
    var e := TxEvent(leaveAll);
    var handed := HandedFor(list, s, was, e, KindsOf(app));
    HandedForApp(list, s, was, e, app);
    HandedBelongs(list, info, s, was, e, app);
    DeclareAllAudible(app, Opening(app, leaveAll), Declarations(handed, info));
    if Says(was, k, e, event) {
      SaidIsHanded(list, info, s, was, e, KindsOf(app), handed, k, a, event);
    }
  }

  /** What holds between rounds: a sender that has become quiet has been heard. */
  predicate Settled(st: S.State, other: S.State) {
    Declares(st) && Proper(other) && (st.applicant.QA? ==> other.registrar.In?)
  }

  lemma RoundRegisters(list: AttributeList, info: seq<Attribute>, app: Application, k: int, a: Attribute, st: S.State,
                       other: S.State, r: Round)
    requires Described(list, info) && !a.DomainAttribute? && BelongsTo(KindOf(a), app)
    requires Happens(list, info, app, k, a, st, r) && Settled(st, other)
    ensures var before, after := Through(st, r.ours), Reached(other, app, a, r);
            Proper(after) && ((if r.leaveAll then !before.applicant.VP? else true) ==> after.registrar.In?)
  {
    var ours, theirs, e := r.was[k], Through(other, r.theirs), TxEvent(r.leaveAll);
    DeclaresThrough(st, r.ours);
    ProperThrough(other, r.theirs);
    DeclaringSpeaks(ours, r.leaveAll);
    if r.frame == [] {
      NothingSent(list, info, r.s, r.was, app, r.leaveAll, k, a, NEW);
      NothingSent(list, info, r.s, r.was, app, r.leaveAll, k, a, JOIN_IN);
      NothingSent(list, info, r.s, r.was, app, r.leaveAll, k, a, JOIN_MT);
    } else {
      FrameRegisters(list, info, r.s, r.was, app, r.leaveAll, r.frame, r.rx, r.end, a, theirs);
      AnswerIsProper(theirs, ParseMessages(app, HasLengths(app), r.rx, r.end, 1), a);
      if S.Sent(ours, e) in {Some(NEW), Some(JOIN_IN), Some(JOIN_MT)} {
        assert Says(r.was, k, e, S.Sent(ours, e).value);
      }
    }
  }

  // ---------- all rounds ----------

  /**
   Over any rounds: after every plain one the receiver's registrar is In, and after a leave-all round it is unless the
   sender was passive. Whatever happens in between, no quiet sender goes unregistered.
   */
  lemma {:induction false} RegisteredInEveryRound(list: AttributeList, info: seq<Attribute>, app: Application, k: int,
                                                  a: Attribute, st: S.State, other: S.State, rounds: seq<Round>)
    requires Described(list, info) && !a.DomainAttribute? && BelongsTo(KindOf(a), app)
    requires AllHappen(list, info, app, k, a, st, rounds) && Settled(st, other)
    ensures Settled(Sender(st, rounds), Receiver(other, app, a, rounds))
    ensures rounds != [] && !rounds[|rounds| - 1].leaveAll ==> Receiver(other, app, a, rounds).registrar.In?
  {
    if rounds == [] {
    } else {
      var shorter, r := rounds[..|rounds| - 1], rounds[|rounds| - 1];
      RegisteredInEveryRound(list, info, app, k, a, st, other, shorter);
      var before := Sender(st, shorter);
      RoundRegisters(list, info, app, k, a, before, Receiver(other, app, a, shorter), r);
      DeclaresThrough(before, r.ours);
      DeclaresOn(Through(before, r.ours), S.Opportunity(r.leaveAll));
    }
  }

  /** A request that was not there before leaves an applicant that will speak. */
  lemma RequestDeclares(start: S.State, run: seq<S.Input>, request: S.Input)
    requires request.NewRequested? || (request.JoinRequested? && !S.Wanted(run))
    ensures Declares(S.After(S.Run(start, run), request)) && !S.After(S.Run(start, run), request).applicant.QA?
  {
    S.DeclaresWhatIsWanted(start, run);
    S.NeverQuietByHearing(start, run);
  }

  /**
   From the request on: after any run of the sender's attribute in which it was not wanted, or before a New request in
   any run, and for any state of the receiver's that a run can reach, the receiver's registrar is In after the first
   plain round and after every other one, through all LeaveAlls of the sender.
   */
  lemma RegisteredFromRequestOn(list: AttributeList, info: seq<Attribute>, app: Application, k: int, a: Attribute,
                                start: S.State, run: seq<S.Input>, request: S.Input, there: S.State,
                                before: seq<S.Input>, rounds: seq<Round>)
    requires Described(list, info) && !a.DomainAttribute? && BelongsTo(KindOf(a), app)
    requires request.NewRequested? || (request.JoinRequested? && !S.Wanted(run))
    requires AllHappen(list, info, app, k, a, S.After(S.Run(start, run), request), rounds)
    requires rounds != [] && !rounds[|rounds| - 1].leaveAll
    ensures Receiver(S.Run(there, before), app, a, rounds).registrar.In?
  {
    RequestDeclares(start, run, request);
    S.TimerRunsExactlyInLv(there, before);
    S.DeclaresWhatIsWanted(there, before);
    RegisteredInEveryRound(list, info, app, k, a, S.After(S.Run(start, run), request), S.Run(there, before), rounds);
  }
}
