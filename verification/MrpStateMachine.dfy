/**
 The applicant and registrar state machines of one attribute (module_avb_srp/src/avb_mrp.c),
 and what they promise over whole runs.
 */
module MrpStateMachine {
  import opened MrpEvents
  import opened Wrappers

  datatype ApplicantState = Unused | Disabled | VO | VP | VN | AN | AA | QA | LA | AO | QO | AP | QP | LO

  datatype RegistrarState = In | Lv | Mt

  datatype Event =
    | Begin | New | Flush | Join | Leave
    | ReceiveNew | ReceiveJoinIn | ReceiveIn | ReceiveJoinMt | ReceiveMt | ReceiveLeave | ReceiveLeaveAll
    | Redeclare | Periodic | Tx | TxLeaveAll | TxLeaveAllFull | LeaveTimer

  /** The `active` count of a timer whose multiplier is 1. */
  type TimerActive = x: int | 0 <= x <= 1

  /** The bits of `pending_indications`. */
  datatype Indication = IndicateJoinNew | IndicateJoin | IndicateLeave

  /** The whole state of an attribute; `running` says whether its leave timer is active. */
  datatype State = State(applicant: ApplicantState, registrar: RegistrarState, running: bool,
                         pending: set<Indication>, parameter: int)

  // ---------- the tables ----------

  /**
   The next applicant state. A received JoinIn is three switches in a row in the source, which fall through;
   what this table gives is what is left after all three.
   */
  function ApplicantNext(s: ApplicantState, e: Event): ApplicantState {
    match e
    case Begin => VO
    case New => VN
    case Join => (match s case VO | LO => VP case LA => AA case AO => AP case QO => QP case _ => s)
    case Leave =>
      (match s case QP => QO case AP => AO case VP => VO case VN | AN | AA | QA => LA case _ => s)
    case ReceiveJoinIn =>
      (match s case VO | AO | QO => AO case VP | AP | QP => AP case AA | QA => AA case LO => VO case _ => s)
    case ReceiveIn | ReceiveJoinMt | ReceiveMt =>
      (match s case QA => AA case QO => AO case QP => AP case LO => VO case _ => s)
    case ReceiveLeave | ReceiveLeaveAll | Redeclare =>
      (match s case VO | AO | QO => LO case AN => VN case AA | QA | AP | QP => VP case _ => s)
    case Periodic => (match s case QA => AA case QP => AP case _ => s)
    case Tx =>
      (match s case VP => AA case VN => AN case AN | AA | AP => QA case LA | LO => VO case _ => s)
    case TxLeaveAll =>
      (match s case VO | LA | AO | QO => LO case VN => AN case AN | AA | AP | QP => QA case _ => s)
    case Flush | ReceiveNew | TxLeaveAllFull | LeaveTimer => s
  }

  function RegistrarNext(r: RegistrarState, e: Event): RegistrarState {
    match e
    case Begin | LeaveTimer | Flush => Mt
    case ReceiveNew | ReceiveJoinIn | ReceiveJoinMt => In
    case ReceiveLeave | ReceiveLeaveAll | TxLeaveAll | Redeclare => if r.In? then Lv else r
    case _ => r
  }

  /** The indication an event raises. */
  function Raised(r: RegistrarState, e: Event): Option<Indication> {
    match e
    case ReceiveNew => Some(IndicateJoinNew)
    case ReceiveJoinIn | ReceiveJoinMt => if r.Mt? then Some(IndicateJoin) else None
    case LeaveTimer | Flush => if r.Lv? then Some(IndicateLeave) else None
    case _ => None
  }

  /** Starting and stopping the leave timer. */
  function RunningNext(r: RegistrarState, running: bool, e: Event): bool {
    match e
    case ReceiveNew | ReceiveJoinIn | ReceiveJoinMt => running && !r.Lv?
    case ReceiveLeave | ReceiveLeaveAll | TxLeaveAll | Redeclare => running || r.In?
    case _ => running
  }

  function Next(s: State, e: Event, four: int): State {
    var raised := Raised(s.registrar, e);
    State(ApplicantNext(s.applicant, e), RegistrarNext(s.registrar, e),
          RunningNext(s.registrar, s.running, e),
          if raised.Some? then s.pending + {raised.value} else s.pending,
          if raised.Some? then four else s.parameter)
  }

  /** The attribute event that goes into a PDU; the registrar has already moved when it is chosen. */
  function Sent(s: State, e: Event): Option<ThreeEvent> {
    var registered := RegistrarNext(s.registrar, e).In?;
    if e.Tx? then
      match s.applicant
      case VN | AN => Some(NEW)
      case VP | AA | AP => Some(if registered then JOIN_IN else JOIN_MT)
      case LA => Some(LV)
      case LO => Some(if registered then IN else MT)
      case _ => None
    else if e.TxLeaveAll? then
      match s.applicant
      case VN | AN => Some(NEW)
      case AA | QA | AP | QP => Some(JOIN_MT)
      case LA => Some(LV)
      case VP => Some(MT)
      case _ => None
    else
      None
  }

  // ---------- the attribute ----------

  class MrpAttribute {
    var applicantState: ApplicantState
    var registrarState: RegistrarState
    var leaveTimerActive: TimerActive
    var pendingIndications: set<Indication>
    var fourVectorParameter: int

    function Current(): State
      reads this
    {
      State(applicantState, registrarState, leaveTimerActive > 0, pendingIndications, fourVectorParameter)
    }

    /** `mrp_get_attr`: a slot is taken and waits for `MadBegin`. */
    constructor ()
      ensures Current() == State(Disabled, In, false, {}, 0)
    {
      applicantState, registrarState := Disabled, In;
      leaveTimerActive, pendingIndications, fourVectorParameter := 0, {}, 0;
    }

    /** The registrar half of `mrp_update_state`. */
    method UpdateRegistrar(e: Event, four: int)
      modifies this`registrarState, this`leaveTimerActive, this`pendingIndications, this`fourVectorParameter
      ensures Current() == Next(old(Current()), e, four).(applicant := applicantState)
    {
      match e {
        case Begin =>
          registrarState := Mt;
        case ReceiveNew =>
          if registrarState == Lv { leaveTimerActive := 0; }
          registrarState := In;
          pendingIndications := pendingIndications + {IndicateJoinNew};
          fourVectorParameter := four;
        case ReceiveJoinIn | ReceiveJoinMt =>
          if registrarState == Lv { leaveTimerActive := 0; }
          if registrarState == Mt {
            pendingIndications := pendingIndications + {IndicateJoin};
            fourVectorParameter := four;
          }
          registrarState := In;
        case ReceiveLeave | ReceiveLeaveAll | TxLeaveAll | Redeclare =>
          if registrarState == In {
            leaveTimerActive := 1;
            registrarState := Lv;
          }
        case LeaveTimer | Flush =>
          if registrarState == Lv {
            pendingIndications := pendingIndications + {IndicateLeave};
            fourVectorParameter := four;
          }
          registrarState := Mt;
        case _ =>
      }
    }

    /** The switch `RECEIVE_JOININ` enters at, with the two it falls through to. */
    method ReceiveSwitches(e: Event)
      requires e in {ReceiveJoinIn, ReceiveIn, ReceiveJoinMt, ReceiveMt}
      modifies this`applicantState
      ensures applicantState == ApplicantNext(old(applicantState), e)
    {
      if e == ReceiveJoinIn {
        match applicantState {
          case VO => applicantState := AO;
          case VP => applicantState := AP;
          case AA => applicantState := QA;
          case AO => applicantState := QO;
          case AP => applicantState := QP;
          case _ =>
        }
      }
      if e == ReceiveJoinIn || e == ReceiveIn {
        if applicantState == AA { applicantState := QA; }
      }
      match applicantState {
        case QA => applicantState := AA;
        case QO => applicantState := AO;
        case QP => applicantState := AP;
        case LO => applicantState := VO;
        case _ =>
      }
    }

    /** `makeTxEvent`. */
    method MakeTxEvent(leaveAll: bool) returns (event: ThreeEvent)
      ensures match applicantState
              case VN | AN => event == NEW
              case LA => event == LV
              case LO => event == if registrarState.In? then IN else MT
              case VP => event == if leaveAll then (if registrarState.In? then IN else MT)
                                  else if registrarState.In? then JOIN_IN else JOIN_MT
              case AA | AP | QA => event == if registrarState.In? then JOIN_IN else JOIN_MT
              case QP => leaveAll ==> event == if registrarState.In? then JOIN_IN else JOIN_MT
              case _ => true
    {
      event := NEW;
      if applicantState == VP && leaveAll {
        event := if registrarState == In then IN else MT;
      } else if applicantState in {VP, AA, AP, QA, QP} {
        if leaveAll || applicantState != QP {
          event := if registrarState == In then JOIN_IN else JOIN_MT;
        }
      } else if applicantState == LA {
        event := LV;
      } else if applicantState == LO {
        event := if registrarState == In then IN else MT;
      }
    }

    /** The transmit branches of the applicant; what they hand to `doTx` is returned. */
    method Transmit(e: Event) returns (sent: Option<ThreeEvent>)
      requires e.Tx? || (e.TxLeaveAll? && !registrarState.In?)
      modifies this`applicantState
      ensures applicantState == ApplicantNext(old(applicantState), e)
      ensures sent == Sent(old(Current()), e)
    {
      sent := None;
      if e == Tx {
        match applicantState {
          case VP | VN | AN | AA | LA | AP | LO =>
            var vector := MakeTxEvent(false);
            sent := Some(vector);
          case _ =>
        }
        match applicantState {
          case VP => applicantState := AA;
          case VN => applicantState := AN;
          case AN | AA | AP => applicantState := QA;
          case LA | LO => applicantState := VO;
          case _ =>
        }
      } else {
        match applicantState {
          case VP | VN | AN | AA | LA | QA | AP | QP =>
            var vector := MakeTxEvent(true);
            sent := Some(vector);
          case _ =>
        }
        match applicantState {
          case VO | LA | AO | QO => applicantState := LO;
          case VN => applicantState := AN;
          case AN | AA | AP | QP => applicantState := QA;
          case _ =>
        }
      }
    }

    /** `mrp_update_state`: first the registrar, then the applicant. */
    method UpdateState(e: Event, four: int) returns (sent: Option<ThreeEvent>)
      modifies this
      ensures Current() == Next(old(Current()), e, four)
      ensures sent == Sent(old(Current()), e)
    {
      UpdateRegistrar(e, four);
      sent := None;
      match e {
        case Begin =>
          applicantState := VO;
        case New =>
          applicantState := VN;
        case Join =>
          match applicantState {
            case VO | LO => applicantState := VP;
            case LA => applicantState := AA;
            case AO => applicantState := AP;
            case QO => applicantState := QP;
            case _ =>
          }
        case Leave =>
          match applicantState {
            case QP => applicantState := QO;
            case AP => applicantState := AO;
            case VP => applicantState := VO;
            case VN | AN | AA | QA => applicantState := LA;
            case _ =>
          }
        case ReceiveJoinIn | ReceiveIn | ReceiveJoinMt | ReceiveMt =>
          ReceiveSwitches(e);
        case ReceiveLeave | ReceiveLeaveAll | Redeclare =>
          match applicantState {
            case VO | AO | QO => applicantState := LO;
            case AN => applicantState := VN;
            case AA | QA | AP | QP => applicantState := VP;
            case _ =>
          }
        case Periodic =>
          match applicantState {
            case QA => applicantState := AA;
            case QP => applicantState := AP;
            case _ =>
          }
        case Tx | TxLeaveAll =>
          sent := Transmit(e);
        case _ =>
      }
    }

    /** `mrp_mad_begin`. */
    method MadBegin()
      modifies this
      ensures Current() == After(old(Current()), Started)
    {
      leaveTimerActive := 0;
      var sent := UpdateState(Begin, 0);
    }

    /** `mrp_mad_join`. */
    method MadJoin(isNew: bool)
      modifies this
      ensures Current() == After(old(Current()), if isNew then NewRequested else JoinRequested)
    {
      var sent;
      if isNew {
        sent := UpdateState(New, 0);
      } else {
        sent := UpdateState(Join, 0);
      }
    }

    /** `mrp_mad_leave`. */
    method MadLeave()
      modifies this
      ensures Current() == After(old(Current()), LeaveRequested)
    {
      var sent := UpdateState(Leave, 0);
    }

    /** `mrp_in`: a received attribute event. */
    method MrpIn(three: ThreeEvent, four: int)
      modifies this
      ensures Current() == After(old(Current()), Received(three, four))
    {
      var sent;
      if three == NEW {
        sent := UpdateState(ReceiveNew, four);
      } else if three == JOIN_IN {
        sent := UpdateState(ReceiveJoinIn, four);
      } else if three == IN {
        sent := UpdateState(ReceiveIn, four);
      } else if three == JOIN_MT {
        sent := UpdateState(ReceiveJoinMt, four);
      } else if three == MT {
        sent := UpdateState(ReceiveMt, four);
      } else {
        sent := UpdateState(ReceiveLeave, four);
      }
    }

    /**
     The end of `mrp_periodic`: the pending indications are handed over and cleared, and then the leave timer
     is looked at; `late` says that its timeout has passed, which counts only while the timer is active.
     */
    method Poll(late: bool) returns (delivered: set<Indication>)
      modifies this
      ensures delivered == old(pendingIndications)
      ensures Current() == After(old(Current()), Polled(late))
    {
      delivered := pendingIndications;
      if pendingIndications != {} {
        pendingIndications, fourVectorParameter := {}, 0;
      }
      var expired := false;
      if leaveTimerActive != 0 {
        if late { leaveTimerActive := leaveTimerActive - 1; }
        expired := leaveTimerActive == 0;
      }
      if expired {
        var sent := UpdateState(LeaveTimer, 0);
      }
    }
  }

  // ---------- runs ----------

  /** Everything the program ever does to an attribute. */
  datatype Input =
    | Started
    | NewRequested | JoinRequested | LeaveRequested
    | Received(three: ThreeEvent, four: int)
    | LeaveAllHeard
    | PeriodicElapsed
    | Opportunity(leaveAll: bool)
    | Polled(late: bool)

  function EventOf(i: Input): Event
    requires !i.Polled?
  {
    match i
    case Started => Begin
    case NewRequested => New
    case JoinRequested => Join
    case LeaveRequested => Leave
    case Received(three, _) =>
      if three == NEW then ReceiveNew else if three == JOIN_IN then ReceiveJoinIn
      else if three == IN then ReceiveIn else if three == JOIN_MT then ReceiveJoinMt
      else if three == MT then ReceiveMt else ReceiveLeave
    case LeaveAllHeard => ReceiveLeaveAll
    case PeriodicElapsed => Periodic
    case Opportunity(leaveAll) => if leaveAll then TxLeaveAll else Tx
  }

  function After(s: State, i: Input): State {
    match i
    case Started => Next(s.(running := false), Begin, 0)
    case Polled(late) =>
      var delivered := if s.pending == {} then s else s.(pending := {}, parameter := 0);
      if s.running && late then Next(delivered.(running := false), LeaveTimer, 0) else delivered
    case Received(_, four) => Next(s, EventOf(i), four)
    case _ => Next(s, EventOf(i), 0)
  }

  /** The state after a run, which starts with `mrp_mad_begin` on any state whatever. */
  function Run(s: State, run: seq<Input>): State {
    if run == [] then After(s, Started) else After(Run(s, run[..|run| - 1]), run[|run| - 1])
  }

  /** The applicant holds a declaration. */
  predicate Declaring(s: ApplicantState) {
    s in {VP, VN, AN, AA, QA, AP, QP}
  }

  /** Whether the latest local request asked to declare. */
  predicate Wanted(run: seq<Input>) {
    if run == [] then false
    else
      var last := run[|run| - 1];
      if last.NewRequested? || last.JoinRequested? then true
      else if last.LeaveRequested? || last.Started? then false
      else Wanted(run[..|run| - 1])
  }

  lemma DeclaringStep(s: State, i: Input)
    requires !s.applicant.Unused? && !s.applicant.Disabled?
    ensures Declaring(After(s, i).applicant) <==>
            i.NewRequested? || i.JoinRequested? || (Declaring(s.applicant) && !i.LeaveRequested? && !i.Started?)
    ensures !After(s, i).applicant.Unused? && !After(s, i).applicant.Disabled?
  {
  }

  /** In every run the applicant declares exactly when the latest local request was New or Join. */
  lemma {:induction false} DeclaresWhatIsWanted(s: State, run: seq<Input>)
    ensures Declaring(Run(s, run).applicant) <==> Wanted(run)
    ensures !Run(s, run).applicant.Unused? && !Run(s, run).applicant.Disabled?
  {
    if run == [] {
    } else {
      var shorter, last := run[..|run| - 1], run[|run| - 1];
      DeclaresWhatIsWanted(s, shorter);
      DeclaringStep(Run(s, shorter), last);
    }
  }

  lemma QuietStep(s: State, i: Input)
    requires !s.applicant.QO? && !s.applicant.QP?
    ensures !After(s, i).applicant.QO? && !After(s, i).applicant.QP?
    ensures i.Received? && i.three != NEW ==> !After(s, i).applicant.QA?
  {
  }

  /**
   Because a received JoinIn falls through to the JoinMt switch, no run ever reaches the quiet states of a
   passive or observing applicant, and a JoinIn heard makes a quiet active one anxious again: hearing others
   declare never silences this one.
   */
  lemma {:induction false} NeverQuietByHearing(s: State, run: seq<Input>)
    ensures !Run(s, run).applicant.QO? && !Run(s, run).applicant.QP?
    ensures |run| > 0 && run[|run| - 1].Received? && run[|run| - 1].three != NEW ==> !Run(s, run).applicant.QA?
  {
    if run == [] {
    } else {
      var shorter, last := run[..|run| - 1], run[|run| - 1];
      NeverQuietByHearing(s, shorter);
      QuietStep(Run(s, shorter), last);
    }
  }

  // ---------- what is transmitted ----------

  function OwedAfter(owed: nat, i: Input): nat {
    if i.NewRequested? then 2
    else if i.LeaveRequested? || i.Started? then 0
    else if (i.LeaveAllHeard? || (i.Received? && i.three == LV)) && owed == 1 then 2
    else if i.Opportunity? && owed > 0 then owed - 1
    else owed
  }

  /** How many New messages a run leaves owed: a count over the run alone. */
  function NewsOwed(run: seq<Input>): nat {
    if run == [] then 0 else OwedAfter(NewsOwed(run[..|run| - 1]), run[|run| - 1])
  }

  function NewsLeft(a: ApplicantState): nat {
    match a case VN => 2 case AN => 1 case _ => 0
  }

  lemma NewsStep(s: State, i: Input)
    ensures NewsLeft(After(s, i).applicant) == OwedAfter(NewsLeft(s.applicant), i)
  {
  }

  lemma {:induction false} NewsOwedByState(s: State, run: seq<Input>)
    ensures NewsOwed(run) == NewsLeft(Run(s, run).applicant)
  {
    if run == [] {
    } else {
      NewsOwedByState(s, run[..|run| - 1]);
      NewsStep(Run(s, run[..|run| - 1]), run[|run| - 1]);
    }
  }

  /** What a run sends when an opportunity to transmit follows it. */
  function SentAfter(s: State, run: seq<Input>, leaveAll: bool): Option<ThreeEvent> {
    Sent(Run(s, run), if leaveAll then TxLeaveAll else Tx)
  }

  /** At any opportunity in any run, New is sent exactly when one is still owed. */
  lemma NewSentWhenOwed(s: State, run: seq<Input>, leaveAll: bool)
    ensures SentAfter(s, run, leaveAll) == Some(NEW) <==> NewsOwed(run) > 0
  {
    NewsOwedByState(s, run);
  }

  function Opportunities(run: seq<Input>): nat {
    if run == [] then 0
    else Opportunities(run[..|run| - 1]) + if run[|run| - 1].Opportunity? then 1 else 0
  }

  /** No new request, and nobody else takes the declaration back. */
  predicate Undisturbed(run: seq<Input>) {
    forall i :: 0 <= i < |run| ==>
      !run[i].NewRequested? && !run[i].LeaveRequested? && !run[i].Started? && !run[i].LeaveAllHeard?
      && !(run[i].Received? && run[i].three == LV)
  }

  /** After a New request, New goes out on exactly the next two opportunities. */
  lemma NewSentExactlyTwice(s: State, before: seq<Input>, run: seq<Input>, leaveAll: bool)
    requires Undisturbed(run)
    ensures SentAfter(s, before + [NewRequested] + run, leaveAll) == Some(NEW) <==> Opportunities(run) < 2
  {
    NewSentWhenOwed(s, before + [NewRequested] + run, leaveAll);
    OwedAfterNew(before, run);
  }

  lemma {:induction false} OwedAfterNew(before: seq<Input>, run: seq<Input>)
    requires Undisturbed(run)
    ensures NewsOwed(before + [NewRequested] + run) == if Opportunities(run) < 2 then 2 - Opportunities(run) else 0
  {
    var all := before + [NewRequested] + run;
    if run == [] {
    } else {
      assert all[..|all| - 1] == before + [NewRequested] + run[..|run| - 1];
      OwedAfterNew(before, run[..|run| - 1]);
    }
  }

  /** No further local request. */
  predicate LeftAlone(run: seq<Input>) {
    forall i :: 0 <= i < |run| ==> !run[i].NewRequested? && !run[i].JoinRequested? && !run[i].Started?
  }

  lemma LeavingStep(s: State, i: Input)
    requires !Declaring(s.applicant) && !s.applicant.Unused? && !s.applicant.Disabled?
    requires !i.NewRequested? && !i.JoinRequested? && !i.Started?
    ensures After(s, i).applicant.LA? <==> s.applicant.LA? && !i.Opportunity?
    ensures !Declaring(After(s, i).applicant)
    ensures !After(s, i).applicant.Unused? && !After(s, i).applicant.Disabled?
  {
  }

  /** After a Leave request in an active state the applicant leaves until it has had one opportunity. */
  lemma {:induction false} LeavingUntilHeard(s: State, before: seq<Input>, run: seq<Input>)
    requires Run(s, before).applicant in {VN, AN, AA, QA} && LeftAlone(run)
    ensures var a := Run(s, before + [LeaveRequested] + run).applicant;
            (a.LA? <==> Opportunities(run) == 0) && !Declaring(a) && !a.Unused? && !a.Disabled?
  {
    var all := before + [LeaveRequested] + run;
    if run == [] {
      assert all[..|all| - 1] == before;
      LeaveStep(Run(s, before));
    } else {
      var shorter, last := run[..|run| - 1], run[|run| - 1];
      assert all[..|all| - 1] == before + [LeaveRequested] + shorter;
      LeavingUntilHeard(s, before, shorter);
      LeavingStep(Run(s, before + [LeaveRequested] + shorter), last);
    }
  }

  lemma LeaveStep(s: State)
    ensures s.applicant in {VN, AN, AA, QA} <==> After(s, LeaveRequested).applicant.LA? && !s.applicant.LA?
  {
  }

  /** Exactly one Lv follows: at the first opportunity, and no Join or New at any later one. */
  lemma LvSentExactlyOnce(s: State, before: seq<Input>, run: seq<Input>, leaveAll: bool)
    requires Run(s, before).applicant in {VN, AN, AA, QA} && LeftAlone(run)
    ensures SentAfter(s, before + [LeaveRequested] + run, leaveAll) == Some(LV) <==> Opportunities(run) == 0
    ensures SentAfter(s, before + [LeaveRequested] + run, leaveAll) !in {Some(NEW), Some(JOIN_IN), Some(JOIN_MT)}
  {
    LeavingUntilHeard(s, before, run);
  }

  /** The registrar moves before the event is chosen, so a leave-all round never claims a registration. */
  lemma LeaveAllNeverSaysIn(s: State)
    ensures Sent(s, TxLeaveAll) !in {Some(IN), Some(JOIN_IN)}
    ensures s.applicant.VP? ==> Sent(s, TxLeaveAll) == Some(MT) && Next(s, TxLeaveAll, 0).applicant.VP?
  {
  }

  // ---------- from one station to another ----------

  /** What an applicant sends while it declares registers with whoever hears it, on any plain opportunity. */
  lemma DeclarationIsHeard(s: State, run: seq<Input>, other: State, four: int)
    requires Wanted(run)
    ensures SentAfter(s, run, false).None? <==> Run(s, run).applicant.QA?
    ensures var sent := SentAfter(s, run, false);
            sent.Some? ==> sent.value in {NEW, JOIN_IN, JOIN_MT}
                           && After(other, Received(sent.value, four)).registrar.In?
  {
    DeclaresWhatIsWanted(s, run);
    NeverQuietByHearing(s, run);
  }

  /** What is sent while nothing is declared never registers with anyone. */
  lemma SilenceIsNotHeard(s: State, run: seq<Input>, leaveAll: bool, other: State, four: int)
    requires !Wanted(run) && !other.registrar.In?
    ensures var sent := SentAfter(s, run, leaveAll);
            sent.Some? ==> After(other, Received(sent.value, four)).registrar == other.registrar
  {
    DeclaresWhatIsWanted(s, run);
  }

  // ---------- the registrar ----------

  /** What the inputs of a run have raised, in order, since `mrp_mad_begin`. */
  function RaisedBy(s: State, i: Input): Option<Indication> {
    match i
    case Polled(late) => if s.running && late then Raised(s.registrar, LeaveTimer) else None
    case _ => Raised(s.registrar, EventOf(i))
  }

  function AllRaised(s: State, run: seq<Input>): seq<Indication> {
    if run == [] then []
    else
      var raised := RaisedBy(Run(s, run[..|run| - 1]), run[|run| - 1]);
      Append(AllRaised(s, run[..|run| - 1]), raised)
  }

  function Append<T>(r: seq<T>, x: Option<T>): seq<T> {
    if x.Some? then r + [x.value] else r
  }

  /** The leave timer runs exactly in state LV, in every run. */
  lemma {:induction false} TimerRunsExactlyInLv(s: State, run: seq<Input>)
    ensures Run(s, run).running <==> Run(s, run).registrar.Lv?
  {
    if run == [] {
    } else {
      TimerRunsExactlyInLv(s, run[..|run| - 1]);
      TimerStep(Run(s, run[..|run| - 1]), run[|run| - 1]);
    }
  }

  lemma TimerStep(s: State, i: Input)
    requires s.running <==> s.registrar.Lv?
    ensures After(s, i).running <==> After(s, i).registrar.Lv?
  {
  }

  /** Leaves are separated by a join of either kind, plain joins by a leave. */
  predicate Alternates(r: seq<Indication>) {
    && (forall i, j :: 0 <= i < j < |r| && r[i].IndicateLeave? && r[j].IndicateLeave? ==>
          exists k :: i < k < j && !r[k].IndicateLeave?)
    && (forall i, j :: 0 <= i < j < |r| && r[i].IndicateJoin? && r[j].IndicateJoin? ==>
          exists k :: i < k < j && r[k].IndicateLeave?)
    && (|r| > 0 ==> !r[0].IndicateLeave?)
  }

  /** Nothing stands that has been raised: the last indication, if any, was a Leave. */
  predicate Emptied(r: seq<Indication>) {
    |r| > 0 ==> r[|r| - 1].IndicateLeave?
  }

  lemma AlternatesExtend(r: seq<Indication>, x: Indication)
    requires Alternates(r)
    requires x.IndicateLeave? ==> !Emptied(r)
    requires x.IndicateJoin? ==> Emptied(r)
    ensures Alternates(r + [x])
  {
    var t := r + [x];
    forall i, j | 0 <= i < j < |t| && t[i].IndicateLeave? && t[j].IndicateLeave?
      ensures exists k :: i < k < j && !t[k].IndicateLeave?
    {
      if j < |r| {
        var k :| i < k < j && !r[k].IndicateLeave?;
        assert !t[k].IndicateLeave?;
      } else {
        assert !t[|r| - 1].IndicateLeave?;
      }
    }
    forall i, j | 0 <= i < j < |t| && t[i].IndicateJoin? && t[j].IndicateJoin?
      ensures exists k :: i < k < j && t[k].IndicateLeave?
    {
      if j < |r| {
        var k :| i < k < j && r[k].IndicateLeave?;
        assert t[k].IndicateLeave?;
      } else {
        assert t[|r| - 1].IndicateLeave?;
      }
    }
  }

  predicate NotRestarted(run: seq<Input>) {
    forall i :: 0 <= i < |run| ==> !run[i].Started?
  }

  lemma RegistrarStep(s: State, i: Input)
    requires !i.Started? && (s.running <==> s.registrar.Lv?)
    ensures var raised := RaisedBy(s, i);
            match raised
            case Some(IndicateJoinNew) => After(s, i).registrar.In?
            case Some(IndicateJoin) => s.registrar.Mt? && After(s, i).registrar.In?
            case Some(IndicateLeave) => s.registrar.Lv? && After(s, i).registrar.Mt?
            case None => s.registrar.Mt? <==> After(s, i).registrar.Mt?
  {
  }

  lemma IndicationStep(s: State, i: Input, r: seq<Indication>)
    requires !i.Started? && (s.running <==> s.registrar.Lv?)
    requires Alternates(r) && (s.registrar.Mt? <==> Emptied(r))
    ensures Alternates(Append(r, RaisedBy(s, i)))
    ensures After(s, i).registrar.Mt? <==> Emptied(Append(r, RaisedBy(s, i)))
  {
    RegistrarStep(s, i);
    var raised := RaisedBy(s, i);
    if raised.Some? {
      AlternatesExtend(r, raised.value);
    }
  }

  /** The registrar is empty exactly when the last thing it raised was a Leave, or it raised nothing. */
  lemma {:induction false} IndicationsAlternate(s: State, run: seq<Input>)
    requires NotRestarted(run)
    ensures Alternates(AllRaised(s, run))
    ensures Run(s, run).registrar.Mt? <==> Emptied(AllRaised(s, run))
  {
    if run == [] {
    } else {
      var shorter, last := run[..|run| - 1], run[|run| - 1];
      IndicationsAlternate(s, shorter);
      TimerRunsExactlyInLv(s, shorter);
      IndicationStep(Run(s, shorter), last, AllRaised(s, shorter));
    }
  }

  lemma PendingStep(s: State, i: Input)
    ensures var raised := RaisedBy(s, i);
            After(s, i).pending == (if i.Polled? then {} else s.pending)
                                   + (if raised.Some? then {raised.value} else {})
  {
  }

  predicate Unpolled(run: seq<Input>) {
    forall i :: 0 <= i < |run| ==> !run[i].Polled?
  }

  lemma UnpolledSnoc(run: seq<Input>, last: Input)
    ensures Unpolled(run + [last]) <==> Unpolled(run) && !last.Polled?
  {
    var all := run + [last];
    assert all[|run|] == last && forall i :: 0 <= i < |run| ==> all[i] == run[i];
  }

  /** Input `i` of the run raises the indication, and no later one hands it over. */
  predicate RaisedAt(s: State, run: seq<Input>, i: int, x: Indication) {
    0 <= i < |run| && RaisedBy(Run(s, run[..i]), run[i]) == Some(x) && Unpolled(run[i + 1..])
  }

  lemma RaisedBefore(s: State, shorter: seq<Input>, last: Input, i: int, x: Indication)
    requires i < |shorter| && !last.Polled?
    ensures RaisedAt(s, shorter + [last], i, x) <==> RaisedAt(s, shorter, i, x)
  {
    if 0 <= i {
      var run := shorter + [last];
      assert run[..i] == shorter[..i] && run[i + 1..] == shorter[i + 1..] + [last];
      UnpolledSnoc(shorter[i + 1..], last);
    }
  }

  lemma RaisedLast(s: State, shorter: seq<Input>, last: Input, x: Indication)
    ensures RaisedAt(s, shorter + [last], |shorter|, x) <==> RaisedBy(Run(s, shorter), last) == Some(x)
    ensures last.Polled? ==> forall i :: i < |shorter| ==> !RaisedAt(s, shorter + [last], i, x)
  {
    var run := shorter + [last];
    assert run[..|shorter|] == shorter;
    forall i | i < |shorter| && last.Polled? ensures !RaisedAt(s, run, i, x) {
      if 0 <= i {
        assert run[i + 1..][|shorter| - i - 1] == last;
      }
    }
  }

  /** What is pending after a run, as the run alone tells it. */
  ghost predicate Pends(s: State, run: seq<Input>, x: Indication) {
    (exists i :: RaisedAt(s, run, i, x)) || (x in s.pending && Unpolled(run))
  }

  lemma PendsStep(s: State, shorter: seq<Input>, last: Input, x: Indication)
    ensures Pends(s, shorter + [last], x)
            <==> RaisedBy(Run(s, shorter), last) == Some(x) || (!last.Polled? && Pends(s, shorter, x))
  {
    var run := shorter + [last];
    RaisedLast(s, shorter, last, x);
    assert run[|shorter|] == last;
    if !last.Polled? {
      forall i | i < |shorter| ensures RaisedAt(s, run, i, x) <==> RaisedAt(s, shorter, i, x) {
        RaisedBefore(s, shorter, last, i, x);
      }
      UnpolledSnoc(shorter, last);
    }
  }

  /**
   In every run what is pending, and so what the next poll hands over, is exactly what has been raised since the poll
   before: no indication is lost, and none is handed over twice.
   */
  lemma {:induction false} PendingIsWhatWasRaised(s: State, run: seq<Input>, x: Indication)
    ensures x in Run(s, run).pending <==> Pends(s, run, x)
  {
    if run == [] {
    } else {
      var shorter, last := run[..|run| - 1], run[|run| - 1];
      PendingIsWhatWasRaised(s, shorter, x);
      PendsStep(s, shorter, last, x);
      PendingStep(Run(s, shorter), last);
      assert run == shorter + [last];
    }
  }
}
