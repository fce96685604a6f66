# A verified model of the AVB endpoint: stream reservation, audio transport, time

This project models the three hardest parts of an Ethernet AVB endpoint and proves what they promise.

**Stream reservation (MRP, MSRP, MVRP).** `module_avb_srp` keeps one applicant and one registrar state machine for
each attribute, and packs what the applicants declare into PDUs that it edits in place: a declaration is merged into a
message that is already in the send buffer by moving the rest of the buffer up by one byte. `MrpTransmitter` is that
buffer, byte by byte, and `MrpViews` what its bytes are in terms of messages; `MrpReceiver` is the parser; `MrpPdu`
and `MrpEvents` say what the bytes mean; `MrpDeclarations` says what is declared and what is registered, so that the
two ends can be compared. `MrpStateMachine` has the state machines and their runs, `MrpSpeech` what they say at every
opportunity, as a count over the run alone, and `MrpTimers` what drives them. `MrpAttributeList` is the linked list
they hang on, with the rearrangement that `sort_attrs` makes of its links. `MrpStations` puts two stations together:
what the attributes of one say, the frame it goes out in, and what is registered at the other. `MrpRounds` follows
them over many frames.

**Audio transport.** Samples are pushed into an input FIFO, which cuts them into packets of a SYT interval
(`InputFifo`). The talker cuts these into wire packets of another size, interleaves the channels, and labels the
packets with block counts and timestamps (`Avtp`, `Talker`, `TalkerRuns`, and `TalkerPacing` for when they go out);
`TalkerSupply` runs it together with the FIFOs it reads, and `TalkerTimestamps` says which of the samples pushed a
timestamp is for. The listener infers channels and rate from the block counts, takes the channels apart (`Listener`;
`ListenerLock` for what it infers from any packets), and pushes them into output FIFOs, ring buffers that zero, lock
and record playout times (`OutputFifo`, `OutputFifoRuns`). `AudioPath` is what a listener makes of a talker's packets,
with a failing run in `SkippedAttempts`; `AudioDelivery` has the whole runs, from the configuration of a stream over
its lock, its silence and the adjustments of the media clock to the samples played, and `AudioTimestamps` those of the
timestamps.

**Time (gPTP, IEEE 802.1AS).** `GptpTime` is the fixed-point and wrapping arithmetic of the conversions between local
and PTP time, `GptpSync` the rate and delay averages with the sync lock, `GptpRate` and `GptpEstimates` what these mean
in real time, and `GptpMessages` which sync and delay messages they are measured from. `GptpBmca` is the choice of a
grandmaster, with the roles of one endpoint, a network of endpoints, and failover; `GptpLiveness` says when a slave
stays one, and `GptpBeats` how often everything is sent.

Code that updates things in place is written as classes and methods over arrays and fields. Each method is proved
against a function on values, and the lemmas are about those functions. Pointers are indices. `Bytes` and `Seqs` hold
the integer widths and the facts about sequences that everything else uses; `Wrappers` has the option type.

## What the code does that one would not expect

- A received JoinIn is three `switch` statements that fall through, so it never leaves an applicant quiet. The table
  of IEEE 802.1Q, section 10.7, takes AA to QA, AO to QO and AP to QP; here these land in AA, AO and AP, and the quiet
  observer states cannot be reached at all (`NeverQuietByHearing`).
- One pass of `sort_attrs` need not sort: 2, 9, 1 becomes 2, 1, 9 (`OnePassMayNotSort`). It sorts exactly when the
  nodes it leaves in place are in order (`SortedExactlyWhenKeptIs`).
- The test for space in `media_input_fifo_push_sample` never rejects a sample (`NeverRejects`), so a packet too many
  makes the whole queue vanish, and from then on at least as many packets as there are slots are missing
  (`OverflowIsForGood`). Any FIFO that nobody reads overflows with the last sample that fills its slots
  (`FloodOverflows`).
- At 8 and 16 kHz no talker ever sends: an input FIFO of any size has no room for complete packets with samples for
  half its words, which is what the first packet waits for (`LowRatesNeverStart`, and exactly in `StartsExactlyWhen`).
- `ptp_timestamp_offset64` is right exactly when nanoseconds plus offset is not negative (`OffsetRightExactlyWhen`,
  `OffsetWrong`).
- The talker carries its sample fractions on at attempts that send nothing, so a listener takes a 44.1 or 88.2 kHz
  stream for one at 48 or 96 kHz when all of the sixteen packets it measures have a sample more, and only then
  (`ListenerFindsRate`). `TakenFor48kHz` is a run in which that happens.
- A listener plays nothing but zeros from the configuration of a stream, or from a reset, until the media clock
  adjusts the FIFO (`SilentUntilAdjusted`). What was pushed before, apart from what the FIFO holds then, is never
  heard.
- With both adjustments 0 an interval comes back from PTP time exactly when its image fits in 32 bits
  (`RoundTripExact`); three seconds do not (`ImageMustFit`).
- In a leave-all round a passive applicant that wants to declare says Mt, which registers with nobody
  (`WantedSpeaks`).
- A listener attributes a timestamp through the rate it inferred. Of the nine rates exactly 176.4 and 192 kHz are
  inferred as 0 (`ListenerFindsRate`), which leaves `syt_interval` unset in `avb_1722_listener_process_packet`. The
  sample marked is then a stray one, a parameter of the model that may have any value. The samples are not touched by
  it: what is said of them (`AudioPathIsIdentity`, `PushedIsPlayed`) holds at all nine rates.
- `mrp_periodic` gives every attribute a LeaveAll before it sends a leave-all round (`LeaveAllRoundsAreLed`), so in that
  round a declaration says Mt, not Join, unless a New is due or a JoinIn was heard in between
  (`OwnLeaveAllSaysNoJoin`).
- A declaration with a VLAN or frame size of 32768 or more never shares a vector: the bytes are compared as signed
  numbers (`MergesExactlyWhen`).
- When a delay request goes out between the response to the one before and its follow-up, the delay is measured from
  the wrong departure (`TimesBelongTogetherExactlyWhen`); `OverlappingRequest` is a run that gives 21 seconds. A sync
  and a follow-up of different masters are taken together when the master port changes between them
  (`OneMasterExactlyWhen`).
- A declared attribute that rests in QA says nothing in a plain round and is registered all the same: it got there by
  speaking (`RegisteredInEveryRound`).

## Model

| member | source | states |
|---|---|---|
| MrpEvents.EncodeThreePacked | module_avb_srp/src/avb_mrp.c:284-290 | the loop adds the event at its place among three: weight 36, 6 or 1 |
| MrpEvents.EncodeFourPacked | module_avb_srp/src/avb_mrp.c:322-328 | the loop adds the parameter at its place among four: weight 64, 16, 4 or 1 |
| MrpEvents.DecodeThreePacked | module_avb_srp/src/avb_mrp.c:1143-1148 | the loop reads base-6 digit `i` of the byte |
| MrpEvents.DecodeFourPacked | module_avb_srp/src/avb_mrp.c:1150-1155 | the loop reads base-4 digit `i` of the byte |
| MrpEvents.Pack3Append | module_avb_srp/src/avb_mrp.c:292-319 | opening a byte for every third event and adding the event into it packs the longer sequence of events |
| MrpEvents.Pack4Append | module_avb_srp/src/avb_mrp.c:330-358 | the same for four parameters to a byte |
| MrpEvents.UnpackThree | module_avb_srp/src/avb_mrp.c:1143-1148 | unpacking event `j` of any packed vector gives back event `j` |
| MrpEvents.UnpackFour | module_avb_srp/src/avb_mrp.c:1150-1155 | unpacking parameter `j` of any packed vector gives back parameter `j` |
| MrpPdu.RoundTrip | module_avb_srp/src/avb_mrp.c:1160-1225 | MRPDU round trip: from any encoded sequence of messages the parser hears exactly their leave-all flags, first values and events, in order, whatever follows the end mark |
| MrpPdu.StrippingPreservesMeaning | module_avb_srp/src/avb_mrp.c:96-112 | what is heard in the stripped PDU equals what a parser that knows the length fields hears in the PDU before |
| MrpDeclarations.TalkerLayout | module_avb_srp/src/avb_srp.c:432-460 | the first value of a talker holds stream id, destination, VLAN, frame size, one frame an interval, priority 3 with rank 1, and the latency, each at its place |
| MrpDeclarations.MergesExactlyWhen | module_avb_srp/src/avb_srp.c:345-398 | a declaration is merged into a vector exactly when the value it would become there reads back as that attribute in all its fields, and the signed comparison can see it |
| MrpDeclarations.MergedReading | module_avb_srp/src/avb_srp.c:400-470 | the value that a merge or a new vector gives to a declaration reads as exactly the attribute that was declared: for a talker stream id, destination, VLAN and frame size |
| MrpDeclarations.DeclareRegistered | module_avb_srp/src/avb_mrp.c:411-432 | one declaration, merged or in a message of its own, adds exactly one registration to what a PDU says, by identifier and as a whole attribute |
| MrpDeclarations.DeclaredIsRegistered | module_avb_srp/src/avb_mrp.c:411-432 | a PDU built from any declarations in any order registers each exactly once, with all its fields, and nothing else |
| MrpViews.DeclareAt | module_avb_srp/src/avb_mrp.c:416-427 | a declaration adds its value to the first message that takes it, and leaves the others as they are |
| MrpViews.DeclareNew | module_avb_srp/src/avb_mrp.c:429-431 | only if no message takes it the PDU gets one more |
| MrpTransmitter.PduBuilder.OpenByte | module_avb_srp/src/avb_mrp.c:307-310 | the buffer becomes what was before the position, a zero, and what was behind |
| MrpTransmitter.PduBuilder.GrowList | module_avb_srp/src/avb_mrp.c:305-316 | opening a vector byte raises the list length of the message and moves its end mark along, and nothing else changes |
| MrpTransmitter.PduBuilder.EncodeThreePackedEvent | module_avb_srp/src/avb_mrp.c:292-319 | only the three-packed vector of the one message grows by the event; every byte before and behind stays what it was |
| MrpTransmitter.PduBuilder.EncodeFourPackedEvent | module_avb_srp/src/avb_mrp.c:330-358 | the same for the four-packed vector |
| MrpTransmitter.PduBuilder.StoreFirstValue | module_avb_srp/src/avb_srp.c:432-460 | the first value is written when the vector is empty, and only then |
| MrpTransmitter.PduBuilder.CheckTalkerMerge | module_avb_srp/src/avb_srp.c:345-398 | true exactly when address, stream id, VLAN and frame size continue the vector, which is when its next value would read back as the declaration (`MergesExactlyWhen`) |
| MrpTransmitter.PduBuilder.CheckListenerMerge | module_avb_srp/src/avb_srp.c:216-241 | true exactly when the stream id is the first value plus the number of values |
| MrpTransmitter.PduBuilder.MergeMessage | module_avb_srp/src/avb_mrp.c:387-409 | a message of the type that takes the declaration gets exactly that value; otherwise no byte changes |
| MrpTransmitter.PduBuilder.CreateEmptyMsg | module_avb_srp/src/avb_mrp.c:363-384 | the PDU gets one more, empty message at its end |
| MrpTransmitter.PduBuilder.NextMessage | module_avb_srp/src/avb_mrp.c:426 | the list length leads to the next message |
| MrpTransmitter.PduBuilder.MergeIntoFirst | module_avb_srp/src/avb_mrp.c:416-427 | the declaration goes into the first message that takes it; if none does, nothing changes |
| MrpTransmitter.PduBuilder.DoTx | module_avb_srp/src/avb_mrp.c:411-432 | the messages in the buffer become those with the declaration merged in or appended, and the buffer still holds them byte for byte |
| MrpTransmitter.PduBuilder.DeleteTwo | module_avb_srp/src/avb_mrp.c:105 | two bytes are deleted; the last two before the end stay behind |
| MrpTransmitter.PduBuilder.RemoveLengths | module_avb_srp/src/avb_mrp.c:99-110 | exactly the length fields of all messages are deleted, and the two bytes a message left over at the old end are zero |
| MrpTransmitter.PduBuilder.StripLengths | module_avb_srp/src/avb_mrp.c:96-112 | only PDUs other than SRP's are stripped |
| MrpTransmitter.PduBuilder.ForceSend | module_avb_srp/src/avb_mrp.c:117-138 | nothing is sent for an empty PDU; else a frame of at least 64 bytes with the messages and zeros behind them; the PDU is empty afterwards |
| MrpTransmitter.PduBuilder.TransmitOpportunity | module_avb_srp/src/avb_mrp.c:982-1012 | leave-all messages if they are due, then all declarations, then the frame that carries them |
| MrpReceiver.ProcessVector | module_avb_srp/src/avb_mrp.c:1198-1219 | the loop over the values says what the vector holds |
| MrpReceiver.ProcessVectors | module_avb_srp/src/avb_mrp.c:1178-1221 | the inner loop says what the recursive parser says of a message, and gives up where it does |
| MrpReceiver.ProcessPacket | module_avb_srp/src/avb_mrp.c:1160-1225 | the nested loops say what the recursive parser says, for any bytes whatever |
| MrpReceiver.FrameHeard | module_avb_srp/src/avb_mrp.c:117-138 | a transmitted frame, received with anything behind it, is heard as its messages meant it |
| MrpReceiver.LeaveAllsSaySo | module_avb_srp/src/avb_mrp.c:983-989 | a leave-all round is heard as one LeaveAll for each attribute type of the application |
| MrpReceiver.TransmissionRegistered | module_avb_srp/src/avb_mrp.c:1160-1225 | end to end: what one transmit opportunity declares is what every receiver of the frame registers, each once |
| MrpReceiver.DeliveredAsDeclared | module_avb_srp/src/avb_mrp.c:1089-1124 | each attribute of a receiver is given each event exactly as often as it was declared for that attribute |
| MrpReceiver.CountExact | module_avb_srp/src/avb_srp.c:464 | the eight-bit count says the number of values exactly when there are fewer than 256 |
| MrpStateMachine.MrpAttribute.UpdateState | module_avb_srp/src/avb_mrp.c:437-697 | the registrar, then the applicant, as the tables say; what is handed to `doTx` is chosen after the registrar has moved |
| MrpStateMachine.MrpAttribute.ReceiveSwitches | module_avb_srp/src/avb_mrp.c:535-580 | the three switches of a received JoinIn in a row, entered at the one that fits |
| MrpStateMachine.MrpAttribute.MakeTxEvent | module_avb_srp/src/avb_mrp.c:152-216 | the attribute event for each applicant and registrar state |
| MrpStateMachine.MrpAttribute.MadBegin | module_avb_srp/src/avb_mrp.c:710-716 | the leave timer is stopped and both state machines begin |
| MrpStateMachine.MrpAttribute.MadJoin | module_avb_srp/src/avb_mrp.c:718-725 | a New or a Join request is one step of a run |
| MrpStateMachine.MrpAttribute.MadLeave | module_avb_srp/src/avb_mrp.c:727-730 | so is a Leave request |
| MrpStateMachine.MrpAttribute.MrpIn | module_avb_srp/src/avb_mrp.c:1049-1072 | each received attribute event is the step of a run that goes with it |
| MrpStateMachine.MrpAttribute.Poll | module_avb_srp/src/avb_mrp.c:1018-1045 | pending indications are delivered and cleared, then an expired leave timer takes its event |
| MrpStateMachine.DeclaresWhatIsWanted | module_avb_srp/src/avb_mrp.c:487-534 | in every run the applicant declares exactly when the latest local request was New or Join |
| MrpStateMachine.NeverQuietByHearing | module_avb_srp/src/avb_mrp.c:535-580 | no run reaches QO or QP, and no event heard but New leaves the applicant in QA |
| MrpStateMachine.NewSentWhenOwed | module_avb_srp/src/avb_mrp.c:617-655 | at any opportunity of any run New is sent exactly when the history of requests and leaves still owes one |
| MrpStateMachine.NewSentExactlyTwice | module_avb_srp/src/avb_mrp.c:617-655 | undisturbed, New goes out on exactly the two opportunities behind the request |
| MrpStateMachine.LvSentExactlyOnce | module_avb_srp/src/avb_mrp.c:515-534 | a Leave from VN, AN, AA or QA sends Lv at the next opportunity and never again, and no Join or New |
| MrpStateMachine.LeaveAllNeverSaysIn | module_avb_srp/src/avb_mrp.c:656-693 | a leave-all round never claims a registration, and VP says Mt and stays |
| MrpStateMachine.DeclarationIsHeard | module_avb_srp/src/avb_mrp.c:152-216 | what is sent while a declaration is wanted registers with any station that hears it |
| MrpStateMachine.SilenceIsNotHeard | module_avb_srp/src/avb_mrp.c:152-216 | what is sent while none is wanted registers with no station |
| MrpStateMachine.TimerRunsExactlyInLv | module_avb_srp/src/avb_mrp.c:440-484 | in every run the leave timer runs exactly in state LV |
| MrpStateMachine.IndicationsAlternate | module_avb_srp/src/avb_mrp.c:440-484 | Leave indications are separated by a join of either kind, plain Joins by a Leave; the registrar is empty exactly when the last one was a Leave or there was none |
| MrpStateMachine.PendingIsWhatWasRaised | module_avb_srp/src/avb_mrp.c:1018-1038 | in every run what is pending, and so what the next poll hands over, is exactly what has been raised since the poll before |
| MrpSpeech.WantedSaysWhatIsDue | module_avb_srp/src/avb_mrp.c:486-693 | in every run from a request on, as long as it is not taken back, each opportunity says exactly what a count over the requests, messages and timers leaves due |
| MrpSpeech.JoinSentExactlyTwice | module_avb_srp/src/avb_mrp.c:617-655 | undisturbed, a Join request goes out on exactly the next two opportunities, and nothing on the later ones |
| MrpSpeech.PeriodicRepeatsOnce | module_avb_srp/src/avb_mrp.c:606-616 | each time the periodic timer elapses Join goes out exactly once more |
| MrpSpeech.UnwantedSaysItsDuty | module_avb_srp/src/avb_mrp.c:515-693 | in every run from a Leave request on, each opportunity says an Lv that is owed, an answer to a leave, once, with what is registered, or nothing |
| MrpSpeech.NeverRequestedSaysItsDuty | module_avb_srp/src/avb_mrp.c:486-693 | the same for an attribute that nothing was ever requested of |
| MrpSpeech.RegistrarFollowsMessages | module_avb_srp/src/avb_mrp.c:440-484 | in every run the registrar is In exactly if a join was heard behind the latest leave, leave-all and restart, and in Lv from the leave that loosened it to the next join or the end of the leave timer |
| MrpSpeech.LeaveIndicatedExactlyWhen | module_avb_srp/src/avb_mrp.c:472-479 | a Leave is indicated exactly when the leave timer runs out on a registration that was not renewed |
| MrpSpeech.ParameterIsOfLatest | module_avb_srp/src/avb_mrp.c:440-484 | in every run what is handed over with the indications is the parameter of the message that raised the latest |
| MrpTimers.MrpScheduler.Periodic | module_avb_srp/src/avb_mrp.c:956-1045 | the events that one call gives to each attribute, in order, and the leave-all that stays due until the join timer runs out |
| MrpTimers.LeaveAllRoundsAreLed | module_avb_srp/src/avb_mrp.c:966-1015 | in every run of a station each leave-all round is led by a LeaveAll with no opportunity in between |
| MrpTimers.OwnLeaveAllSaysNoJoin | module_avb_srp/src/avb_mrp.c:657-693 | in the leave-all rounds of its own station a declaration that nobody else was heard to share says New if one is due, otherwise Mt, and Join in the next two plain rounds |
| MrpAttributeList.RearrangedIsPermutation | module_avb_srp/src/avb_mrp.c:815-869 | sorting keeps exactly the nodes it found, for every comparison function, even one that is no order |
| MrpAttributeList.OrderedIsUnchanged | module_avb_srp/src/avb_mrp.c:824-842 | a list already in order is left as it is |
| MrpAttributeList.SortedExactlyWhenKeptIs | module_avb_srp/src/avb_mrp.c:844-867 | for a strict total order one pass sorts exactly when the nodes left in place are in order |
| MrpAttributeList.OnePassMayNotSort | module_avb_srp/src/avb_mrp.c:815-869 | 2, 9, 1 becomes 2, 1, 9 |
| MrpAttributeList.CompareIsOrder | module_avb_srp/src/avb_mrp.c:762-802 | `compare_attr` is a strict order, and total exactly when no two used slots share type and key |
| MrpAttributeList.CompareIsLexicographic | module_avb_srp/src/avb_mrp.c:762-802 | the cascade of tests is the lexicographic order of use, type, and key or address |
| MrpAttributeList.AttributeList.TakeOut | module_avb_srp/src/avb_mrp.c:824-842 | the links are left with a list of the nodes kept and a stack of those taken out |
| MrpAttributeList.AttributeList.PutBack | module_avb_srp/src/avb_mrp.c:846-867 | one node of the stack is linked in where the specification puts it |
| MrpAttributeList.AttributeList.SortAttrs | module_avb_srp/src/avb_mrp.c:815-869 | terminates and leaves the links an acyclic list of exactly the rearranged nodes |
| MrpAttributeList.AttributeList.GlobalEvent | module_avb_srp/src/avb_mrp.c:872-886 | every active attribute of the list that is meant takes exactly one step, the others none, and what they send is in list order |
| MrpAttributeList.AttributeList.AttributeTypeEvent | module_avb_srp/src/avb_mrp.c:888-898 | the same for one attribute type |
| MrpAttributeList.AttributeList.SortAndVisit | module_avb_srp/src/avb_mrp.c:976-993 | after sorting, an event still reaches each attribute once and no other |
| MrpStations.Opportunity | module_avb_srp/src/avb_mrp.c:982-993 | the attributes of an application are asked type by type, each takes its step once, and the frame carries what they say and nothing else |
| MrpStations.JoinTimerElapsed | module_avb_srp/src/avb_mrp.c:976-1016 | sorting, then a frame of SRP and one of MVRP, each with what the attributes say in the states before, in the order sorted |
| MrpStations.Receive | module_avb_srp/src/avb_mrp.c:1160-1225 | every attribute of the receiver has answered every indication of the frame that is for it, in order, and none that is not |
| MrpStations.HandedForExactly | module_avb_srp/src/avb_mrp.c:888-898 | handed over is exactly what active attributes of the list and of these types say |
| MrpStations.AnswerRegisters | module_avb_srp/src/avb_mrp.c:440-484 | unless an Lv is heard, a registrar is In after a frame exactly when an event was heard that registers, or it was In and no LeaveAll was heard |
| MrpStations.HeardInOrder | module_avb_srp/src/avb_mrp.c:1191-1215 | from a frame that was sent no LeaveAll is heard behind a value of its type, and there is one exactly in a leave-all round |
| MrpStations.FrameRegisters | module_avb_srp/src/avb_mrp.c:976-1225 | between two stations, through states, buffer, frame and parser: an attribute nobody takes back is registered at the receiver after one frame if and only if an attribute of the sender says New or Join of it, or it was registered and there was no LeaveAll |
| MrpStations.WantedSpeaks | module_avb_srp/src/avb_mrp.c:152-216 | in every run an attribute that is wanted says New or Join exactly unless it is quiet, or passive in a leave-all round |
| MrpStations.WantedIsRegistered | module_avb_srp/src/avb_mrp.c:976-1225 | from the request to the registration: after any run in which an attribute is wanted, and not quiet nor passive in a leave-all round, the next frame leaves the registrar of every receiver In, if no other attribute of the sender takes the same one back |
| MrpRounds.RegisteredInEveryRound | module_avb_srp/src/avb_mrp.c:976-1225 | over any number of rounds whose frames arrive, with anything in between that takes nothing back: the receiver's registrar is In after every plain round, and a sender that has become quiet is registered |
| MrpRounds.RegisteredFromRequestOn | module_avb_srp/src/avb_mrp.c:718-730 | from a New request in any run, or a Join request where nothing was wanted, and any state of the receiver's: its registrar is In after the first plain round and after every other one, through all leave-all rounds |
| InputFifo.MediaInputFifo.Enable | module_avb_audio/src/media_fifos/media_input_fifo.c:60-94 | an enabled FIFO holds an empty queue in the slots that fit its packets, with block count 0 |
| InputFifo.MediaInputFifo.PushSample | module_avb_audio/src/media_fifos/media_input_fifo.c:96-145 | a sample joins the packet being filled or completes it; the queue grows by it, or is lost when no slot is left; nothing queued is overwritten before that |
| InputFifo.MediaInputFifo.NeverRejects | module_avb_audio/src/media_fifos/media_input_fifo.c:110-115 | the test for space never rejects a sample |
| InputFifo.MediaInputFifo.FillLevel | module_avb_audio/src/media_fifos/media_input_fifo.c:147-161 | the loop terminates and counts the samples of the complete packets |
| InputFifo.MediaInputFifo.GetPacket | module_avb_audio/src/media_fifos/media_input_fifo.c:181-200 | time, block count and samples are those of the oldest packet |
| InputFifo.MediaInputFifo.Flush | module_avb_audio/src/media_fifos/media_input_fifo.c:170-179 | a flushed FIFO holds an empty queue again, with block count 0 |
| InputFifo.MediaInputFifo.ReleasePacket | module_avb_audio/src/media_fifos/media_input_fifo.c:202-215 | the oldest packet leaves the queue, and the reader is at the slot of the next one |
| InputFifo.CutSnoc | module_avb_audio/src/media_fifos/media_input_fifo.c:108-141 | one more sample joins the rest of the cut stream or completes its next packet |
| InputFifo.CutShape | module_avb_audio/src/media_fifos/media_input_fifo.c:133-141 | every packet has the SYT interval's samples, and block counts differ by that many |
| InputFifo.QueueIsTheStream | module_avb_audio/src/media_fifos/media_input_fifo.c:96-215 | what was read and what is queued are the pushed stream cut into groups, each with the time of its first sample, if and only if no packet was ever completed while all slots but one were queued |
| InputFifo.OverflowIsForGood | module_avb_audio/src/media_fifos/media_input_fifo.c:133-139 | after one packet too many, in every run that follows, at least as many packets are missing as there are slots |
| InputFifo.FloodOverflows | module_avb_audio/src/media_fifos/media_input_fifo.c:133-139 | for every number of slots and every packet size, that many packets pushed without a read overflow, and the FIFO is empty |
| Avtp.HeaderGen | module_avb_1722/src/avb_1722_talker_support.c:12-45 | the header bytes become those of the stamped header |
| Avtp.StampedReadsBack | module_avb_1722/src/avb_1722_talker_support.c:12-45 | a listener reads back the block count, valid flag, time and length stamped, and no other byte of the header has changed |
| Avtp.BufInit | module_avb_1722/src/avb_1722_talker_support_audio.c:61-81 | the static header is one a listener accepts |
| Avtp.WireRoundTrip | module_avb_1722/src/avb_1722_talker_support_audio.c:121-124 | the label is dropped and the low 24 bits of a sample come back, whatever its upper bits were |
| Avtp.CellInjective | module_avb_1722/src/avb_1722_talker_support_audio.c:270-281 | different samples or channels have different words |
| Talker.SampleCopyStrided | module_avb_1722/src/avb_1722_talker_support_audio.c:115-128 | one column of the payload holds the samples, and no other word changes |
| Talker.RatesConfigured | module_avb_1722/src/avb_1722_talker.xc:74-77 | for every rate a wire packet has at least one sample and never more than a FIFO packet |
| Talker.TakenAcross | module_avb_1722/src/avb_1722_talker_support_audio.c:256-273 | what straddles two FIFO packets is the end of one and the beginning of the next, and the rest is what is left |
| Talker.AudioTalker.MakePayload | module_avb_1722/src/avb_1722_talker_support_audio.c:243-283 | every channel's next `n` samples stand in its column, also over the end of a FIFO packet and with none left in it |
| Talker.AudioTalker.CreatePacket | module_avb_1722/src/avb_1722_talker_support_audio.c:133-302 | when a packet is made, what it holds, what its header says and what is left in the FIFOs; otherwise only the fractions advance |
| Talker.AudioTalker.SendPackets | module_avb_1722/src/avb_1722_talker.xc:214-232 | the same, with the time of the last packet kept |
| TalkerRuns.WireCarriesTheStream | module_avb_1722/src/avb_1722_talker_support_audio.c:243-283 | over any run the wire packets of a channel and what is left to send are what its FIFO supplied, in order |
| TalkerRuns.BlockCountsAreContinuous | module_avb_1722/src/avb_1722_talker_support_audio.c:233-254 | over any run each packet's block count is the one before plus that packet's samples, modulo 256 |
| TalkerRuns.TimestampAgreement | module_avb_1722/src/avb_1722_listener_support_audio.c:147-166 | of one packet of a talker in an aligned state: the sample the listener computes is the first of the FIFO packet whose time was sent, and those before it are the rest of the packet before; a packet without timestamp holds no such sample |
| TalkerTimestamps.AlignedInEveryRun | module_avb_audio/src/media_fifos/media_input_fifo.c:133-141 | in every run, with or without overflows, the block counts in all FIFOs are multiples of the SYT interval |
| TalkerTimestamps.AgreementInEveryRun | module_avb_1722/src/avb_1722_listener_support_audio.c:147-166 | in every run of a talker with its FIFOs from the start, without overflow, the next packet has the agreement: its timestamp is for the first sample of a FIFO packet and for the only one there, and without a timestamp there is none |
| TalkerTimestamps.TimestampsInEveryRun | module_avb_1722/src/avb_1722_talker_support_audio.c:233-299 | every packet of every such run has a timestamp if and only if one of its samples begins a FIFO packet in the stream that was pushed; the block count points at that sample, and the timestamp is the time at which that sample of the last channel was pushed |
| TalkerTimestamps.BeginsOnce | module_avb_1722/src/avb_1722_talker.xc:74-77 | no packet holds two samples that begin FIFO packets |
| TalkerSupply.RunAsSeen | module_avb_1722/src/avb_1722_talker_support_audio.c:133-302 | a run of a talker together with its bounded FIFOs, none of which overflows, is a proper run of the talker alone, with the same packets |
| TalkerSupply.FifoRuns | module_avb_audio/src/media_fifos/media_input_fifo.c:96-215 | each FIFO goes through a run of its own: the samples pushed on its channel, and a release whenever the talker uses a packet up |
| TalkerSupply.WireCarriesWhatIsPushed | module_avb_1722/src/avb_1722_talker_support_audio.c:243-283 | conservation over every run without overflow: what the wire packets carry, what is left in complete packets and what is in the packet being filled are the samples pushed, in order |
| TalkerSupply.StartsExactlyWhen | module_avb_1722/src/avb_1722_talker_support_audio.c:163-167 | some run sends a packet if and only if a FIFO can hold complete packets with samples for half its words; otherwise no run ever does |
| TalkerSupply.LowRatesNeverStart | module_avb_audio/src/media_fifos/media_input_fifo.c:60-94 | at 8 and 16 kHz no run sends a packet, whatever the size of the FIFOs |
| TalkerSupply.OtherRatesStart | module_avb_audio/src/media_fifos/media_input_fifo.h:15-18 | at every other rate some run does, with FIFOs of the sizes they are built with |
| TalkerPacing.PacketsArePaced | module_avb_1722/src/avb_1722_talker_support_audio.c:211-218 | over any run from the start packets are made at least a period apart on the wrapping clock, and numbered without a gap modulo 256 |
| TalkerPacing.SendsAsSoonAsAPeriodIsOver | module_avb_1722/src/avb_1722_talker_support_audio.c:163-218 | an attempt makes a packet if and only if the FIFOs supply it, one is being filled, and it is the first or a period is over |
| TalkerPacing.HeadersAreNumbered | module_avb_1722/src/avb_1722_talker_support_audio.c:297-300 | the header of the next packet carries the number of packets made so far |
| TalkerPacing.PresentationIsReal | module_avb_1722/src/avb_1722_talker_support_audio.c:291-294 | the presentation time is the real PTP time at which the sample was pushed, plus the delay, up to the stated slack |
| Listener.AudioListener.Guess | module_avb_1722/src/avb_1722_listener_support_audio.c:97-129 | a guess of the channels is confirmed or begun again; the sixteenth confirmation fixes the rate (the law over any packets is `CountIsAgreement`) |
| ListenerLock.CountIsAgreement | module_avb_1722/src/avb_1722_listener_support_audio.c:82-112 | over any packets, lost, repeated or out of order, the counter is the length of the present streak of inferences that give the channel count held, and not one more |
| ListenerLock.LocksExactlyWhenSixteenAgree | module_avb_1722/src/avb_1722_listener_support_audio.c:97-129 | a fresh listener is locked exactly when sixteen inferences in a row have agreed on a channel count |
| ListenerLock.LockIsOfFirstSixteen | module_avb_1722/src/avb_1722_listener_support_audio.c:97-132 | from the first sixteen on it holds their count and the rate of their words, whatever comes |
| Listener.AudioListener.ProcessPacket | module_avb_1722/src/avb_1722_listener_support_audio.c:22-217 | malformed packets change nothing; others update the lock state; a locked stream marks, maintains and pushes every mapped FIFO and no other, also at a rate that was inferred as 0, where the sample marked is a stray one |
| OutputFifo.MediaOutputFifo.SetPtpTimestamp | module_avb_audio/src/media_fifos/media_output_fifo.c:89-105 | the marker goes to the sample, unless one is pending |
| OutputFifo.MediaOutputFifo.PullSample | module_avb_audio/src/media_fifos/media_output_fifo.c:109-153 | the sample and the state after a pull |
| OutputFifo.MediaOutputFifo.Maintain | module_avb_audio/src/media_fifos/media_output_fifo.c:170-194 | a zeroed FIFO goes to locking |
| OutputFifo.MediaOutputFifo.StridedPush | module_avb_audio/src/media_fifos/media_output_fifo.c:217-275 | the strided words are pushed one by one, as low 24 bits, or as silence while zeroing |
| OutputFifo.MediaOutputFifo.AdjustFill | module_avb_audio/src/media_fifos/media_output_fifo.c:309-331 | the loops find the write position modulo the buffer, for any adjustment |
| OutputFifo.MediaOutputFifo.RequestInfo | module_avb_audio/src/media_fifos/media_output_fifo.c:289-301 | both times are handed over and forgotten with the marker |
| OutputFifo.MediaOutputFifo.Restart | module_avb_audio/src/media_fifos/media_output_fifo.c:332-342 | zeroing begins behind the write position |
| OutputFifoRuns.PushAllRefines | module_avb_audio/src/media_fifos/media_output_fifo.c:217-275 | a push appends to a queue of N-1 samples and drops the newest on overflow |
| OutputFifoRuns.PullRefines | module_avb_audio/src/media_fifos/media_output_fifo.c:109-153 | a pull takes the oldest sample, or gives 0 and takes nothing |
| OutputFifoRuns.AdjustShiftsFill | module_avb_audio/src/media_fifos/media_output_fifo.c:309-331 | an adjustment shifts the fill level by the amount asked for, modulo N |
| OutputFifoRuns.LocksOnlyWhenZeroed | module_avb_audio/src/media_fifos/media_output_fifo.c:174-194 | in every run locking begins only when every cell is zero, with exactly half the buffer of silence queued |
| OutputFifoRuns.MarkerRecords | module_avb_audio/src/media_fifos/media_output_fifo.c:89-147 | the time recorded is that of pull number fill plus `k` modulo N, which is the right one exactly when that sum is below N; the PTP time beside it is the one set, with 0 as 1 |
| OutputFifoRuns.PlaysTheQueue | module_avb_audio/src/media_fifos/media_output_fifo.c:109-153 | samples leave in the order of the queue |
| OutputFifoRuns.QueueLosesNothing | module_avb_audio/src/media_fifos/media_output_fifo.c:217-275 | with room for every packet, what was taken and what is queued are what was queued and pushed |
| OutputFifoRuns.RecordsPlayoutOfItsSample | module_avb_audio/src/media_fifos/media_output_fifo.c:89-147 | the time recorded is the playout time of the very sample the timestamp was set for, and the PTP time is held until then |
| OutputFifoRuns.ReportsFirstTimestampSet | module_avb_audio/src/media_fifos/media_output_fifo.c:89-301 | in every run a report hands over the first timestamp set since the report, adjustment or lock before it, and none if there was none |
| AudioPath.ListenerReadsTalker | module_avb_1722/src/avb_1722_listener_support_audio.c:197-214 | what the listener takes out of a channel are the low 24 bits of what the talker put there |
| AudioPath.ListenerReadsHeader | module_avb_1722/src/avb_1722_listener_support_audio.c:34-83 | what the listener reads of a stamped header is what the talker stamped |
| AudioPath.ListenerLocks | module_avb_1722/src/avb_1722_listener_support_audio.c:82-132 | a fresh listener infers the true channel count from every packet after the first and locks at exactly the seventeenth |
| AudioPath.Cadence | module_avb_1722/src/avb_1722_talker_support_audio.c:169-177 | over any run that skips no attempt, or at a rate without fractions, the carry of the fractions decides the size of every packet |
| AudioPath.StretchAddsUp | module_avb_1722/src/avb_1722_talker_support_audio.c:169-177 | over any stretch of such packets the samples beyond the base are the fractions added up |
| AudioPath.ListenerFindsRate | module_avb_1722/src/avb_1722_listener_support_audio.c:85-132 | in every run of a talker at any of the nine rates a fresh listener finds the true channels; at seven of them the true rate if and only if one of the sixteen packets measured has no sample more than the base, else 48 or 96 kHz for 44.1 or 88.2, and always the true SYT interval; at 176.4 and 192 kHz, and only there, the rate is 0 and the SYT interval unset |
| SkippedAttempts.TakenFor48kHz | module_avb_1722/src/avb_1722_talker_support_audio.c:169-215 | there is a run of a 44.1 kHz talker, polled once too early before each packet, whose FIFO never holds as many packets as it has slots, and which every listener takes for 48 kHz |
| AudioPath.TalkerIsHeard | module_avb_1722/src/avb_1722_listener_support_audio.c:82-132 | the packets of any talker run are what the inference needs |
| AudioPath.ListenerFeeds | module_avb_1722/src/avb_1722_listener_support_audio.c:168-214 | a packet that fits is marked and pushed as a whole |
| AudioPath.TalkersHeading | module_avb_1722/src/avb_1722_talker_support_audio.c:285-296 | the listener reads in a talker's header the block count, the length, and the presentation time of the packet, or none |
| AudioTimestamps.TimestampsArriveInEveryRun | module_avb_1722/src/avb_1722_listener_support_audio.c:147-176 | end to end, for every run of a talker at a rate that is inferred and every run of a listener: a timestamp that reaches a playing FIFO leaves there the presentation time of a push on the last channel, and beside it the time at which the sample pushed at the same place on the FIFO's own channel was played out |
| AudioTimestamps.ReportsFirstValidTimestamp | module_avb_1722/src/avb_1722_listener_support_audio.c:147-176 | in every run of a listener a report hands over the first valid timestamp that reached it locked since the one before; packets without one leave it alone |
| AudioDelivery.PayloadIsOnWire | module_avb_1722/src/avb_1722_talker_support_audio.c:276-281 | what `CreatePacket` fills is what the listener is shown to read |
| AudioDelivery.HeededQueue | module_avb_1722/src/avb_1722_listener_support_audio.c:187-214 | a packet adds its channel's low 24 bits to the queue when the listener is locked, and nothing before |
| AudioDelivery.SilentUntilAdjusted | module_avb_audio/src/media_fifos/media_output_fifo.c:67-85 | in every run from the configuration of a stream or a reset on, nothing but zeros is played until an adjustment, and the FIFO stays in zeroing until the listener is locked |
| AudioDelivery.SilentExactlyWhileUnadjusted | module_avb_audio/src/media_fifos/media_output_fifo.c:309-342 | in every run from the configuration on, a FIFO is silent exactly while there was no adjustment since the configuration or the latest reset, and plays otherwise |
| AudioDelivery.LockFollowsPackets | module_avb_1722/src/avb_1722_listener_support_audio.c:82-132 | in every run of packets, playout, adjustments, resets and reports the listener knows exactly what the packets tell |
| AudioDelivery.TalkerIsListenedTo | module_avb_1722/src/avb_1722_listener_support_audio.c:134-214 | of a talker at any rate, in every run, a listener takes every packet, whenever it comes |
| AudioDelivery.DeliveredOnceUnmuted | module_avb_audio/src/media_fifos/media_output_fifo.c:109-275 | from any state that plays, until the next adjustment or reset, what is played and queued is what was queued and what came when the listener was locked |
| AudioDelivery.AudioPathIsIdentity | module_avb_1722/src/avb_1722_listener_support_audio.c:187-214 | end to end, for a listener run from its configuration on with any adjustments and resets: from the last adjustment, if no reset follows, what is played and queued is what was queued then, and the talker's samples of every packet since then that came behind the seventeenth, in order |
| AudioDelivery.PushedIsPlayed | module_avb_audio/src/media_fifos/media_output_fifo.c:109-153 | from the samples pushed into the input FIFO: they are, in order, those that came too early, those handed on, those on the wire and those in the talker; what is played behind the queue of the adjustment is those handed on |
| GptpTime.RoundTripError | module_gptp/src/gptp.c:84-93 | local to PTP to local misses by at most one tick, about a tenth more, and the interval times the mismatch of the two rates |
| GptpTime.RoundTripWithinOneTick | module_gptp/src/gptp.c:193-202 | by one tick at most while interval times mismatch is below four fifths of a tick |
| GptpTime.RoundTripExact | module_gptp/src/gptp.c:193-202 | with both adjustments 0 a time comes back if and only if ten times its interval fits in a signed 32-bit number |
| GptpTime.ImageMustFit | module_gptp/src/gptp.c:84-93 | an instance of it: 300,000,000 ticks of 10 ns do not come back |
| GptpTime.RawAdjustError | module_gptp/src/gptp.c:302-319 | the raw adjustment misses the exact ratio by less than one unit |
| GptpTime.RawPairMismatch | module_gptp/src/gptp.c:302-319 | (1 + adj)(1 + inv) is 1 - 2 (M - L)^2 / (M L), up to an explicit truncation error |
| GptpTime.RawRoundTripError | module_gptp/src/gptp.c:302-319 | with the adjustments of one raw measurement of rates M and L the round trip misses by at most one tick, about a tenth more, and the interval times 2 (M - L)^2 / (M L) plus an explicit truncation |
| GptpTime.OffsetValue | module_gptp/src/gptp.c:135-155 | what an offset makes of a timestamp, also where the sum is negative |
| GptpTime.OffsetRightExactlyWhen | module_gptp/src/gptp.c:135-155 | it is moved by the offset exactly when nanoseconds plus offset is not negative |
| GptpTime.OffsetWrong | module_gptp/src/gptp.c:135-155 | one nanosecond before a full second gives a time centuries later |
| GptpTime.DiffUndoesOffset | module_gptp/src/gptp.c:163-179 | the difference gives back any 64-bit offset, even a mistaken one |
| GptpSync.SyncClock.UpdateAdjust | module_gptp/src/gptp.c:285-378 | lock, averages and reference after a sync; a sample without a difference only forgets the last one (what the measured rate means is `GptpRate.RawIsTheRate`) |
| GptpSync.SyncClock.UpdatePathDelay | module_gptp/src/gptp.c:412-463 | the delay measured from the four times, averaged in wrapping 32-bit arithmetic |
| GptpSync.CountIsStreak | module_gptp/src/gptp.c:335-358 | the counter is the length of the present streak against the lock, at most 5 |
| GptpSync.FlipsExactlyOnSixth | module_gptp/src/gptp.c:335-358 | the lock flips at a sample exactly when it is the sixth in a row against a lock that stood all along |
| GptpSync.LockFollowsVariations | module_gptp/src/gptp.c:236-372 | in every run of samples and role changes the lock depends on the samples compared since the endpoint last became a slave, and on nothing else |
| GptpSync.LockFlipsExactlyWhen | module_gptp/src/gptp.c:335-358 | in every such run the lock flips at a sample exactly when it is compared and is the sixth in a row against a lock that stood all along |
| GptpSync.AveragesStayInHull | module_gptp/src/gptp.c:236-372 | in every run of samples and role changes each of the two averages stays in the hull of 0 and its own raw adjustments |
| GptpSync.AverageRestsShort | module_gptp/src/gptp.c:360-366 | truncation makes the average rest 31 units short of a steady value |
| GptpSync.SymmetricDelayIsExact | module_gptp/src/gptp.c:435-448 | on a symmetric link with matched clocks the measured delay is the link's |
| GptpSync.DelayWithin | module_gptp/src/gptp.c:450-462 | the average stays between the old and the measured delay while the sum fits in 32 bits |
| GptpRate.RawIsTheRate | module_gptp/src/gptp.c:296-319 | of two syncs M ns apart at the master and L ns apart locally, as given real times, the raw adjustments are (M - L) / M and (L - M) / L, each to one unit |
| GptpRate.FirstRate | module_gptp/src/gptp.c:296-378 | the first two syncs set both adjustments to that rate |
| GptpRate.SteadyRateIsFound | module_gptp/src/gptp.c:360-372 | at a steady rate, whatever the averages start from, all of their error beyond 32 units is down to 31/32 with every sync |
| GptpRate.SteadyFromTheFirst | module_gptp/src/gptp.c:285-378 | from its first two syncs on a clock at a steady rate knows the rate to 32 units |
| GptpRate.CorrectedIsReal | module_gptp/src/gptp.c:124-132 | a corrected interval is the real interval on the other clock, up to the second-order term, the error of the rate and rounding |
| GptpRate.FirstRateConverts | module_gptp/src/gptp.c:285-319 | after the first two syncs the local time between them converts to the master's, up to that slack for one unit |
| GptpRate.LocalToPtpIsReal | module_gptp/src/gptp.c:84-93 | a local time converts to the PTP time that really is then, up to the slack |
| GptpRate.PtpToLocalIsReal | module_gptp/src/gptp.c:193-202 | a PTP time converts to the local time that really is then, up to the slack and nine tenths of a tick |
| GptpEstimates.LockedBySixClose | module_gptp/src/gptp.c:326-358 | in every run the lock is gained exactly by six close samples in a row that found none, and lost exactly by six far ones that found it |
| GptpEstimates.SteadyRateLocks | module_gptp/src/gptp.c:326-358 | at a steady rate the sixth further sync gains the lock, and none loses it |
| GptpEstimates.SlaveStartsAfresh | module_gptp/src/gptp.c:236-253 | becoming a slave forgets the master before: every run that follows leaves the same estimates, whatever was measured until then |
| GptpEstimates.UselessSyncStartsAfresh | module_gptp/src/gptp.c:310-313 | after a sync without a difference the next one is compared with nothing |
| GptpEstimates.MasterCorrectsNothing | module_gptp/src/gptp.c:255-261 | a master corrects nothing |
| GptpEstimates.MeasuredDelayIsReal | module_gptp/src/gptp.c:435-448 | on a symmetric link with clocks at any rates the delay is measured to half the slack of the conversion and half a nanosecond |
| GptpEstimates.DelaySettles | module_gptp/src/gptp.c:450-462 | the averaged delay closes in on the measured ones: what is beyond their bounds is down to 31/32 with each |
| GptpMessages.PtpReceiver.Receive | module_gptp/src/gptp.c:1017-1090 | what is remembered, measured and referred to after each kind of message |
| GptpMessages.PtpReceiver.SendDelayRequest | module_gptp/src/gptp.c:827-878 | a request gets the next number and is remembered with its time |
| GptpMessages.PtpReceiver.MoveReference | module_gptp/src/gptp.c:396-408 | a reference older than five seconds is moved up |
| GptpMessages.SyncedExactlyWhen | module_gptp/src/gptp.c:1017-1045 | in every run of messages a follow-up is measured exactly if it is the master's and has the number of the sync that waits, with that sync's arrival; no sync is taken twice |
| GptpMessages.OneMasterExactlyWhen | module_gptp/src/gptp.c:1017-1045 | sync and follow-up are of one clock exactly if the master port has not changed between them |
| GptpMessages.DelayMeasuredExactlyWhen | module_gptp/src/gptp.c:1052-1088 | in every run a delay is measured exactly from a follow-up with the number of a response to the latest request, with that response's times and the departure of the last request |
| GptpMessages.TimesBelongTogetherExactlyWhen | module_gptp/src/gptp.c:827-1088 | the four times are of one exchange exactly if no request went out between the response and its follow-up |
| GptpMessages.OverlappingRequest | module_gptp/src/gptp.c:827-1088 | a run in which they are not: the delay comes out as 21 seconds |
| GptpMessages.ReferenceIsReal | module_gptp/src/gptp.c:380-392 | after a follow-up the reference pairs the sync's arrival with the master's time then, but for the error of the delay |
| GptpMessages.MovedReferenceIsReal | module_gptp/src/gptp.c:396-408 | a reference that is moved up stays real up to the slack of the conversion |
| GptpBmca.RankIsLexicographic | module_gptp/src/gptp.c:511-548 | the order of vectors is lexicographic in the fields |
| GptpBmca.CompareClockIdentity | module_gptp/src/gptp.c:482-493 | the loop compares identities as big-endian numbers |
| GptpBmca.PtpPort.SetNewRole | module_gptp/src/gptp.c:232-274 | the role, its times, and the vector a master or doubter holds |
| GptpBmca.PtpPort.IsNewBest | module_gptp/src/gptp.c:502-549 | an announcement is better exactly when it is another clock's and ranks lower |
| GptpBmca.PtpPort.ReceiveAnnounce | module_gptp/src/gptp.c:1003-1016 | role, best vector, master port and timer after an announcement (over runs, `TimerRunsFromLatest`) |
| GptpBmca.PtpPort.PtpPeriodic | module_gptp/src/gptp.c:1146-1179 | what times out, what is sent, and the times after it |
| GptpBmca.HearingKeepsRoles | module_gptp/src/gptp.c:495-562 | an announcement keeps the role invariant, and the best vector only improves |
| GptpBmca.PeriodicKeepsRoles | module_gptp/src/gptp.c:1146-1179 | the periodic work keeps it too |
| GptpBmca.RolesInEveryRun | module_gptp/src/gptp.c:988-1182 | after every sequence of calls masters and doubters hold their own vector, a slave one strictly better and a valid timer |
| GptpBmca.DoubtIsAnnounced | module_gptp/src/gptp.c:1151-1167 | a slave that begins to doubt announces itself in the same call |
| GptpBmca.TimeAfterIsReal | module_gptp/src/gptp.c:21 | on times less than half a wrap apart `timeafter` is the real order |
| GptpBmca.ViewsHold | module_gptp/src/gptp.c:482-562 | for any deliveries without timeouts each node's best vector is the least of its own and those it heard |
| GptpBmca.GrandmasterAgreement | module_gptp/src/gptp.c:482-562 | once everyone has heard everyone, all hold the same, least vector, and exactly its owner is not a slave |
| GptpBmca.FailoverIsBounded | module_gptp/src/gptp.c:1146-1160 | on the wrapping clock a silent master is replaced within two timeouts and two gaps between calls, and not before two timeouts |
| GptpLiveness.TimerRunsFromLatest | module_gptp/src/gptp.c:1008-1014 | after every sequence of calls a slave's timer runs from the latest announcement of its grandmaster from its master port; nothing from another port or clock restarts it |
| GptpLiveness.SlaveWhileHeard | module_gptp/src/gptp.c:1003-1160 | on the wrapping clock a slave that hears nothing better follows its master as long as every periodic call comes within a timeout of its latest announcement |
| GptpLiveness.SlaveExactlyWhileHeard | module_gptp/src/gptp.c:1003-1160 | and at the first call that comes later it begins to doubt |
| GptpLiveness.AgreementInTouch | module_gptp/src/gptp.c:482-1160 | a network whose nodes have heard whom they hear at most a timeout before each periodic call agrees on the least vector, with exactly its owner no slave |
| GptpBeats.SendsOnTheBeat | module_gptp/src/gptp.c:1161-1179 | over any calls at which no timeout runs out announcements, syncs and delay requests go out exactly on the beats of their periods, as the role sends them |
| GptpBeats.BeatsApart | module_gptp/src/gptp.c:1161-1179 | beats are more than a period apart, and at most a gap between calls more |
| GptpBeats.NewMasterStartsBeating | module_gptp/src/gptp.c:255-268 | a new master has its first announcement and sync a whole period ahead |
| GptpBeats.NewSlaveStartsBeating | module_gptp/src/gptp.c:236-253 | a new slave has its first delay request a whole period ahead |

## Left out

- MMRP, which is off by default, and the VLAN table of `avb_mvrp.c` (`avb_join_vlan`, `avb_leave_vlan`): table look-ups.
- Builds without `MRP_FULL_PARTICIPANT`, which have no registrar and no leave-all.
- MrpTransmitter.PduBuilder.DoTx: the size of the send buffer is a precondition, so `send`, which flushes a PDU that may
  not take another message, is not modelled; everything is proved for one PDU.
- MrpTransmitter.PduBuilder.TransmitOpportunity: takes its declarations as a list, which `MrpStations.Opportunity` gets
  from the attributes; at most 255 go into one PDU, beyond which the count of a vector may overflow (`CountExact`).
- MrpTransmitter.PduBuilder.StoreFirstValue: one method stands for the fields that each kind of declaration writes.
- MrpStations.Opportunity: asks for at most 255 attributes and a buffer with room for all of them, as
  `TransmitOpportunity` does.
- MrpReceiver.ProcessPacket: says what is heard, in order; `MrpStations.Receive` hands it to the attributes afterwards,
  where the source does so value by value. Domain attributes match nothing in the source.
- MrpTimers.MrpScheduler.Periodic: what one attribute is given; the order in which the attributes take their turns is in
  `MrpStations.JoinTimerElapsed`.
- GptpRate.RawIsTheRate: the later sync is later on both clocks, the two intervals differ by a factor of two at most
  and by 0.26 seconds, which is what the 35 fraction bits of the source allow for.
- MrpReceiver.DeliveredAsDeclared: an attribute length shorter than the first value of its type makes the source match
  bytes behind it; frames built by the transmitter never have one.
- MrpStateMachine.MrpAttribute.Poll: the order in which join and leave flags are delivered is not modelled, they are a
  set.
- MrpAttributeList.CompareIsOrder: addresses of slots are their indices; what a talker's local id or a listener's stream
  id is compared by is one number, the key.
- What the application does on join and leave indications, and the snooping of talker messages.
- The FIFOs are used by two threads; a call is one step here, and `volatile` and the hardware lock are left out.
- InputFifo.MediaInputFifo.Enable: an unknown sample rate leaves the packet size unset in the source; here the rate is
  one of the nine known ones.
- InputFifo.MediaInputFifo.GetPacket: asks for a packet; the source spins until there is one.
- InputFifo.MediaInputFifo.ReleasePacket: asks for a packet to release; without one the source moves the reader past the
  writer. The talker releases only what it has counted.
- InputFifo.MediaInputFifo.Flush: asks for a FIFO that was enabled once; before that its packet size is unset.
- `media_input_fifo_set_ptr` and `media_input_fifo_get_ptr`: the read pointer is the talker's own (`ptrs` of
  `AudioTalker`).
- Talker.AudioTalker.CreatePacket: the talker sees its FIFOs as queues of packets with a read pointer, not as objects
  that share memory; the second copy of the start test, which cannot differ from the first, is modelled once;
  `transmit_ok` is set and cleared in one call.
- Talker.AudioTalker.SendPackets: one stream; the round robin over streams and the padding to 60 bytes are left out, as
  are the Ethernet addresses.
- Avtp.BufInit: only the bytes a listener looks at.
- Listener.AudioListener.ProcessPacket: what the source computes from an unset SYT interval, where the rate was inferred
  as 0, is a parameter.
- OutputFifo.MediaOutputFifo.Maintain: notifications of the media clock and the sample count are left out, and so is the
  volume control variant.
- AudioTimestamps.TimestampsArriveInEveryRun: speaks of a timestamp up to its record in the output FIFO; a report to the
  media clock, which clears the marker, ends the stretch. At 176.4 and 192 kHz the sample recorded is a stray one
  (`ListenerFindsRate`). On all channels but the last, the PTP time is of another channel's push than the sample, as in
  the source.
- MrpRounds.RegisteredFromRequestOn: the frame of each round arrives, and no other station sends a leave of any kind to
  the receiver; which frames are lost, and timers of other stations, are left open.
- AudioDelivery.AudioPathIsIdentity: the network neither loses nor reorders packets, and the output FIFO has room for
  those handed on since the adjustment, which is what the media clock sees to. When the media clock adjusts, resets or
  asks for a report is left open: the runs have these steps anywhere.
- AudioDelivery.PushedIsPlayed: no input FIFO overflows; what an overflow does is `OverflowIsForGood`. At 8 and 16 kHz
  it speaks of runs without packets, as there are no others.
- `local_timestamp_to_ptp_mod64`, `ptp_timestamp_to_local` and `local_to_epoch_ts`: the same arithmetic on wider fields.
- GptpTime.RoundTripError: differences of timestamps are taken modulo 2 to the 32, as the hardware does; in C the signed
  subtraction would overflow.
- GptpSync.SyncClock.UpdatePathDelay: the constant egress delay is 0 in the configuration and not written.
- GptpBmca.PtpPort.ReceiveAnnounce: the announce branch of `ptp_recv`; the other branches are in `GptpMessages`.
- GptpMessages.PtpReceiver.Receive: messages are given by their fields, not by their bytes; the answers to delay
  requests and the messages a master sends are left out, and so is the offset between the timers of two tiles.
- GptpBmca.GrandmasterAgreement: endpoints only, as in the source, which does not forward announcements.
- The media clock loop, the video and SAF formats, the router tables, ACMP, ADP, AECP, MAAP and `avb.c`.
- All input and output: Ethernet, channel ends, prints. Clocks are parameters.
