/**
 * The per-call state machine of the voice agent, as values: the shared
 * conversation history, the toolset's record and completion flag, and
 * the records written to the store. Each operation is a function from the
 * old state to the new one; `Run` folds a sequence of events. The classes
 * in module VoiceAgent are proved to follow these functions.
 */
module CallFlow {
  import opened Intake

  datatype Speaker = User | Agent

  /** The value the history's `from` entry takes after a turn. */
  function Tag(speaker: Speaker): string {
    match speaker
    case User => "user"
    case Agent => "agent"
  }

  /** One transcript entry, rendered by the agent as "[timestamp] USER:\ntext\n\n". */
  datatype LogEntry = LogEntry(timestamp: string, speaker: Speaker, text: string)

  /** The four entries of `conversation_history`. */
  datatype History = History(
    callId: string,
    callLogs: seq<LogEntry>,
    patientMetadata: PatientInfo,
    from: string)

  const NewHistory: History := History(Unset, [], NoPatientInfo, Unset)

  /** One row inserted into the chat-history table. */
  datatype CallRecord = CallRecord(
    from: string,
    callLogs: seq<LogEntry>,
    callId: string,
    patientInfo: PatientInfo)

  /** The history a row was taken from. */
  function HistoryOf(r: CallRecord): History {
    History(r.callId, r.callLogs, r.patientInfo, r.from)
  }

  /**
   * The row a write takes from the history as it stands: all four entries,
   * so the history can be read back from the row.
   */
  function RecordOf(h: History): (r: CallRecord)
    ensures HistoryOf(r) == h
  {
    CallRecord(h.from, h.callLogs, h.callId, h.patientMetadata)
  }

  /** Whether the store's `execute()` returned or raised. */
  datatype StoreOutcome = Inserted | InsertRaised

  /** What a turn asks of the voice pipeline and the room. */
  datatype Directive = NoDirective | Say(phrase: string) | Disconnect

  /**
   * Everything one call changes: the shared history, the toolset's own
   * record and `call_complete` flag, and every row written so far.
   */
  datatype CallState = CallState(
    history: History,
    patient: PatientInfo,
    callComplete: bool,
    writes: seq<CallRecord>)

  const NewCall: CallState := CallState(NewHistory, NoPatientInfo, false, [])

  datatype Turn = Turn(next: CallState, directive: Directive)

  /**
   * The bookkeeping both speech callbacks do before anything else: the
   * entry goes at the end of the transcript, `from` names its speaker and
   * the call id becomes the room; nothing else changes.
   */
  function Commit(s: CallState, room: string, entry: LogEntry): (t: CallState)
    ensures |t.history.callLogs| == |s.history.callLogs| + 1
    ensures t.history.callLogs[..|s.history.callLogs|] == s.history.callLogs
    ensures t.history.callLogs[|s.history.callLogs|] == entry
    ensures t.history.from == (if entry.speaker == User then "user" else "agent")
    ensures t.history.callId == room && t.history.patientMetadata == s.history.patientMetadata
    ensures t.patient == s.patient && t.callComplete == s.callComplete && t.writes == s.writes
  {
    var h := s.history;
    s.(history := h.(callId := room, callLogs := h.callLogs + [entry], from := Tag(entry.speaker)))
  }

  /**
   * `on_user_speech_committed`: log the turn; on a goodbye, set the flag,
   * write one row holding the turn just logged, then (if the insert did
   * not raise) ask for the closing phrase.
   */
  function OnUserSpeech(s: CallState, room: string, timestamp: string, text: string, store: StoreOutcome): (t: Turn)
    ensures t.next.history.callLogs == s.history.callLogs + [LogEntry(timestamp, User, text)]
    ensures t.next.history.from == "user" && t.next.history.callId == room
    ensures t.next.history.patientMetadata == s.history.patientMetadata && t.next.patient == s.patient
    ensures t.next.callComplete == (s.callComplete || CheckGoodbye(text))
    ensures t.next.writes != s.writes <==> CheckGoodbye(text)
    ensures CheckGoodbye(text) ==> t.next.writes == s.writes + [RecordOf(t.next.history)]
    ensures t.directive != NoDirective <==> CheckGoodbye(text) && store == Inserted
    ensures t.directive != NoDirective ==> t.directive == Say(ClosingPhrase)
  {
    var c := Commit(s, room, LogEntry(timestamp, User, text));
    if CheckGoodbye(text) then
      var written := c.(callComplete := true, writes := c.writes + [RecordOf(c.history)]);
      Turn(written, if store == Inserted then Say(ClosingPhrase) else NoDirective)
    else
      Turn(c, NoDirective)
  }

  /**
   * `on_agent_speech_committed`: log the turn; if the flag is set, write one
   * row holding the turn just logged, then (if the insert did not raise)
   * disconnect. Nothing stops this from happening on every later agent turn.
   */
  function OnAgentSpeech(s: CallState, room: string, timestamp: string, text: string, store: StoreOutcome): (t: Turn)
    ensures t.next.history.callLogs == s.history.callLogs + [LogEntry(timestamp, Agent, text)]
    ensures t.next.history.from == "agent" && t.next.history.callId == room
    ensures t.next.history.patientMetadata == s.history.patientMetadata && t.next.patient == s.patient
    ensures t.next.callComplete == s.callComplete
    ensures t.next.writes != s.writes <==> s.callComplete
    ensures s.callComplete ==> t.next.writes == s.writes + [RecordOf(t.next.history)]
    ensures t.directive != NoDirective <==> s.callComplete && store == Inserted
    ensures t.directive != NoDirective ==> t.directive == Disconnect
  {
    var c := Commit(s, room, LogEntry(timestamp, Agent, text));
    if s.callComplete then
      var written := c.(writes := c.writes + [RecordOf(c.history)]);
      Turn(written, if store == Inserted then Disconnect else NoDirective)
    else
      Turn(c, NoDirective)
  }

  /**
   * `get_patient_info`: every field of the record is replaced by the
   * arguments, and the history's snapshot becomes that record; nothing
   * else changes.
   */
  function GetPatientInfo(s: CallState, info: PatientInfo): (t: CallState)
    ensures t.patient == info && t.history.patientMetadata == info
    ensures t.history.callLogs == s.history.callLogs && t.history.from == s.history.from
    ensures t.history.callId == s.history.callId
    ensures t.callComplete == s.callComplete && t.writes == s.writes
  {
    s.(patient := info, history := s.history.(patientMetadata := info))
  }

  /**
   * `book_appointment`: the flag is set whatever the record holds and
   * whatever became of the e-mail; nothing else changes.
   */
  function BookAppointment(s: CallState): (t: CallState)
    ensures t.callComplete
    ensures t.history == s.history && t.patient == s.patient && t.writes == s.writes
  {
    s.(callComplete := true)
  }

  /** What may happen during a call, one at a time. */
  datatype Event =
    | UserSaid(timestamp: string, text: string, store: StoreOutcome)
    | AgentSaid(timestamp: string, text: string, store: StoreOutcome)
    | PatientInfoCall(info: PatientInfo)
    | AvailabilityCall(requested: string)
    | BookingCall(delivery: Delivery)

  function Step(s: CallState, room: string, e: Event): CallState {
    match e
    case UserSaid(ts, text, store) => OnUserSpeech(s, room, ts, text, store).next
    case AgentSaid(ts, text, store) => OnAgentSpeech(s, room, ts, text, store).next
    case PatientInfoCall(info) => GetPatientInfo(s, info)
    case AvailabilityCall(_) => s
    case BookingCall(_) => BookAppointment(s)
  }

  function Run(s: CallState, room: string, events: seq<Event>): CallState
    decreases |events|
  {
    if events == [] then s else Run(Step(s, room, events[0]), room, events[1..])
  }

  /** The transcript entries that a sequence of events adds, in order. */
  function EntriesOf(events: seq<Event>): seq<LogEntry>
    decreases |events|
  {
    if events == [] then []
    else
      var rest := EntriesOf(events[1..]);
      match events[0]
      case UserSaid(ts, text, _) => [LogEntry(ts, User, text)] + rest
      case AgentSaid(ts, text, _) => [LogEntry(ts, Agent, text)] + rest
      case _ => rest
  }

  predicate IsTurn(e: Event) {
    e.UserSaid? || e.AgentSaid?
  }

  /** An event that by itself can neither set the flag nor cause a write. */
  predicate Quiet(e: Event) {
    match e
    case UserSaid(_, text, _) => !CheckGoodbye(text)
    case BookingCall(_) => false
    case _ => true
  }

  /** `call_complete` never goes back to false. */
  lemma {:induction false} RunKeepsCallComplete(s: CallState, room: string, events: seq<Event>)
    requires s.callComplete
    ensures Run(s, room, events).callComplete
    decreases |events|
  {
    if events != [] {
      RunKeepsCallComplete(Step(s, room, events[0]), room, events[1..]);
    }
  }

  /**
   * The transcript is append-only: after any events it is the old
   * transcript followed by exactly one entry per turn, in arrival order.
   */
  lemma {:induction false} RunAppendsTurns(s: CallState, room: string, events: seq<Event>)
    ensures Run(s, room, events).history.callLogs == s.history.callLogs + EntriesOf(events)
    decreases |events|
  {
    if events != [] {
      var s' := Step(s, room, events[0]);
      RunAppendsTurns(s', room, events[1..]);
      assert s'.history.callLogs == s.history.callLogs + EntriesOf(events[..1]);
      assert EntriesOf(events) == EntriesOf(events[..1]) + EntriesOf(events[1..]);
    }
  }

  /** Rows once written stay written, in order. */
  lemma {:induction false} RunOnlyAddsWrites(s: CallState, room: string, events: seq<Event>)
    ensures s.writes <= Run(s, room, events).writes
    decreases |events|
  {
    if events != [] {
      RunOnlyAddsWrites(Step(s, room, events[0]), room, events[1..]);
    }
  }

  /**
   * A call with no goodbye and no booking never writes a row and never
   * sets the flag.
   */
  lemma {:induction false} QuietCallNeverWrites(s: CallState, room: string, events: seq<Event>)
    requires !s.callComplete
    requires forall k :: 0 <= k < |events| ==> Quiet(events[k])
    ensures Run(s, room, events).writes == s.writes
    ensures !Run(s, room, events).callComplete
    decreases |events|
  {
    if events != [] {
      assert Quiet(events[0]);
      QuietCallNeverWrites(Step(s, room, events[0]), room, events[1..]);
    }
  }

  /**
   * The history's snapshot and the toolset's record agree at the start of a
   * call and after every event.
   */
  lemma {:induction false} RunKeepsSnapshot(s: CallState, room: string, events: seq<Event>)
    requires s.history.patientMetadata == s.patient
    ensures Run(s, room, events).history.patientMetadata == Run(s, room, events).patient
    decreases |events|
  {
    if events != [] {
      RunKeepsSnapshot(Step(s, room, events[0]), room, events[1..]);
    }
  }

  /** After any turn the call id is the room's name; tool calls leave it alone. */
  lemma {:induction false} RunSetsCallId(s: CallState, room: string, events: seq<Event>)
    ensures Run(s, room, events).history.callId ==
      if exists k :: 0 <= k < |events| && IsTurn(events[k]) then room else s.history.callId
    decreases |events|
  {
    if events != [] {
      RunSetsCallId(Step(s, room, events[0]), room, events[1..]);
      if IsTurn(events[0]) {
        assert exists k :: 0 <= k < |events| && IsTurn(events[k]);
      }
      if exists k :: 0 <= k < |events| && IsTurn(events[k]) {
        var k :| 0 <= k < |events| && IsTurn(events[k]);
        if k > 0 {
          assert IsTurn(events[1..][k - 1]);
        }
      }
      if exists k :: 0 <= k < |events[1..]| && IsTurn(events[1..][k]) {
        var k :| 0 <= k < |events[1..]| && IsTurn(events[1..][k]);
        assert IsTurn(events[k + 1]);
      }
    }
  }

  /**
   * Every row written holds a transcript that is a prefix of the live
   * transcript: nothing written is later contradicted.
   */
  ghost predicate WritesArePrefixes(s: CallState) {
    forall k :: 0 <= k < |s.writes| ==> s.writes[k].callLogs <= s.history.callLogs
  }

  lemma {:induction false} RunKeepsWritesPrefixes(s: CallState, room: string, events: seq<Event>)
    requires WritesArePrefixes(s)
    ensures WritesArePrefixes(Run(s, room, events))
    decreases |events|
  {
    if events != [] {
      var s' := Step(s, room, events[0]);
      assert WritesArePrefixes(s');
      RunKeepsWritesPrefixes(s', room, events[1..]);
    }
  }

  /** Two calls of `get_patient_info`: the second replaces every field, nothing is merged. */
  lemma GetPatientInfoReplacesAll(s: CallState, first: PatientInfo, second: PatientInfo)
    ensures GetPatientInfo(GetPatientInfo(s, first), second).patient == second
    ensures GetPatientInfo(GetPatientInfo(s, first), second).history.patientMetadata == second
  {
  }

  /**
   * As written, a goodbye costs two rows: one when the user says it, and
   * one more when the agent's next turn (the closing phrase) finds the
   * flag set. The second row also holds the closing phrase.
   */
  lemma GoodbyeWritesTwice(s: CallState, room: string, ts1: string, text: string, ts2: string)
    requires CheckGoodbye(text)
    ensures var u := OnUserSpeech(s, room, ts1, text, Inserted);
            var a := OnAgentSpeech(u.next, room, ts2, ClosingPhrase, Inserted);
            && u.directive == Say(ClosingPhrase)
            && a.directive == Disconnect
            && |a.next.writes| == |s.writes| + 2
            && a.next.writes[|s.writes|].callLogs == s.history.callLogs + [LogEntry(ts1, User, text)]
            && a.next.writes[|s.writes| + 1].callLogs ==
                 s.history.callLogs + [LogEntry(ts1, User, text), LogEntry(ts2, Agent, ClosingPhrase)]
  {
  }

  /**
   * The booking path: the flag is set, and the agent's next turn (the
   * confirmation) writes one row and disconnects.
   */
  lemma BookingThenAgentTurnWritesOnce(s: CallState, room: string, delivery: Delivery, ts: string, store: StoreOutcome)
    ensures var b := Run(s, room, [BookingCall(delivery)]);
            var a := OnAgentSpeech(b, room, ts, BookedReply, store);
            && b.writes == s.writes
            && a.next.writes == s.writes + [RecordOf(a.next.history)]
            && (a.directive == Disconnect <==> store == Inserted)
  {
  }

  /**
   * A whole booking call from a fresh state: the caller asks for a time and
   * gives the eight fields, the agent saves them and reports the doctor
   * free, the caller says to book, and the agent's confirmation is the one
   * turn that writes: one row holding the five turns and the record, then
   * disconnect.
   */
  lemma BookingCallWritesOnce(room: string, now: string, info: PatientInfo, request: string, confirm: string)
    requires !CheckGoodbye(request) && !CheckGoodbye(confirm)
    ensures
      var s1 := OnUserSpeech(NewCall, room, now, request, Inserted).next;
      var s2 := GetPatientInfo(s1, info);
      var s3 := OnAgentSpeech(s2, room, now, SavedReply, Inserted).next;
      var s4 := OnAgentSpeech(s3, room, now, AvailabilityReply, Inserted).next;
      var s5 := OnUserSpeech(s4, room, now, confirm, Inserted).next;
      var s6 := BookAppointment(s5);
      var t := OnAgentSpeech(s6, room, now, BookedReply, Inserted);
      && s6.writes == [] && s6.patient == info
      && t.directive == Disconnect
      && t.next.writes == [CallRecord("agent", [
           LogEntry(now, User, request), LogEntry(now, Agent, SavedReply),
           LogEntry(now, Agent, AvailabilityReply), LogEntry(now, User, confirm),
           LogEntry(now, Agent, BookedReply)], room, info)]
  {
    var e1, e2, e3 := LogEntry(now, User, request), LogEntry(now, Agent, SavedReply), LogEntry(now, Agent, AvailabilityReply);
    var e4, e5 := LogEntry(now, User, confirm), LogEntry(now, Agent, BookedReply);
    var s1 := OnUserSpeech(NewCall, room, now, request, Inserted).next;
    assert s1.history.callLogs == [e1] && s1.writes == [] && !s1.callComplete;
    var s2 := GetPatientInfo(s1, info);
    var s3 := OnAgentSpeech(s2, room, now, SavedReply, Inserted).next;
    assert s3.history.callLogs == [e1, e2] && s3.writes == [] && !s3.callComplete;
    var s4 := OnAgentSpeech(s3, room, now, AvailabilityReply, Inserted).next;
    var s5 := OnUserSpeech(s4, room, now, confirm, Inserted).next;
    assert s5.history.callLogs == [e1, e2, e3, e4] && s5.writes == [] && !s5.callComplete;
    assert s5.history.patientMetadata == info && s5.patient == info;
    var t := OnAgentSpeech(BookAppointment(s5), room, now, BookedReply, Inserted);
    assert [e1, e2, e3, e4] + [e5] == [e1, e2, e3, e4, e5];
    assert t.next.history.callLogs == [e1, e2, e3, e4, e5];
  }

  /**
   * As written, `conversation_history` lives at module level and is never
   * reset, while each call builds a new toolset: a later call served by the
   * same process starts from the previous call's history.
   */
  function CarriedOver(previous: CallState): (s: CallState)
    ensures s.history == previous.history && s.patient == NoPatientInfo
    ensures !s.callComplete && s.writes == []
  {
    CallState(previous.history, NoPatientInfo, false, [])
  }

  /**
   * On such a later call, a caller who says goodbye at once gets a row that
   * holds the previous call's transcript and the previous caller's record.
   */
  lemma ReusedHistoryLeaks(previous: CallState, room: string, timestamp: string, text: string)
    requires CheckGoodbye(text)
    ensures OnUserSpeech(CarriedOver(previous), room, timestamp, text, Inserted).next.writes ==
      [CallRecord("user", previous.history.callLogs + [LogEntry(timestamp, User, text)], room,
                  previous.history.patientMetadata)]
  {
  }
}
