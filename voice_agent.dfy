/**
 * The objects of one call, updated in place as the agent does: the shared
 * conversation history, the intake toolset with its record and completion
 * flag, and the session holding the two speech callbacks and the rows they
 * write. The session's methods are proved to follow the matching
 * functions of module CallFlow.
 */
module VoiceAgent {
  import opened Intake
  import opened CallFlow

  /** `conversation_history`: the call's id, transcript, patient snapshot and last speaker. */
  class ConversationHistory {
    var callId: string
    var callLogs: seq<LogEntry>
    var patientMetadata: PatientInfo
    var from: string

    function View(): History
      reads this
    {
      History(callId, callLogs, patientMetadata, from)
    }

    constructor()
      ensures View() == NewHistory
    {
      callId := Unset;
      callLogs := [];
      patientMetadata := NoPatientInfo;
      from := Unset;
    }
  }

  /** `MedicalIntakeAgent`: the tools the language model may call during the call. */
  class MedicalIntakeAgent {
    var patientMetadata: PatientInfo
    var callComplete: bool
    /** The history `get_patient_info` publishes the record into. */
    const history: ConversationHistory

    constructor(history: ConversationHistory)
      ensures this.history == history
      ensures patientMetadata == NoPatientInfo && !callComplete
    {
      this.history := history;
      patientMetadata := NoPatientInfo;
      callComplete := false;
    }

    /**
     * `get_patient_info`: overwrite the eight fields one by one, then make the
     * history's snapshot the record.
     */
    method GetPatientInfo(name: string, dob: string, insurance: string, referral: string,
                          complaint: string, address: string, phone: string, email: string)
      returns (reply: string)
      modifies this, history
      ensures patientMetadata == PatientInfo(name, dob, insurance, referral, complaint, address, phone, email)
      ensures history.View() == old(history.View()).(patientMetadata := patientMetadata)
      ensures callComplete == old(callComplete)
      ensures reply == SavedReply
    {
      patientMetadata := patientMetadata.(name := name);
      patientMetadata := patientMetadata.(dob := dob);
      patientMetadata := patientMetadata.(insurance := insurance);
      patientMetadata := patientMetadata.(referral := referral);
      patientMetadata := patientMetadata.(complaint := complaint);
      patientMetadata := patientMetadata.(address := address);
      patientMetadata := patientMetadata.(phone := phone);
      patientMetadata := patientMetadata.(email := email);
      history.patientMetadata := patientMetadata;
      reply := SavedReply;
    }

    /**
     * `check_doctor_availability`: the same sentence for every requested
     * time, reading no state (there is no reads clause).
     */
    function CheckDoctorAvailability(patientAvailability: string): (reply: string)
      ensures reply == AvailabilityReply
    {
      AvailabilityReply
    }

    /**
     * `book_appointment`: try the confirmation e-mail only when an address
     * was given; whatever the mail server does, set the flag and confirm.
     */
    method BookAppointment(delivery: Delivery) returns (reply: string, confirmation: Confirmation)
      modifies this
      ensures callComplete
      ensures patientMetadata == old(patientMetadata)
      ensures confirmation.Attempted? <==> patientMetadata.email != Unset
      ensures confirmation == ConfirmationFor(patientMetadata, delivery)
      ensures reply == BookedReply
    {
      var metadata := patientMetadata;
      confirmation := NotAttempted;
      if metadata.email != Unset {
        // The send either succeeds or raises; a raise is logged and swallowed.
        confirmation := Attempted(metadata.email, metadata, delivery);
      }
      callComplete := true;
      reply := BookedReply;
    }
  }

  /**
   * One call: the room it runs in, the history, the toolset, and the rows
   * inserted into the chat-history table (the store is modelled by the
   * sequence of rows it was given).
   */
  class CallSession {
    const room: string
    const history: ConversationHistory
    const agent: MedicalIntakeAgent
    var writes: seq<CallRecord>

    /** The toolset publishes into this session's history. */
    ghost predicate Valid() {
      agent.history == history
    }

    function State(): CallState
      reads this, history, agent
    {
      CallState(history.View(), agent.patientMetadata, agent.callComplete, writes)
    }

    constructor(room: string)
      ensures Valid() && fresh(history) && fresh(agent)
      ensures this.room == room
      ensures State() == NewCall
    {
      this.room := room;
      var h := new ConversationHistory();
      history := h;
      agent := new MedicalIntakeAgent(h);
      writes := [];
    }

    /** The insert of `conversation_history` as it stands into the store. */
    method Write()
      modifies this
      ensures writes == old(writes) + [RecordOf(history.View())]
    {
      writes := writes + [CallRecord(history.from, history.callLogs, history.callId, history.patientMetadata)];
    }

    /** The language model calls `get_patient_info` on this call's toolset. */
    method GetPatientInfo(info: PatientInfo) returns (reply: string)
      requires Valid()
      modifies history, agent
      ensures State() == CallFlow.GetPatientInfo(old(State()), info)
      ensures reply == SavedReply
    {
      reply := agent.GetPatientInfo(info.name, info.dob, info.insurance, info.referral,
                                    info.complaint, info.address, info.phone, info.email);
    }

    /** The language model calls `book_appointment` on this call's toolset. */
    method BookAppointment(delivery: Delivery) returns (reply: string, confirmation: Confirmation)
      modifies agent
      ensures State() == CallFlow.BookAppointment(old(State()))
      ensures confirmation == ConfirmationFor(agent.patientMetadata, delivery)
      ensures reply == BookedReply
    {
      reply, confirmation := agent.BookAppointment(delivery);
    }

    /** `on_user_speech_committed` */
    method OnUserSpeechCommitted(timestamp: string, message: string, store: StoreOutcome)
      returns (directive: Directive)
      requires Valid()
      modifies this, history, agent
      ensures Turn(State(), directive) == OnUserSpeech(old(State()), room, timestamp, message, store)
    {
      history.callId := room;
      history.callLogs := history.callLogs + [LogEntry(timestamp, User, message)];
      history.from := "user";
      directive := NoDirective;
      if CheckGoodbye(message) {
        agent.callComplete := true;
        Write();
        if store == Inserted {
          directive := Say(ClosingPhrase);
        }
      }
    }

    /** `on_agent_speech_committed` */
    method OnAgentSpeechCommitted(timestamp: string, message: string, store: StoreOutcome)
      returns (directive: Directive)
      requires Valid()
      modifies this, history
      ensures Turn(State(), directive) == OnAgentSpeech(old(State()), room, timestamp, message, store)
    {
      history.callLogs := history.callLogs + [LogEntry(timestamp, Agent, message)];
      history.from := "agent";
      history.callId := room;
      directive := NoDirective;
      if agent.callComplete {
        Write();
        if store == Inserted {
          directive := Disconnect;
        }
      }
    }
  }

  /**
   * A whole booking call on fresh objects: the caller asks for a time and
   * gives the eight fields, the agent saves them and reports the doctor
   * free, the caller says to book, and the agent confirms. Exactly one row
   * is written, holding the whole transcript and the record, and the call
   * ends.
   */
  method BookingCallScenario(room: string, now: string, info: PatientInfo,
                             request: string, confirm: string, delivery: Delivery)
    returns (rows: seq<CallRecord>, last: Directive)
    requires !CheckGoodbye(request) && !CheckGoodbye(confirm)
    ensures |rows| == 1 && last == Disconnect
    ensures rows[0] == CallRecord("agent", [
      LogEntry(now, User, request), LogEntry(now, Agent, SavedReply),
      LogEntry(now, Agent, AvailabilityReply), LogEntry(now, User, confirm),
      LogEntry(now, Agent, BookedReply)], room, info)
  {
    var session := new CallSession(room);
    var agent := session.agent;
    CallFlow.BookingCallWritesOnce(room, now, info, request, confirm);
    ghost var s1 := OnUserSpeech(NewCall, room, now, request, Inserted).next;
    ghost var s2 := CallFlow.GetPatientInfo(s1, info);
    ghost var s3 := OnAgentSpeech(s2, room, now, SavedReply, Inserted).next;
    ghost var s4 := OnAgentSpeech(s3, room, now, AvailabilityReply, Inserted).next;
    ghost var s5 := OnUserSpeech(s4, room, now, confirm, Inserted).next;
    ghost var s6 := CallFlow.BookAppointment(s5);
    var d := session.OnUserSpeechCommitted(now, request, Inserted);
    assert session.State() == s1;
    var reply := session.GetPatientInfo(info);
    assert session.State() == s2;
    d := session.OnAgentSpeechCommitted(now, reply, Inserted);
    assert session.State() == s3;
    reply := agent.CheckDoctorAvailability(request);
    d := session.OnAgentSpeechCommitted(now, reply, Inserted);
    assert session.State() == s4;
    d := session.OnUserSpeechCommitted(now, confirm, Inserted);
    assert session.State() == s5;
    var confirmation;
    reply, confirmation := session.BookAppointment(delivery);
    assert session.State() == s6;
    last := session.OnAgentSpeechCommitted(now, reply, Inserted);
    rows := session.writes;
  }

  /**
   * A caller who says goodbye before giving any details: the first row holds
   * that one utterance and the unset record; the agent's closing phrase then
   * writes a second row and disconnects.
   */
  method EarlyGoodbyeScenario(room: string, now: string, text: string)
    returns (rows: seq<CallRecord>, directives: seq<Directive>)
    requires CheckGoodbye(text)
    ensures directives == [Say(ClosingPhrase), Disconnect]
    ensures |rows| == 2
    ensures rows[0] == CallRecord("user", [LogEntry(now, User, text)], room, NoPatientInfo)
    ensures rows[1] == CallRecord("agent", [LogEntry(now, User, text), LogEntry(now, Agent, ClosingPhrase)], room, NoPatientInfo)
  {
    var session := new CallSession(room);
    var first := session.OnUserSpeechCommitted(now, text, Inserted);
    var second := session.OnAgentSpeechCommitted(now, ClosingPhrase, Inserted);
    rows := session.writes;
    directives := [first, second];
  }
}
