/**
 * A stricter variant of the call state machine, which is NOT what the agent
 * does: write-and-end fires at most once per call, through a terminal Closed
 * phase. Here a call becomes Closed with its first row, and a Closed call
 * writes no more rows; everything else follows CallFlow.Step. Proved: at most one row is ever written, and that
 * row is exactly the first row the unguarded machine writes.
 */
module GuardedCall {
  import opened Intake
  import opened CallFlow

  datatype Phase = Active | Closed

  datatype GuardedState = GuardedState(call: CallState, phase: Phase)

  function GuardedStep(g: GuardedState, room: string, e: Event): GuardedState {
    var n := Step(g.call, room, e);
    if g.phase == Closed then GuardedState(n.(writes := g.call.writes), Closed)
    else GuardedState(n, if |n.writes| > |g.call.writes| then Closed else Active)
  }

  function GuardedRun(g: GuardedState, room: string, events: seq<Event>): GuardedState
    decreases |events|
  {
    if events == [] then g else GuardedRun(GuardedStep(g, room, events[0]), room, events[1..])
  }

  /** The rows one step of the unguarded machine adds. */
  function NewRows(s: CallState, room: string, e: Event): seq<CallRecord> {
    match e
    case UserSaid(ts, text, store) =>
      if CheckGoodbye(text) then [RecordOf(OnUserSpeech(s, room, ts, text, store).next.history)] else []
    case AgentSaid(ts, text, store) =>
      if s.callComplete then [RecordOf(OnAgentSpeech(s, room, ts, text, store).next.history)] else []
    case _ => []
  }

  /**
   * One step adds at most one row, and apart from the rows it adds, it
   * neither reads nor changes the rows already written.
   */
  lemma StepAddsRows(s: CallState, room: string, e: Event, w: seq<CallRecord>)
    ensures |NewRows(s, room, e)| <= 1
    ensures Step(s, room, e).writes == s.writes + NewRows(s, room, e)
    ensures NewRows(s.(writes := w), room, e) == NewRows(s, room, e)
    ensures Step(s.(writes := w), room, e) == Step(s, room, e).(writes := w + NewRows(s, room, e))
  {
  }

  /** How a guarded call and the unguarded call from the same start stay related. */
  ghost predicate Tracks(g: GuardedState, s: CallState) {
    && g.call.(writes := s.writes) == s
    && (g.phase == Closed <==> s.writes != [])
    && g.call.writes == (if s.writes == [] then [] else s.writes[..1])
  }

  lemma {:induction false} GuardedRunTracks(g: GuardedState, s: CallState, room: string, events: seq<Event>)
    requires Tracks(g, s)
    ensures Tracks(GuardedRun(g, room, events), Run(s, room, events))
    decreases |events|
  {
    if events != [] {
      var e := events[0];
      StepAddsRows(s, room, e, g.call.writes);
      assert g.call == s.(writes := g.call.writes);
      GuardedRunTracks(GuardedStep(g, room, e), Step(s, room, e), room, events[1..]);
    }
  }

  /**
   * From a fresh call: the guarded machine runs through the same transcript,
   * record and flag as the agent, writes at most one row, that row is the
   * agent's first row, and the call is Closed exactly when it was written.
   */
  lemma GuardedCallWritesAtMostOnce(room: string, events: seq<Event>)
    ensures var g := GuardedRun(GuardedState(NewCall, Active), room, events);
            var s := Run(NewCall, room, events);
            && g.call.history == s.history
            && g.call.patient == s.patient
            && g.call.callComplete == s.callComplete
            && |g.call.writes| <= 1
            && (g.phase == Closed <==> |g.call.writes| == 1)
            && (s.writes != [] ==> g.call.writes == [s.writes[0]])
  {
    GuardedRunTracks(GuardedState(NewCall, Active), NewCall, room, events);
  }
}
