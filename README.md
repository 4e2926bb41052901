# Medical-intake voice agent: the call state machine, in Dafny

This project models the core of a voice agent that takes a patient's
intake details over the phone, pretends to book an appointment, and
stores the transcript with the patient record in a chat-history table.
The core is in `voiceAgent.py`:

- the intake toolset `MedicalIntakeAgent`. It holds an eight-field patient
  record, every field starting as the sentinel `"NULL"`, and a
  `call_complete` flag. Its tools are `get_patient_info`,
  `check_doctor_availability`, `book_appointment` and `check_goodbye`;
- the module-level `conversation_history`, which holds the call id, the
  transcript, the patient snapshot and the last speaker;
- the two speech callbacks of `entrypoint`. They append each turn to the
  transcript and decide when to insert a row and end the call.

Files and modules:

- `pystr.dfy`, module `PyStr`: the Python string builtins the goodbye test
  uses. These are `lower()`, `strip()` (with the exact `str.isspace()`
  character set) and `in`.
- `intake.dfy`, module `Intake`: the patient record, the fixed replies, the
  goodbye test and the confirmation e-mail attempt. It also holds the lemmas
  about the goodbye test.
- `call_flow.dfy`, module `CallFlow`: the per-call state machine as
  functions from state to state. It includes `Run` over a sequence of
  events, and lemmas about whole calls.
- `voice_agent.dfy`, module `VoiceAgent`: the classes `ConversationHistory`,
  `MedicalIntakeAgent` and `CallSession`. Their fields are updated in place
  as in the source. The methods of `CallSession` (the two speech callbacks
  and the two state-changing tools, called through the session) are proved
  to follow the matching `CallFlow` functions. `MedicalIntakeAgent`'s own
  methods are specified on its fields and the shared history. Two
  end-to-end scenarios run on fresh objects.
- `guarded_call.dfy`, module `GuardedCall`: a variant that the source does
  NOT implement. It is stricter: write-and-end fires at most once per call,
  through a terminal `Closed` phase. It is proved to write at most one row,
  and that row is the source's first row.

The store is modelled as the sequence of rows inserted (`writes`), so the
number of writes can be stated. The model keeps the source's own behaviour.
A goodbye from the caller inserts one row (voiceAgent.py:230). The agent's
next turn, the closing phrase, finds `call_complete` set and inserts a second
row (voiceAgent.py:256). Every later agent turn would insert again.
`CallFlow.GoodbyeWritesTwice` states this. The booking path writes once: the
confirmation turn writes one row and disconnects. Only `GuardedCall` has the
"at most one write" rule.

A failed insert is not caught. The insert at voiceAgent.py:230-235 and
:256-261 has no `try`, so an exception raised by it leaves the callback
before `agent.say` or `room.disconnect` is scheduled, and the call does not
end on that turn. The model gives each turn a `StoreOutcome`.
An `InsertRaised` outcome still counts the attempted row. The flag stays
set, but no directive is emitted.

## Model

| member | source | states |
|---|---|---|
| `PyStr.Strip` | voiceAgent.py:165-165 | `strip()` keeps a slice of the input: everything cut from either end is whitespace, and the result is empty or neither starts nor ends with whitespace |
| `PyStr.StripUpper` | voiceAgent.py:165-165 | upper-casing before or after `strip()` gives the same string |
| `PyStr.LowerLowers` | voiceAgent.py:165-165 | `PyStr.Lower`, the model of `lower()`: the length is kept, no ASCII capital is left, every other character is unchanged, and each character still names the same letter |
| `PyStr.StripLower` | voiceAgent.py:165-165 | lower-casing before or after `strip()` gives the same string, so `Intake.Normalize`, written strip-first, is `message.lower().strip()` |
| `PyStr.Contains` | voiceAgent.py:166-166 | Python's `phrase in text`: true for the empty phrase, and never true for a phrase longer than the text |
| `PyStr.ContainsTransitive` | voiceAgent.py:166-166 | substring is transitive: a phrase inside a phrase found in the text is found in the text |
| `PyStr.ContainsIgnoresStrip` | voiceAgent.py:165-166 | for a phrase that does not start or end with whitespace, occurring in `lower(strip(m))` is the same as occurring in `lower(m)` |
| `Intake.ConfirmationFor` | voiceAgent.py:108-122 | a confirmation e-mail is attempted exactly when the e-mail field is not `"NULL"`; it goes to that address and carries the current record |
| `Intake.AnyPhraseIn` | voiceAgent.py:166-166 | `any(phrase in text ...)` holds exactly when some listed phrase occurs in the text |
| `Intake.PhrasesAreTrimmed` | voiceAgent.py:65-68 | no goodbye phrase is empty or starts or ends with whitespace |
| `Intake.CheckGoodbye` | voiceAgent.py:163-166 | `check_goodbye`: a message is a goodbye exactly when some listed phrase occurs anywhere in its lower-cased text |
| `Intake.CheckGoodbyeIgnoresCase` | voiceAgent.py:165-166 | ASCII upper-casing the message never changes the answer |
| `Intake.CheckGoodbyeIgnoresStrip` | voiceAgent.py:165-166 | the `strip()` never changes the answer: testing the phrases on the normalised message equals testing them on the lower-cased message alone |
| `Intake.CorePhrasesSuffice` | voiceAgent.py:65-68 | because "goodbye", "thank you bye" and "thanks bye" contain "bye", the nine-phrase test equals the six-phrase test "bye", "have a good day", "see you", "take care", "end call", "hang up" on every text |
| `Intake.GoodbyeWhenPhraseAt` | voiceAgent.py:165-166 | a listed phrase anywhere in the lower-cased message makes it a goodbye |
| `Intake.NotGoodbyeWithoutCorePhrase` | voiceAgent.py:165-166 | a message whose lower-cased text holds none of the six core phrases is not a goodbye |
| `Intake.PaddedUpperCaseIsGoodbye` | voiceAgent.py:165-166 | "  BYE now" is a goodbye |
| `Intake.TitleCaseIsGoodbye` | voiceAgent.py:165-166 | "Thank You Bye" is a goodbye |
| `Intake.ByeMidSentenceIsGoodbye` | voiceAgent.py:165-166 | "I don't want to say bye yet" is a goodbye: substring matching has false positives |
| `Intake.RebookIsNotGoodbye` | voiceAgent.py:165-166 | "I'd like to rebook" is not a goodbye |
| `CallFlow.RecordOf` | voiceAgent.py:230-235 | the inserted row carries all four history entries: the history can be read back from it (`HistoryOf`). The same payload is inserted at :256-261 |
| `CallFlow.Commit` | voiceAgent.py:216-218 | the bookkeeping shared by both callbacks (also :244-246): exactly one entry is added at the end of the transcript, `from` names its speaker, the call id becomes the room, and nothing else changes |
| `CallFlow.OnUserSpeech` | voiceAgent.py:210-237 | a user turn appends exactly one entry at the end of the transcript and sets `from` to "user" and the call id to the room name. It sets the flag and writes exactly when the text is a goodbye. The row written is the history including this turn. The closing phrase is requested exactly when the goodbye's insert did not raise. The record and snapshot are unchanged, and the flag never goes back to false |
| `CallFlow.OnAgentSpeech` | voiceAgent.py:239-264 | an agent turn appends exactly one entry and sets `from` to "agent" and the call id to the room name. It writes exactly when the flag is already set, and the row holds this turn. It disconnects exactly when that insert did not raise. The flag, record and snapshot are unchanged |
| `CallFlow.GetPatientInfo` | voiceAgent.py:85-94 | the record becomes the eight arguments, and the history's snapshot becomes the record. Transcript, `from`, call id, flag and rows are unchanged |
| `CallFlow.BookAppointment` | voiceAgent.py:158-159 | the flag is set whatever the record and the e-mail outcome are; nothing else changes |
| `CallFlow.CarriedOver` | voiceAgent.py:50-54 | a later call in the same process starts with the previous call's history, a fresh record, the flag clear and no rows |
| `CallFlow.RunKeepsCallComplete` | voiceAgent.py:227-229 | once `call_complete` is true, no sequence of events sets it back to false |
| `CallFlow.RunAppendsTurns` | voiceAgent.py:216-246 | after any events the transcript is the old transcript followed by exactly one entry per turn, in arrival order |
| `CallFlow.RunOnlyAddsWrites` | voiceAgent.py:230-261 | rows already written stay written, in order |
| `CallFlow.QuietCallNeverWrites` | voiceAgent.py:227-261 | with no goodbye and no booking, no row is ever written and the flag stays false |
| `CallFlow.RunKeepsSnapshot` | voiceAgent.py:85-94 | if the history's snapshot equals the toolset's record, it still does after any events |
| `CallFlow.RunSetsCallId` | voiceAgent.py:216-246 | after events containing a turn, the call id is the room name; otherwise it is unchanged |
| `CallFlow.RunKeepsWritesPrefixes` | voiceAgent.py:230-261 | every row's transcript is a prefix of the live transcript, before and after any events |
| `CallFlow.GetPatientInfoReplacesAll` | voiceAgent.py:85-94 | after two calls, the record and the snapshot are exactly the second call's arguments, with nothing merged |
| `CallFlow.GoodbyeWritesTwice` | voiceAgent.py:227-264 | as written, a goodbye followed by the agent's closing phrase writes two rows and then disconnects. The first row holds the goodbye, and the second also holds the closing phrase |
| `CallFlow.BookingThenAgentTurnWritesOnce` | voiceAgent.py:254-264 | from any state, even one whose flag is already set, a booking writes nothing, and the agent's confirmation turn then writes exactly one row, holding that turn. It disconnects exactly when the insert did not raise |
| `CallFlow.BookingCallWritesOnce` | voiceAgent.py:210-264 | a whole booking call from a fresh state writes exactly one row, holding the five turns and the supplied record, and disconnects |
| `CallFlow.ReusedHistoryLeaks` | voiceAgent.py:50-54 | on a call that inherits the history, an immediate goodbye writes a row with the previous transcript and the previous caller's record |
| `VoiceAgent.ConversationHistory.constructor` | voiceAgent.py:50-54 | call id `"NULL"`, empty transcript, all eight snapshot fields `"NULL"`, `from` `"NULL"` |
| `VoiceAgent.MedicalIntakeAgent.constructor` | voiceAgent.py:58-68 | all eight fields `"NULL"` and `call_complete` false |
| `VoiceAgent.MedicalIntakeAgent.GetPatientInfo` | voiceAgent.py:71-97 | after the eight field assignments, the record is exactly the arguments and the shared snapshot equals it. Nothing else in the history changes, the flag is untouched, and the fixed acknowledgement is returned |
| `VoiceAgent.MedicalIntakeAgent.CheckDoctorAvailability` | voiceAgent.py:100-103 | the same fixed sentence for every requested time; it reads no state |
| `VoiceAgent.MedicalIntakeAgent.BookAppointment` | voiceAgent.py:105-160 | the flag ends true and the record is unchanged. An e-mail is attempted exactly when the address is not `"NULL"`. The fixed confirmation is returned whatever the e-mail outcome |
| `VoiceAgent.CallSession.constructor` | voiceAgent.py:50-54 | a process's first call: a fresh history (as built at module load) and a fresh toolset (:186), linked to each other, in the state `CallFlow.NewCall`. Later calls in the same process start from `CallFlow.CarriedOver` instead |
| `VoiceAgent.CallSession.GetPatientInfo` | voiceAgent.py:85-94 | the in-place `get_patient_info` on the session's toolset moves the session exactly as `CallFlow.GetPatientInfo` says |
| `VoiceAgent.CallSession.BookAppointment` | voiceAgent.py:158-160 | the in-place `book_appointment` moves the session exactly as `CallFlow.BookAppointment` says; the e-mail attempt is `Intake.ConfirmationFor` of the record |
| `VoiceAgent.CallSession.Write` | voiceAgent.py:230-235 | one row holding `from`, transcript, call id and snapshot as they stand is appended to the store |
| `VoiceAgent.CallSession.OnUserSpeechCommitted` | voiceAgent.py:210-237 | new state and directive are exactly `CallFlow.OnUserSpeech` of the old state |
| `VoiceAgent.CallSession.OnAgentSpeechCommitted` | voiceAgent.py:239-264 | new state and directive are exactly `CallFlow.OnAgentSpeech` of the old state |
| `VoiceAgent.BookingCallScenario` | voiceAgent.py:210-264 | on fresh objects, a booking call writes exactly one row, with the whole transcript and the record, and ends with disconnect |
| `VoiceAgent.EarlyGoodbyeScenario` | voiceAgent.py:227-264 | on fresh objects, an immediate goodbye writes a row with only that utterance and the unset record. Then the closing phrase writes a second row, and the directives are say-closing-phrase, then disconnect |
| `GuardedCall.StepAddsRows` | voiceAgent.py:227-261 | one step adds at most one row and neither reads nor changes the rows already written |
| `GuardedCall.GuardedRunTracks` | voiceAgent.py:227-261 | the guarded call keeps the same history, record and flag as the unguarded one. It is Closed exactly when the unguarded call has written, and its rows are the unguarded call's first row |
| `GuardedCall.GuardedCallWritesAtMostOnce` | voiceAgent.py:255-261 | from a fresh call, the guarded variant writes at most one row. It is Closed exactly when it has written, and that row is the source's first row |

## Left out

- Audio, speech-to-text, text-to-speech and the language model are not modelled. Which tool the model calls, and when, is an arbitrary sequence of `CallFlow.Event`s. The system prompt, `prewarm`, `cli.run_app`, the start-up environment checks and the SDK wiring are left out too.
- Callbacks run one at a time. `asyncio.create_task(agent.say(...))` and `ctx.room.disconnect()` become the returned `Directive`, with no scheduling or interleaving.
- The store client and `.insert(...).execute()` are modelled as appending one `CallRecord` to `writes`, and a `StoreOutcome` says whether it raised. The Python `str()` rendering of `from`, of the transcript list and of the call id is not modelled: the row keeps the values.
- The SMTP message, its HTML body and the sending are modelled as the `Confirmation` value with a `Delivery` outcome. The code swallows the outcome, so it affects nothing.
- Timestamps (`datetime.now()`) are parameters. A transcript entry keeps timestamp, speaker and text instead of the rendered `"[ts] USER:\n...\n\n"` string.
- The goodbye test reads `str(message)` while the transcript keeps `message.content`. Both are modelled as one text, so any phrase that only the message's full rendering contains is not modelled.
- `log_queue`, `finish_queue`, `print` and `logger` calls are logging only.
- `PyStr.LowerLowers`: `PyStr.Lower` does not model `str.lower()` outside ASCII. Non-ASCII letters are left unchanged, but Python maps some of them onto ASCII: the Kelvin sign U+212A lower-cases to `k`, so "TA\u212AE CARE" is a goodbye in the source and not in the model.
- `Intake.CheckGoodbyeIgnoresCase`: case-insensitivity is proved for ASCII upper-casing only. Python's `upper()` also maps some non-ASCII letters onto ASCII: for m = "ſee you" (long s, U+017F), `m.upper()` is "SEE YOU", so `check_goodbye(m.upper())` is true while `check_goodbye(m)` is false.
- After the first `get_patient_info`, the source makes the history's snapshot the same dict object as the toolset's record. The model copies the value at each call instead. Nothing else writes either dict, so the values agree (`CallFlow.RunKeepsSnapshot`).
- `callcenterapp/app/page.tsx` (the viewer UI and its transcript display) and `supabaseTest.py` (a one-off insert) are not part of this model.

## Findings

| source | as written | input that shows it | evidently intended | confidence | as-written member | corrected member |
|---|---|---|---|---|---|---|
| voiceAgent.py:50-54 | `conversation_history` is module-level and never reset. Each call gets a new toolset but keeps the previous call's transcript, call id, `from` and patient snapshot | a second call served by the same worker process, whose caller's first utterance is "bye": the row written holds the previous call's transcript and the previous caller's record | each call starts from a fresh history, so the row holds only this call's turns and the unset record | low: not executed; happens only if a worker process serves more than one call | `CallFlow.ReusedHistoryLeaks` | `VoiceAgent.EarlyGoodbyeScenario` |
