/**
 * The value side of the intake toolset: the eight-field patient record,
 * the fixed phrases the agent speaks, the goodbye detector and the
 * confirmation e-mail attempt.
 */
module Intake {
  import opened PyStr

  /** The sentinel every patient field holds until the caller supplies it. */
  const Unset: string := "NULL"

  datatype PatientInfo = PatientInfo(
    name: string,
    dob: string,
    insurance: string,
    referral: string,
    complaint: string,
    address: string,
    phone: string,
    email: string)

  /** The record at the start of a call: every field is the sentinel. */
  const NoPatientInfo: PatientInfo :=
    PatientInfo(Unset, Unset, Unset, Unset, Unset, Unset, Unset, Unset)

  const SavedReply: string :=
    "Thank you for providing the information. I have saved it. Now I will check if the doctor is available."
  const AvailabilityReply: string :=
    "Doctor Shahil is available for appointment during your requested time. Should I book the appointment?"
  const BookedReply: string :=
    "Appointment booked successfully! I'll send you a confirmation email with all the details. Thank you for choosing Shahil's Medical Office. Goodbye!"
  const ClosingPhrase: string :=
    "Thank you for calling Shahil's medical office. Have a great day!"

  /** What the mail server did with a confirmation e-mail. */
  datatype Delivery = Delivered | SendFailed

  /** The confirmation e-mail `book_appointment` tries to send, if any. */
  datatype Confirmation =
    | NotAttempted
    | Attempted(to: string, patient: PatientInfo, outcome: Delivery)

  /**
   * A confirmation is attempted exactly when the e-mail field is not the
   * sentinel; it goes to that address and carries the current record.
   * The outcome is reported to nobody but the log.
   */
  function ConfirmationFor(info: PatientInfo, delivery: Delivery): (c: Confirmation)
    ensures c.Attempted? <==> info.email != Unset
    ensures c.Attempted? ==> c.to == info.email && c.patient == info && c.outcome == delivery
  {
    if info.email != Unset then Attempted(info.email, info, delivery) else NotAttempted
  }

  /** The phrases whose presence in an utterance ends the call. */
  const GoodbyePhrases: seq<string> := [
    "goodbye", "bye", "thank you bye", "thanks bye", "have a good day",
    "see you", "take care", "end call", "hang up"
  ]

  /** The same test with the three phrases that contain "bye" folded into "bye". */
  const CorePhrases: seq<string> := [
    "bye", "have a good day", "see you", "take care", "end call", "hang up"
  ]

  /** `any(phrase in text for phrase in phrases)` */
  predicate AnyPhraseIn(phrases: seq<string>, text: string)
    ensures AnyPhraseIn(phrases, text) <==> exists k :: 0 <= k < |phrases| && Contains(text, phrases[k])
  {
    |phrases| > 0 && (Contains(text, phrases[0]) || AnyPhraseIn(phrases[1..], text))
  }

  /**
   * `message.lower().strip()`, written with the strip first: the two orders
   * agree on every string (`PyStr.StripLower`).
   */
  function Normalize(message: string): string {
    Lower(Strip(message))
  }

  /** No goodbye phrase is empty or starts or ends with whitespace. */
  lemma PhrasesAreTrimmed()
    ensures forall k :: 0 <= k < |GoodbyePhrases| ==>
      var p := GoodbyePhrases[k]; |p| > 0 && !IsSpace(p[0]) && !IsSpace(p[|p| - 1])
  {
  }

  /**
   * The `strip()` never changes the answer: since no phrase starts or ends
   * with whitespace, testing the merely lower-cased utterance is the same.
   */
  lemma CheckGoodbyeIgnoresStrip(message: string)
    ensures AnyPhraseIn(GoodbyePhrases, Normalize(message)) == AnyPhraseIn(GoodbyePhrases, Lower(message))
  {
    PhrasesAreTrimmed();
    forall k | 0 <= k < |GoodbyePhrases|
      ensures Contains(Normalize(message), GoodbyePhrases[k]) <==> Contains(Lower(message), GoodbyePhrases[k])
    {
      ContainsIgnoresStrip(message, GoodbyePhrases[k]);
    }
  }

  /**
   * `check_goodbye`: the utterance is a goodbye exactly when some listed
   * phrase occurs anywhere in its lower-cased text (the strip is immaterial).
   */
  predicate CheckGoodbye(message: string)
    ensures CheckGoodbye(message) == AnyPhraseIn(GoodbyePhrases, Lower(message))
  {
    CheckGoodbyeIgnoresStrip(message);
    AnyPhraseIn(GoodbyePhrases, Normalize(message))
  }

  /** The answer does not depend on letter case: ASCII upper-casing the utterance changes nothing. */
  lemma CheckGoodbyeIgnoresCase(message: string)
    ensures CheckGoodbye(Upper(message)) == CheckGoodbye(message)
  {
    StripUpper(message);
    LowerOfUpper(Strip(message));
    assert Normalize(Upper(message)) == Normalize(message);
  }

  /**
   * "goodbye", "thank you bye" and "thanks bye" are redundant: each contains
   * "bye", so on any normalised text the nine-phrase test equals the
   * six-phrase test.
   */
  lemma CorePhrasesSuffice(text: string)
    ensures AnyPhraseIn(GoodbyePhrases, text) == AnyPhraseIn(CorePhrases, text)
  {
    assert OccursAt("goodbye", "bye", 4);
    assert OccursAt("thank you bye", "bye", 10);
    assert OccursAt("thanks bye", "bye", 7);
    if Contains(text, "goodbye") {
      ContainsTransitive(text, "goodbye", "bye");
    }
    if Contains(text, "thank you bye") {
      ContainsTransitive(text, "thank you bye", "bye");
    }
    if Contains(text, "thanks bye") {
      ContainsTransitive(text, "thanks bye", "bye");
    }
    assert AnyPhraseIn(GoodbyePhrases, text) ==> AnyPhraseIn(CorePhrases, text) by {
      if AnyPhraseIn(GoodbyePhrases, text) {
        var k :| 0 <= k < |GoodbyePhrases| && Contains(text, GoodbyePhrases[k]);
        assert Contains(text, CorePhrases[if k <= 3 then 0 else k - 3]);
      }
    }
    assert AnyPhraseIn(CorePhrases, text) ==> AnyPhraseIn(GoodbyePhrases, text) by {
      if AnyPhraseIn(CorePhrases, text) {
        var k :| 0 <= k < |CorePhrases| && Contains(text, CorePhrases[k]);
        assert Contains(text, GoodbyePhrases[if k == 0 then 1 else k + 3]);
      }
    }
  }

  /** A phrase is absent from any text that lacks one of its characters. */
  lemma AbsentWhenCharMissing(text: string, phrase: string, j: nat)
    requires j < |phrase| && phrase[j] !in text
    ensures !Contains(text, phrase)
  {
  }

  /** An utterance is a goodbye as soon as its lower-cased text holds a listed phrase somewhere. */
  lemma GoodbyeWhenPhraseAt(message: string, k: nat, i: nat)
    requires k < |GoodbyePhrases| && OccursAt(Lower(message), GoodbyePhrases[k], i)
    ensures CheckGoodbye(message)
  {
  }

  /** Padding and upper case do not hide a goodbye. */
  lemma PaddedUpperCaseIsGoodbye()
    ensures CheckGoodbye("  BYE now")
  {
    assert Lower("  BYE now") == "  bye now";
    GoodbyeWhenPhraseAt("  BYE now", 1, 2);
  }

  lemma TitleCaseIsGoodbye()
    ensures CheckGoodbye("Thank You Bye")
  {
    assert Lower("Thank You Bye") == "thank you bye";
    GoodbyeWhenPhraseAt("Thank You Bye", 2, 0);
  }

  /** The accepted false positive: "bye" mid-sentence ends the call. */
  lemma ByeMidSentenceIsGoodbye()
    ensures CheckGoodbye("I don't want to say bye yet")
  {
    assert Lower("I don't want to say bye yet") == "i don't want to say bye yet";
    GoodbyeWhenPhraseAt("I don't want to say bye yet", 1, 20);
  }

  /** An utterance whose lower-cased text holds none of the six core phrases is no goodbye. */
  lemma NotGoodbyeWithoutCorePhrase(message: string)
    requires !AnyPhraseIn(CorePhrases, Lower(message))
    ensures !CheckGoodbye(message)
  {
    CorePhrasesSuffice(Lower(message));
  }

  lemma CorePhrasesAbsentFromRebook()
    ensures !AnyPhraseIn(CorePhrases, "i'd like to rebook")
  {
    var text := "i'd like to rebook";
    AbsentWhenCharMissing(text, "bye", 1);
    AbsentWhenCharMissing(text, "have a good day", 0);
    AbsentWhenCharMissing(text, "see you", 0);
    AbsentWhenCharMissing(text, "take care", 1);
    AbsentWhenCharMissing(text, "end call", 1);
    AbsentWhenCharMissing(text, "hang up", 0);
  }

  /** Unrelated text that happens to contain "b" and "e" is not a goodbye. */
  lemma RebookIsNotGoodbye()
    ensures !CheckGoodbye("I'd like to rebook")
  {
    CorePhrasesAbsentFromRebook();
    assert Lower("I'd like to rebook") == "i'd like to rebook";
    NotGoodbyeWithoutCorePhrase("I'd like to rebook");
  }
}
