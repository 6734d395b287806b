/**
  The classifier's verdict, proved on concrete texts: a sensational headline,
  a text that is too short, a neutral sentence, and one suspicious word
  repeated in mixed case. Each long text is written as two halves joined at a space,
  which is how the proofs take it apart: each half is lower-cased on its own,
  and each word that does not occur is ruled out by a letter the half lacks.
 */
module Scenarios {
  import opened JsString
  import opened Analyzer

  /** The vocabulary and the punctuation run: everything the classifier looks for. */
  const Sought: seq<string> := SuspiciousWords + [ExcessivePunctuation]

  // ---------------------------------------------------------------------------
  // A sensational headline
  // ---------------------------------------------------------------------------

  const HeadlineStart: string := "URGENT: A Doctor "
  const HeadlineEnd: string := "SECRET cure EXPOSED!!!"
  const Headline: string := HeadlineStart + HeadlineEnd
  const HeadlineStartLow: string := "urgent: a doctor "
  const HeadlineEndLow: string := "secret cure exposed!!!"

  lemma HeadlineStartLowered()
    ensures Lower(HeadlineStart) == HeadlineStartLow
  {
  }

  lemma HeadlineEndLowered()
    ensures Lower(HeadlineEnd) == HeadlineEndLow
  {
  }

  lemma HeadlineStartQuiet()
    ensures forall w :: w in SuspiciousWords ==> NoTrigram(HeadlineStartLow, w)
  {
    var alphabet := "acdegnortu: ";
    assert DrawnFrom(HeadlineStartLow, alphabet);
    forall w | w in SuspiciousWords ensures NoTrigram(HeadlineStartLow, w) {
      NoTrigramOutside(HeadlineStartLow, alphabet, w);
    }
  }

  lemma HeadlineEndQuiet()
    ensures forall w :: w in SuspiciousWords && w !in {"secret", "exposed"} ==> NoTrigram(HeadlineEndLow, w)
  {
    var alphabet := "cdeoprstux !";
    assert DrawnFrom(HeadlineEndLow, alphabet);
    forall w | w in SuspiciousWords && w !in {"secret", "exposed"} ensures NoTrigram(HeadlineEndLow, w) {
      NoTrigramOutside(HeadlineEndLow, alphabet, w);
    }
  }

  lemma HeadlineCount()
    ensures SuspiciousCount(Headline) == 2
  {
    HeadlineStartLowered();
    HeadlineEndLowered();
    HeadlineStartQuiet();
    HeadlineEndQuiet();
    PresentInSuffix(HeadlineStartLow, HeadlineEndLow, "secret", 0);
    PresentInSuffix(HeadlineStartLow, HeadlineEndLow, "exposed", 12);
    CountOfJoin(HeadlineStart, HeadlineEnd, HeadlineStartLow, HeadlineEndLow, {"secret", "exposed"});
  }

  /** Two distinct suspicious words and "!!!": fake, with a confidence of at least 0.7. */
  lemma HeadlineIsFake(r: RandomDraw)
    ensures SuspiciousCount(Headline) == 2
    ensures Occurs(Headline, ExcessivePunctuation)
    ensures AnalyzeText(Headline, r).prediction == Fake
    ensures 0.7 <= AnalyzeText(Headline, r).confidence < 1.0
  {
    HeadlineCount();
    PresentInSuffix(HeadlineStart, HeadlineEnd, ExcessivePunctuation, 19);
  }

  // ---------------------------------------------------------------------------
  // A text that is too short
  // ---------------------------------------------------------------------------

  /** A two-character text is fake on length alone. */
  lemma ShortTextIsFake(r: RandomDraw)
    ensures Utf16Length("ok") == 2
    ensures AnalyzeText("ok", r).prediction == Fake
  {
  }

  // ---------------------------------------------------------------------------
  // A neutral sentence
  // ---------------------------------------------------------------------------

  const NeutralStart: string := "The Old Bridge will open again "
  const NeutralEnd: string := "on Monday at Noon today."
  const Neutral: string := NeutralStart + NeutralEnd
  const NeutralStartLow: string := "the old bridge will open again "
  const NeutralEndLow: string := "on monday at noon today."

  lemma NeutralStartLowered()
    ensures Lower(NeutralStart) == NeutralStartLow
  {
  }

  lemma NeutralEndLowered()
    ensures Lower(NeutralEnd) == NeutralEndLow
  {
  }

  lemma NeutralStartQuiet()
    ensures forall w :: w in Sought ==> NoTrigram(NeutralStartLow, w)
  {
    var alphabet := "abdeghilnoprtw ";
    assert DrawnFrom(NeutralStartLow, alphabet);
    forall w | w in Sought ensures NoTrigram(NeutralStartLow, w) {
      NoTrigramOutside(NeutralStartLow, alphabet, w);
    }
  }

  lemma NeutralEndQuiet()
    ensures forall w :: w in Sought ==> NoTrigram(NeutralEndLow, w)
  {
    var alphabet := "admnoty. ";
    assert DrawnFrom(NeutralEndLow, alphabet);
    forall w | w in Sought ensures NoTrigram(NeutralEndLow, w) {
      NoTrigramOutside(NeutralEndLow, alphabet, w);
    }
  }

  lemma NeutralCount()
    ensures SuspiciousCount(Neutral) == 0
  {
    NeutralStartLowered();
    NeutralEndLowered();
    NeutralStartQuiet();
    NeutralEndQuiet();
    CountOfJoin(NeutralStart, NeutralEnd, NeutralStartLow, NeutralEndLow, {});
  }

  lemma NeutralCalm()
    ensures !Contains(Neutral, ExcessivePunctuation)
  {
    NeutralStartLowered();
    NeutralEndLowered();
    NeutralStartQuiet();
    NeutralEndQuiet();
    assert ExcessivePunctuation in Sought;
    CalmJoin(NeutralStart, NeutralEnd, NeutralStartLow, NeutralEndLow);
  }

  /** Fifty-five characters, no suspicious word, no "!!!": real, with a confidence below 0.9. */
  lemma NeutralIsReal(r: RandomDraw)
    ensures Utf16Length(Neutral) >= 55
    ensures AnalyzeText(Neutral, r).prediction == Real
    ensures 0.6 <= AnalyzeText(Neutral, r).confidence < 0.9
  {
    NeutralCount();
    NeutralCalm();
    assert |Neutral| == 55;
  }

  // ---------------------------------------------------------------------------
  // One word repeated
  // ---------------------------------------------------------------------------

  const RepeatedStart: string := "Secret SECRET secret Secret "
  const RepeatedEnd: string := "secret Secret SECRET secret"
  const Repeated: string := RepeatedStart + RepeatedEnd
  const RepeatedStartLow: string := "secret secret secret secret "
  const RepeatedEndLow: string := "secret secret secret secret"

  lemma RepeatedStartLowered()
    ensures Lower(RepeatedStart) == RepeatedStartLow
  {
  }

  lemma RepeatedEndLowered()
    ensures Lower(RepeatedEnd) == RepeatedEndLow
  {
  }

  /** Both lowered halves are written with the letters of "secret" and spaces alone. */
  lemma RepeatedQuiet()
    ensures forall w :: w in Sought && w != "secret" ==>
      NoTrigram(RepeatedStartLow, w) && NoTrigram(RepeatedEndLow, w)
  {
    var alphabet := "cerst ";
    assert DrawnFrom(RepeatedStartLow, alphabet);
    assert DrawnFrom(RepeatedEndLow, alphabet);
    forall w | w in Sought && w != "secret"
      ensures NoTrigram(RepeatedStartLow, w) && NoTrigram(RepeatedEndLow, w)
    {
      NoTrigramOutside(RepeatedStartLow, alphabet, w);
      NoTrigramOutside(RepeatedEndLow, alphabet, w);
    }
  }

  lemma RepeatedCount()
    ensures SuspiciousCount(Repeated) == 1
  {
    RepeatedStartLowered();
    RepeatedEndLowered();
    RepeatedQuiet();
    PresentInSuffix(RepeatedStartLow, RepeatedEndLow, "secret", 0);
    CountOfJoin(RepeatedStart, RepeatedEnd, RepeatedStartLow, RepeatedEndLow, {"secret"});
  }

  lemma RepeatedCalm()
    ensures !Contains(Repeated, ExcessivePunctuation)
  {
    RepeatedStartLowered();
    RepeatedEndLowered();
    RepeatedQuiet();
    assert ExcessivePunctuation in Sought;
    CalmJoin(RepeatedStart, RepeatedEnd, RepeatedStartLow, RepeatedEndLow);
  }

  /** One suspicious word written eight times in mixed case counts once, so this long text is real. */
  lemma RepeatedWordCountsOnce(r: RandomDraw)
    ensures SuspiciousCount(Repeated) == 1
    ensures AnalyzeText(Repeated, r).prediction == Real
  {
    RepeatedCount();
    RepeatedCalm();
    assert |Repeated| == 55;
  }
}
