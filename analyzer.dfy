/**
  The heuristic news classifier of the analyzer component.

  `Math.random()` becomes an explicit draw `r` in [0, 1), so the confidence
  is exact real arithmetic; the simulated inference delay is not modelled.
 */
module Analyzer {
  import opened JsString

  datatype Prediction = Real | Fake

  /** The record the classifier returns and the result card displays. */
  datatype AnalysisResult = AnalysisResult(
    prediction: Prediction,
    confidence: real,
    explanation: string,
    factors: seq<string>)

  /** A value `Math.random()` can return. */
  type RandomDraw = r: real | 0.0 <= r < 1.0

  /** The six words whose presence makes a text look sensational. */
  const SuspiciousWords: seq<string> :=
    ["sensational", "shocking", "unbelievable", "secret", "exposed", "viral"]

  /** The run of exclamation marks that counts as excessive punctuation. */
  const ExcessivePunctuation: string := "!!!"

  /** Texts shorter than this many UTF-16 code units are judged fake. */
  const MinLength: nat := 50

  // ---------------------------------------------------------------------------
  // Feature extraction
  // ---------------------------------------------------------------------------

  predicate Distinct(words: seq<string>) {
    forall i, j :: 0 <= i < j < |words| ==> words[i] != words[j]
  }

  /** The words of `words` that `lowered` includes, in their original order (`Array.prototype.filter`). */
  function MatchedWords(words: seq<string>, lowered: string): (m: seq<string>)
    ensures |m| <= |words|
    ensures forall w :: w in m <==> w in words && Contains(lowered, w)
  {
    if words == [] then []
    else (if Contains(lowered, words[0]) then [words[0]] else []) + MatchedWords(words[1..], lowered)
  }

  /** How many vocabulary words occur in the text, compared case-insensitively. */
  function SuspiciousCount(text: string): (n: nat)
    ensures n <= |SuspiciousWords|
  {
    |MatchedWords(SuspiciousWords, Lower(text))|
  }

  /** The set of vocabulary words that occur somewhere in `text`, ignoring ASCII case. */
  ghost function PresentWords(text: string): set<string> {
    set w | w in SuspiciousWords && Occurs(Lower(text), w)
  }

  /** The classifier's decision: too many suspicious words, "!!!", or a short raw text. */
  predicate IsFake(text: string): (fake: bool)
    ensures SuspiciousCount(text) >= 2 ==> fake
    ensures !fake ==> |text| >= MinLength / 2
  {
    SuspiciousCount(text) > 1 || Contains(text, ExcessivePunctuation) || Utf16Length(text) < MinLength
  }

  // ---------------------------------------------------------------------------
  // Scoring and explanation
  // ---------------------------------------------------------------------------

  /** The lowest confidence a prediction can carry; the draw adds up to 0.3 on top. */
  function BaseConfidence(p: Prediction): (base: real)
    ensures 0.6 <= base <= 0.7
    ensures base == 0.7 <==> p == Fake
    ensures base == 0.6 <==> p.Real?
  {
    if p == Fake then 0.7 else 0.6
  }

  const FakeExplanation: string :=
    "Teks menunjukkan karakteristik berita hoax dengan penggunaan bahasa sensasional dan kurangnya sumber yang kredibel."
  const RealExplanation: string :=
    "Teks menunjukkan karakteristik berita legitimate dengan struktur yang baik dan informasi yang dapat diverifikasi."
  const FakeFactors: seq<string> := ["Bahasa sensasional", "Kurang sumber kredibel", "Struktur tidak standar"]
  const RealFactors: seq<string> := ["Struktur berita standar", "Bahasa objektif", "Informasi terverifikasi"]

  /** The canned explanation shown for a label; the two labels get different texts. */
  function Explanation(p: Prediction): (e: string)
    ensures e == FakeExplanation <==> p == Fake
    ensures e == RealExplanation <==> p.Real?
  {
    ExplanationLengths();
    assert FakeExplanation != RealExplanation;
    if p == Fake then FakeExplanation else RealExplanation
  }

  /** The three canned factors shown for a label. */
  function Factors(p: Prediction): (f: seq<string>)
    ensures |f| == 3
  {
    if p == Fake then FakeFactors else RealFactors
  }

  /** The confidence band each prediction lands in. */
  predicate ConfidenceInBand(p: Prediction, c: real) {
    (p == Fake ==> 0.7 <= c < 1.0) && (p == Real ==> 0.6 <= c < 0.9)
  }

  /** What every analysis satisfies: a confidence in its band, and the canned texts of its label. */
  predicate WellFormed(a: AnalysisResult) {
    ConfidenceInBand(a.prediction, a.confidence)
    && 0.6 <= a.confidence < 1.0
    && a.explanation == Explanation(a.prediction)
    && a.factors == Factors(a.prediction)
  }

  /** `Math.random() * 0.3` on top of the label's base: a value inside the label's band. */
  function Confidence(p: Prediction, r: RandomDraw): (c: real)
    ensures ConfidenceInBand(p, c)
    ensures 0.6 <= c < 1.0
  {
    r * 0.3 + BaseConfidence(p)
  }

  /** `analyzeText`: classify the raw text and attach a noisy confidence and the canned texts. */
  function AnalyzeText(text: string, r: RandomDraw): (a: AnalysisResult)
    ensures a.prediction == Fake <==> IsFake(text)
    ensures WellFormed(a)
    ensures |a.factors| == 3
  {
    var p := if IsFake(text) then Fake else Real;
    AnalysisResult(p, Confidence(p, r), Explanation(p), Factors(p))
  }

  // ---------------------------------------------------------------------------
  // Properties of the classifier
  // ---------------------------------------------------------------------------

  ghost function Elements(s: seq<string>): set<string> {
    set x | x in s
  }

  /** A sequence without repetitions has as many distinct elements as entries. */
  lemma {:induction false} DistinctCardinality(s: seq<string>)
    requires Distinct(s)
    ensures |Elements(s)| == |s|
  {
    if s != [] {
      assert Distinct(s[1..]);
      DistinctCardinality(s[1..]);
      assert s[0] !in s[1..];
      assert Elements(s) == {s[0]} + Elements(s[1..]);
    }
  }

  /** Filtering a sequence without repetitions yields one without repetitions. */
  lemma {:induction false} MatchedWordsDistinct(words: seq<string>, lowered: string)
    requires Distinct(words)
    ensures Distinct(MatchedWords(words, lowered))
  {
    if words != [] {
      assert Distinct(words[1..]);
      MatchedWordsDistinct(words[1..], lowered);
      assert words[0] !in MatchedWords(words[1..], lowered);
    }
  }

  /** The count is the number of DISTINCT vocabulary words present, however often each occurs. */
  lemma SuspiciousCountIsPresentWords(text: string)
    ensures SuspiciousCount(text) == |PresentWords(text)|
  {
    var lowered := Lower(text);
    var matched := MatchedWords(SuspiciousWords, lowered);
    MatchedWordsDistinct(SuspiciousWords, lowered);
    DistinctCardinality(matched);
    forall w | w in SuspiciousWords ensures Contains(lowered, w) <==> Occurs(lowered, w) {
      ContainsIffOccurs(lowered, w);
    }
    assert Elements(matched) == PresentWords(text);
  }

  /** The count is the size of whichever set of vocabulary words the lowered text includes. */
  lemma CountOfPresentSet(text: string, present: set<string>)
    requires forall w :: w in present ==> w in SuspiciousWords
    requires forall w :: w in SuspiciousWords ==> (Contains(Lower(text), w) <==> w in present)
    ensures SuspiciousCount(text) == |present|
  {
    SuspiciousCountIsPresentWords(text);
    forall w | w in SuspiciousWords ensures Contains(Lower(text), w) <==> Occurs(Lower(text), w) {
      ContainsIffOccurs(Lower(text), w);
    }
    assert PresentWords(text) == present;
  }

  /**
    The count of a text given in two halves joined at a space: the words of
    `present` occur in the lowered text, and every other vocabulary word has no
    trigram in either lowered half.
   */
  lemma CountOfJoin(a: string, b: string, la: string, lb: string, present: set<string>)
    requires Lower(a) == la && Lower(b) == lb
    requires la != [] && la[|la| - 1] == ' '
    requires forall w :: w in present ==> w in SuspiciousWords && Occurs(la + lb, w)
    requires forall w :: w in SuspiciousWords && w !in present ==> NoTrigram(la, w) && NoTrigram(lb, w)
    ensures SuspiciousCount(a + b) == |present|
  {
    LowerConcat(a, b);
    forall w | w in present ensures Contains(Lower(a + b), w) {
      ContainsIffOccurs(la + lb, w);
    }
    forall w | w in SuspiciousWords && w !in present ensures !Contains(Lower(a + b), w) {
      NoTrigramConcat(la, lb, w);
      AbsentByTrigram(la + lb, w);
    }
    CountOfPresentSet(a + b, present);
  }

  /** A text given in two halves joined at a space has no "!!!" when neither lowered half holds three marks in a row. */
  lemma CalmJoin(a: string, b: string, la: string, lb: string)
    requires Lower(a) == la && Lower(b) == lb
    requires la != [] && la[|la| - 1] == ' '
    requires NoTrigram(la, ExcessivePunctuation) && NoTrigram(lb, ExcessivePunctuation)
    ensures !Contains(a + b, ExcessivePunctuation)
  {
    NoTrigramConcat(la, lb, ExcessivePunctuation);
    LowerConcat(a, b);
    NoTrigramBeforeLower(a + b, ExcessivePunctuation);
    AbsentByTrigram(a + b, ExcessivePunctuation);
  }

  /** The label rule, stated over occurrences rather than over the scanning code. */
  lemma PredictionRule(text: string)
    ensures IsFake(text) <==> |PresentWords(text)| > 1 || Occurs(text, "!!!") || Utf16Length(text) < 50
  {
    SuspiciousCountIsPresentWords(text);
    ContainsIffOccurs(text, ExcessivePunctuation);
  }

  /** Only the confidence depends on the draw: the label and the texts do not. */
  lemma LabelIgnoresDraw(text: string, r1: RandomDraw, r2: RandomDraw)
    ensures AnalyzeText(text, r1).prediction == AnalyzeText(text, r2).prediction
    ensures AnalyzeText(text, r1).explanation == AnalyzeText(text, r2).explanation
    ensures AnalyzeText(text, r1).factors == AnalyzeText(text, r2).factors
    ensures r1 < r2 ==> AnalyzeText(text, r1).confidence < AnalyzeText(text, r2).confidence
  {
  }

  lemma ExplanationLengths()
    ensures |FakeExplanation| == 115 && |RealExplanation| == 113
  {
  }

  /** The two canned explanations differ. */
  lemma ExplanationsDiffer()
    ensures Explanation(Fake) != Explanation(Real)
  {
    ExplanationLengths();
  }

  /** No factor appears under both labels. */
  lemma FactorsDisjoint()
    ensures forall f :: f in Factors(Fake) ==> f !in Factors(Real)
  {
    assert |FakeFactors[0]| == 18 && |FakeFactors[1]| == 22 && |FakeFactors[2]| == 22;
    assert |RealFactors[0]| == 23 && |RealFactors[1]| == 15 && |RealFactors[2]| == 23;
  }

  /** The explanation and the factors of an analysis are chosen by its label alone, and the two labels share none of them. */
  lemma ExplanationByLabel(a1: AnalysisResult, a2: AnalysisResult)
    requires WellFormed(a1) && WellFormed(a2)
    ensures a1.prediction == a2.prediction <==> a1.explanation == a2.explanation
    ensures a1.prediction == a2.prediction <==> a1.factors == a2.factors
    ensures a1.prediction != a2.prediction ==> forall f :: f in a1.factors ==> f !in a2.factors
  {
    ExplanationsDiffer();
    FactorsDisjoint();
    if a1.prediction != a2.prediction {
      assert a1.factors[0] !in a2.factors;
    }
  }

  /** Adding text on either side never lowers the suspicious-word count. */
  lemma CountNeverDropsInContext(a: string, t: string, b: string)
    ensures SuspiciousCount(t) <= SuspiciousCount(a + t + b)
  {
    SuspiciousCountIsPresentWords(t);
    SuspiciousCountIsPresentWords(a + t + b);
    LowerConcat(a, t);
    LowerConcat(a + t, b);
    forall w | w in PresentWords(t) ensures w in PresentWords(a + t + b) {
      OccursInContext(Lower(a), Lower(t), Lower(b), w);
    }
    assert PresentWords(t) <= PresentWords(a + t + b);
    SubsetCardinality(PresentWords(t), PresentWords(a + t + b));
  }

  lemma SubsetCardinality(s: set<string>, u: set<string>)
    requires s <= u
    ensures |s| <= |u|
  {
    assert u == s + (u - s);
  }
}
