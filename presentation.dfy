/**
  The pure mappings the result card applies to an analysis: the colour and
  icon chosen by the label, the classification badge, and the confidence tier
  shown under the score.
 */
module Presentation {
  import opened Analyzer

  datatype Icon = CheckCircle | AlertTriangle

  /** The word printed under the confidence score. */
  datatype Tier = SangatTinggi | Tinggi | Sedang

  function TierLabel(t: Tier): (shown: string)
    ensures shown == "Sangat Tinggi" <==> t == SangatTinggi
    ensures shown == "Tinggi" <==> t == Tinggi
    ensures shown == "Sedang" <==> t == Sedang
  {
    match t
    case SangatTinggi => "Sangat Tinggi"
    case Tinggi => "Tinggi"
    case Sedang => "Sedang"
  }

  /** `getResultColor`: the theme colour of a verdict. */
  function ResultColor(p: Prediction): (colour: string)
    ensures colour == "success" <==> p == Real
    ensures p == Fake ==> colour == "destructive"
  {
    if p == Real then "success" else "destructive"
  }

  /** `getResultIcon`: a check mark for real news, a warning triangle otherwise. */
  function ResultIcon(p: Prediction): (icon: Icon)
    ensures icon == CheckCircle <==> p == Real
  {
    if p == Real then CheckCircle else AlertTriangle
  }

  /** The badge variant of the classification. */
  function BadgeVariant(p: Prediction): (variant: string)
    ensures variant == "default" <==> p == Real
    ensures p == Fake ==> variant == "destructive"
  {
    if p == Real then "default" else "destructive"
  }

  /** The badge text of the classification. */
  function BadgeLabel(p: Prediction): (text: string)
    ensures text == "\U{2713} BERITA ASLI" <==> p == Real
    ensures p == Fake ==> text == "\U{26A0} BERITA HOAX"
  {
    if p == Real then "\U{2713} BERITA ASLI" else "\U{26A0} BERITA HOAX"
  }

  /** The tier of a confidence: strictly above 0.8, strictly above 0.6, or neither. */
  function ConfidenceTier(c: real): (t: Tier)
    ensures t == SangatTinggi <==> c > 0.8
    ensures t == Tinggi <==> 0.6 < c <= 0.8
    ensures t == Sedang <==> c <= 0.6
  {
    if c > 0.8 then SangatTinggi else if c > 0.6 then Tinggi else Sedang
  }

  function TierRank(t: Tier): nat {
    match t
    case Sedang => 0
    case Tinggi => 1
    case SangatTinggi => 2
  }

  /** A higher confidence never shows a lower tier. */
  lemma TierMonotone(c1: real, c2: real)
    requires c1 <= c2
    ensures TierRank(ConfidenceTier(c1)) <= TierRank(ConfidenceTier(c2))
  {
  }

  /**
    The tier a confidence drawn for a label shows: a fake verdict is never
    "Sedang"; a real one is "Sedang" only for a draw of exactly zero;
    "Sangat Tinggi" needs a draw above 1/3 (fake) or above 2/3 (real).
   */
  lemma TierOfConfidence(p: Prediction, r: RandomDraw)
    ensures p == Fake ==> ConfidenceTier(Confidence(p, r)) != Sedang
    ensures ConfidenceTier(Confidence(p, r)) == Sedang <==> p == Real && r == 0.0
    ensures ConfidenceTier(Confidence(p, r)) == SangatTinggi
        <==> (p == Fake && r > 1.0 / 3.0) || (p == Real && r > 2.0 / 3.0)
  {
  }

  /** The same, for the confidence of an analysis. */
  lemma TierOfAnalysis(text: string, r: RandomDraw)
    ensures var a := AnalyzeText(text, r);
      (a.prediction == Fake ==> ConfidenceTier(a.confidence) != Sedang)
      && (ConfidenceTier(a.confidence) == Sedang <==> a.prediction == Real && r == 0.0)
  {
    var a := AnalyzeText(text, r);
    assert a.confidence == Confidence(a.prediction, r);
    TierOfConfidence(a.prediction, r);
  }

  /**
    The card never mixes verdicts: the badge text is the "real" one exactly
    when the colour is "success", exactly when the icon is the check mark and
    exactly when the badge variant is "default"; and the colour is
    "destructive" exactly when the badge variant is.
   */
  lemma CardAgreesWithLabel(a: AnalysisResult)
    ensures BadgeLabel(a.prediction) == "\U{2713} BERITA ASLI" <==> ResultColor(a.prediction) == "success"
    ensures BadgeLabel(a.prediction) == "\U{2713} BERITA ASLI" <==> ResultIcon(a.prediction) == CheckCircle
    ensures BadgeLabel(a.prediction) == "\U{2713} BERITA ASLI" <==> BadgeVariant(a.prediction) == "default"
    ensures ResultColor(a.prediction) == "destructive" <==> BadgeVariant(a.prediction) == "destructive"
  {
  }
}
