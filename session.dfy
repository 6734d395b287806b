/**
  The analyzer component's session: the text and URL inputs, the busy flag,
  the result on display and the notifications raised so far.

  Each handler awaits the classifier, so it is split at that suspension
  point: a `Begin` method validates the input and enters the busy state, and
  `Complete` settles the pending job with the outcome the environment
  delivers (the classifier's draw, or a rejection). `HandleAnalyze` runs the
  two back to back, as one click does when nothing else happens meanwhile.
 */
module Session {
  import opened JsString
  import opened Analyzer

  datatype Option<T> = None | Some(value: T)

  /** The notification style: the library default or the destructive (red) one. */
  datatype Variant = Default | Destructive

  datatype Toast = Toast(title: string, description: string, variant: Variant)

  /** Which tab a submission came from. */
  datatype Tab = TextTab | UrlTab

  /** A submission that passed validation and awaits the analysis of `text`. */
  datatype Job = Job(tab: Tab, text: string)

  /** How the awaited analysis settles: with the classifier's draw, or by throwing. */
  datatype Outcome = Resolved(draw: RandomDraw) | Rejected

  /** The text the URL handler analyzes in place of fetched content, in two halves for the proofs. */
  const UrlPlaceholder: string := PlaceholderStart + PlaceholderEnd
  const PlaceholderStart: string := "Sample news content "
  const PlaceholderEnd: string := "extracted from URL..."

  /** The characters the placeholder is written in. */
  const PlaceholderAlphabet: string := "SURLacdeflmnoprstwx. "

  /** The text a submission hands to the classifier: the raw input for the text tab, the placeholder for the URL tab. */
  function ClassifierInput(tab: Tab, input: string): (text: string)
    ensures tab == UrlTab ==> Utf16Length(text) < MinLength
  {
    if tab == TextTab then input else PlaceholderLength(); UrlPlaceholder
  }

  /** The notification of a blank submission: destructive, on either tab. */
  function InputRequiredToast(tab: Tab): (t: Toast)
    ensures t.variant == Destructive
  {
    Toast("Input Required",
      if tab == TextTab then "Mohon masukkan teks berita untuk dianalisis"
      else "Mohon masukkan URL berita untuk dianalisis",
      Destructive)
  }

  /** The notification of a finished analysis: the default style, never destructive. */
  function SuccessToast(tab: Tab): (t: Toast)
    ensures t.variant == Default
  {
    if tab == TextTab then Toast("Analisis Selesai", "Berita berhasil dianalisis dengan machine learning", Default)
    else Toast("Analisis URL Selesai", "Konten dari URL berhasil dianalisis", Default)
  }

  /** The notification of a failed analysis: destructive, on either tab. */
  function FailureToast(tab: Tab): (t: Toast)
    ensures t.variant == Destructive
  {
    Toast("Error",
      if tab == TextTab then "Terjadi kesalahan saat menganalisis berita"
      else "Tidak dapat mengakses atau menganalisis URL tersebut",
      Destructive)
  }

  // ---------------------------------------------------------------------------
  // The URL placeholder
  // ---------------------------------------------------------------------------

  lemma PlaceholderLetters()
    ensures DrawnFrom(PlaceholderStart, PlaceholderAlphabet) && DrawnFrom(PlaceholderEnd, PlaceholderAlphabet)
  {
  }

  lemma PlaceholderLength()
    ensures Utf16Length(UrlPlaceholder) == 41
  {
    PlaceholderLetters();
    Utf16LengthInBmp(PlaceholderStart, PlaceholderAlphabet);
    Utf16LengthInBmp(PlaceholderEnd, PlaceholderAlphabet);
    Utf16LengthConcat(PlaceholderStart, PlaceholderEnd);
  }

  lemma PlaceholderCalm()
    ensures !Contains(UrlPlaceholder, ExcessivePunctuation)
  {
    PlaceholderLetters();
    assert DrawnFrom(UrlPlaceholder, PlaceholderAlphabet);
    NoTrigramOutside(UrlPlaceholder, PlaceholderAlphabet, ExcessivePunctuation);
    AbsentByTrigram(UrlPlaceholder, ExcessivePunctuation);
  }

  /** Whatever URL is entered, the analysis is of the 41-unit placeholder, which is too short: always fake, confidence at least 0.7. */
  lemma UrlAnalysisIsFake(url: string, r: RandomDraw)
    ensures Utf16Length(ClassifierInput(UrlTab, url)) == 41
    ensures AnalyzeText(ClassifierInput(UrlTab, url), r).prediction == Fake
    ensures 0.7 <= AnalyzeText(ClassifierInput(UrlTab, url), r).confidence < 1.0
  {
    PlaceholderLength();
  }

  /** The URL's content never reaches the classifier: two URLs with the same draw give the same analysis. */
  lemma UrlContentIgnored(url1: string, url2: string, r: RandomDraw)
    ensures ClassifierInput(UrlTab, url1) == ClassifierInput(UrlTab, url2)
    ensures AnalyzeText(ClassifierInput(UrlTab, url1), r) == AnalyzeText(ClassifierInput(UrlTab, url2), r)
  {
  }

  const PlaceholderStartLow: string := "sample news content "
  const PlaceholderEndLow: string := "extracted from url..."

  lemma PlaceholderStartLowered()
    ensures Lower(PlaceholderStart) == PlaceholderStartLow
  {
  }

  lemma PlaceholderEndLowered()
    ensures Lower(PlaceholderEnd) == PlaceholderEndLow
  {
  }

  /** In the first half every "s" is followed by "a" or a space, so no word starting "se" occurs. */
  lemma PlaceholderStartQuiet()
    ensures forall w :: w in SuspiciousWords ==> NoTrigram(PlaceholderStartLow, w)
  {
    var alphabet := "acelmnopstw ";
    assert DrawnFrom(PlaceholderStartLow, alphabet);
    forall w | w in SuspiciousWords && w[0] != 's' ensures NoTrigram(PlaceholderStartLow, w) {
      NoTrigramOutside(PlaceholderStartLow, alphabet, w);
    }
    forall w | w in SuspiciousWords && w[0] == 's' ensures NoTrigram(PlaceholderStartLow, w) {
      forall i | 0 <= i < |PlaceholderStartLow| - 2
        ensures !(PlaceholderStartLow[i] == w[0] && PlaceholderStartLow[i + 1] == w[1])
      {
      }
    }
  }

  lemma PlaceholderEndQuiet()
    ensures forall w :: w in SuspiciousWords ==> NoTrigram(PlaceholderEndLow, w)
  {
    var alphabet := "acdeflmortux. ";
    assert DrawnFrom(PlaceholderEndLow, alphabet);
    forall w | w in SuspiciousWords ensures NoTrigram(PlaceholderEndLow, w) {
      NoTrigramOutside(PlaceholderEndLow, alphabet, w);
    }
  }

  /** None of the six suspicious words occurs in the placeholder. */
  lemma PlaceholderCount()
    ensures SuspiciousCount(UrlPlaceholder) == 0
  {
    PlaceholderStartLowered();
    PlaceholderEndLowered();
    PlaceholderStartQuiet();
    PlaceholderEndQuiet();
    CountOfJoin(PlaceholderStart, PlaceholderEnd, PlaceholderStartLow, PlaceholderEndLow, {});
  }

  /** The placeholder is fake on length alone: it has no suspicious word and no "!!!", so only its length decides. */
  lemma PlaceholderFakeOnlyByLength()
    ensures SuspiciousCount(UrlPlaceholder) == 0
    ensures !Contains(UrlPlaceholder, ExcessivePunctuation)
    ensures Utf16Length(UrlPlaceholder) < MinLength
  {
    PlaceholderCount();
    PlaceholderCalm();
    PlaceholderLength();
  }

  // ---------------------------------------------------------------------------
  // The component
  // ---------------------------------------------------------------------------

  class NewsAnalyzer {
    var isAnalyzing: bool
    var textInput: string
    var urlInput: string
    var result: Option<AnalysisResult>
    var toasts: seq<Toast>
    /** The submission the component is waiting on, if any. */
    var pending: Option<Job>

    /** Busy exactly while a job is pending, and any result on display is one the classifier can produce. */
    ghost predicate Valid()
      reads this
    {
      (isAnalyzing <==> pending.Some?)
      && (result.Some? ==> WellFormed(result.value))
    }

    /** The initial state: both inputs empty, idle, no result and no notification. */
    constructor()
      ensures Valid()
      ensures !isAnalyzing && textInput == "" && urlInput == ""
      ensures result == None && toasts == [] && pending == None
    {
      isAnalyzing := false;
      textInput := "";
      urlInput := "";
      result := None;
      toasts := [];
      pending := None;
    }

    /** The text area's change handler; it stays enabled while an analysis runs. */
    method SetTextInput(s: string)
      requires Valid()
      modifies this
      ensures Valid()
      ensures textInput == s
      ensures urlInput == old(urlInput) && isAnalyzing == old(isAnalyzing) && result == old(result)
      ensures toasts == old(toasts) && pending == old(pending)
    {
      textInput := s;
    }

    /** The URL field's change handler; it stays enabled while an analysis runs. */
    method SetUrlInput(s: string)
      requires Valid()
      modifies this
      ensures Valid()
      ensures urlInput == s
      ensures textInput == old(textInput) && isAnalyzing == old(isAnalyzing) && result == old(result)
      ensures toasts == old(toasts) && pending == old(pending)
    {
      urlInput := s;
    }

    /** The input a tab's handler validates. */
    function Input(tab: Tab): string
      reads this
    {
      if tab == TextTab then textInput else urlInput
    }

    /** The handlers' guard `!input.trim()`: the input is empty once trimmed, that is, it is all whitespace. */
    static method IsBlank(input: string) returns (blank: bool)
      ensures blank <==> AllWhitespace(input)
    {
      TrimEmptyIffBlank(input);
      blank := Trim(input) == [];
    }

    /**
      A click on a tab's submit button, up to the `await`. A blank input
      (nothing but whitespace) raises the destructive "Input Required"
      notification and changes nothing else; any other input enters the busy
      state with the raw, untrimmed input as the pending job.
     */
    method Begin(tab: Tab) returns (started: bool)
      requires Valid() && !isAnalyzing
      modifies this
      ensures Valid()
      ensures started <==> !AllWhitespace(old(Input(tab)))
      ensures textInput == old(textInput) && urlInput == old(urlInput) && result == old(result)
      ensures !started ==> !isAnalyzing && pending == None && toasts == old(toasts) + [InputRequiredToast(tab)]
      ensures started ==> isAnalyzing && toasts == old(toasts)
      ensures started ==> pending == Some(Job(tab, ClassifierInput(tab, old(Input(tab)))))
    {
      var input := Input(tab);
      var blank := IsBlank(input);
      started := !blank;
      if !started {
        toasts := toasts + [InputRequiredToast(tab)];
      } else {
        isAnalyzing := true;
        pending := Some(Job(tab, ClassifierInput(tab, input)));
      }
    }

    /**
      The pending job settles. On success the analysis of the job's text
      replaces the result and a success notification follows; on failure the
      old result stays and a destructive notification follows. Either way the
      component is idle again.
     */
    method Complete(outcome: Outcome)
      requires Valid() && isAnalyzing
      modifies this
      ensures Valid()
      ensures !isAnalyzing && pending == None
      ensures textInput == old(textInput) && urlInput == old(urlInput)
      ensures outcome.Resolved? ==>
        result == Some(AnalyzeText(old(pending).value.text, outcome.draw))
        && toasts == old(toasts) + [SuccessToast(old(pending).value.tab)]
      ensures outcome.Rejected? ==>
        result == old(result) && toasts == old(toasts) + [FailureToast(old(pending).value.tab)]
    {
      var job := pending.value;
      match outcome {
        case Resolved(r) =>
          result := Some(AnalyzeText(job.text, r));
          toasts := toasts + [SuccessToast(job.tab)];
        case Rejected =>
          toasts := toasts + [FailureToast(job.tab)];
      }
      isAnalyzing := false;
      pending := None;
    }

    /**
      One click handled from start to finish with no other event in between:
      a blank input only notifies; otherwise the analysis settles with
      `outcome`, and the component ends idle either way.
     */
    method HandleAnalyze(tab: Tab, outcome: Outcome) returns (started: bool)
      requires Valid() && !isAnalyzing
      modifies this
      ensures Valid() && !isAnalyzing && pending == None
      ensures started <==> !AllWhitespace(old(Input(tab)))
      ensures textInput == old(textInput) && urlInput == old(urlInput)
      ensures !started ==> result == old(result) && toasts == old(toasts) + [InputRequiredToast(tab)]
      ensures started && outcome.Resolved? ==>
        result == Some(AnalyzeText(ClassifierInput(tab, old(Input(tab))), outcome.draw))
        && toasts == old(toasts) + [SuccessToast(tab)]
      ensures started && outcome.Rejected? ==>
        result == old(result) && toasts == old(toasts) + [FailureToast(tab)]
      ensures started && outcome.Resolved? && tab == UrlTab ==>
        result.Some? && result.value.prediction == Fake && result.value.confidence >= 0.7
    {
      var url := urlInput;
      started := Begin(tab);
      if started {
        Complete(outcome);
        if tab == UrlTab && outcome.Resolved? {
          UrlAnalysisIsFake(url, outcome.draw);
        }
      }
    }
  }
}
