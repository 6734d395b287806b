# News analyzer: a Dafny model

This project models the analyzer component of a fake-news detection web app,
`src/components/NewsAnalyzer.tsx`. The component has three parts:

- **The classifier `analyzeText`.** It lower-cases a text and counts which of
  six sensational words it includes. It also looks for `"!!!"` and checks the
  raw length against 50. From these it labels the text `fake` or `real`. It
  adds a random confidence inside the label's band and attaches one of two
  canned explanations and factor lists.
- **The session.** The text and URL inputs, the `isAnalyzing` flag, the result
  on display, and the notifications ("toasts") the two submit handlers raise.
- **The result card's mappings.** Colour, icon, badge and confidence tier.

The model has five modules:

- `JsString` (`jsstring.dfy`) gives the JavaScript string built-ins the
  component relies on:
  - `toLowerCase`, for ASCII only;
  - `includes`, as a scan proved equal to "some position holds the pattern";
  - `trim`, with the ECMAScript whitespace set;
  - `length`, which counts UTF-16 code units, so a character outside the Basic
    Multilingual Plane counts twice.
- `Analyzer` (`analyzer.dfy`) is the classifier. `Math.random()` becomes an
  explicit draw `r` with `0 <= r < 1`, so the confidence is exact real
  arithmetic.
- `Presentation` (`presentation.dfy`) holds the pure display mappings of the
  result card.
- `Session` (`session.dfy`) is the component as a class. Each submit handler
  awaits the classifier, so it is split at that suspension point:
  - `Begin` validates the input and enters the busy state, or raises "Input
    Required".
  - `Complete` settles the pending job with the outcome the environment
    delivers: the classifier's draw, or a rejection.
  - `HandleAnalyze` runs the two back to back.
- `Scenarios` (`scenarios.dfy`) proves the classifier's verdict on concrete texts: a
  sensational headline, a short text, a neutral sentence, and one word
  repeated in mixed case.

The handler validates the trimmed input; the length test uses the untrimmed
one. `handleAnalyzeText` checks `textInput.trim()` but hands the untrimmed
`textInput` to the classifier, so leading or trailing whitespace counts
towards the 50 code units.

## Model

| member | source | states |
|---|---|---|
| JsString.LowerChar | src/components/NewsAnalyzer.tsx:33 | `toLowerCase` on one character: an ASCII capital maps to its small letter (code + 32), every other character is unchanged, and no result is an ASCII capital |
| JsString.Lower | src/components/NewsAnalyzer.tsx:33 | lower-casing keeps the length and maps each position through `LowerChar` |
| JsString.LowerIdempotent | src/components/NewsAnalyzer.tsx:33 | lower-casing a lower-cased text changes nothing |
| JsString.LowerConcat | src/components/NewsAnalyzer.tsx:33 | lower-casing works per character, so it distributes over concatenation |
| JsString.Contains | src/components/NewsAnalyzer.tsx:33 | `includes` as a left-to-right scan (also the `"!!!"` test at line 36): a match needs a pattern no longer than the text, and the empty pattern always matches; `ContainsIffOccurs` gives its exact meaning |
| JsString.ContainsIffOccurs | src/components/NewsAnalyzer.tsx:33 | the `includes` scan is true exactly when some index of the text starts a copy of the pattern (both directions) |
| JsString.OccursInContext | src/components/NewsAnalyzer.tsx:33 | an occurrence is kept when text is added on either side |
| JsString.AbsentByTrigram | src/components/NewsAnalyzer.tsx:33 | a pattern whose first three characters never appear in a row is not included |
| JsString.TrimStart | src/components/NewsAnalyzer.tsx:52 | leading-whitespace removal returns a suffix, drops only whitespace, and starts with a non-whitespace character |
| JsString.TrimEnd | src/components/NewsAnalyzer.tsx:52 | trailing-whitespace removal returns a prefix, drops only whitespace, and ends with a non-whitespace character |
| JsString.Trim | src/components/NewsAnalyzer.tsx:52 | `trim()` returns the slice of the input at some position k such that everything before k and everything after the slice is whitespace, and the slice itself neither starts nor ends with whitespace: exactly the leading and trailing whitespace is removed (also at line 81) |
| JsString.TrimEmptyIffBlank | src/components/NewsAnalyzer.tsx:52 | `!input.trim()` holds exactly when every character of the input is whitespace (both directions) |
| JsString.Utf16Length | src/components/NewsAnalyzer.tsx:36 | `text.length` is between the character count and twice it, and equals the character count when every character is in the Basic Multilingual Plane |
| JsString.Utf16LengthOfChar | src/components/NewsAnalyzer.tsx:36 | one character counts one code unit up to U+FFFF and two (a surrogate pair) above it; with `Utf16LengthConcat` this fixes `text.length` for every text |
| JsString.Utf16LengthConcat | src/components/NewsAnalyzer.tsx:36 | the code-unit length of a concatenation is the sum of the parts' lengths |
| JsString.Utf16LengthInBmp | src/components/NewsAnalyzer.tsx:36 | a text written in an alphabet of Basic Multilingual Plane characters has one code unit per character |
| Analyzer.MatchedWords | src/components/NewsAnalyzer.tsx:32-34 | the `filter` keeps a word exactly when it is in the list and the lowered text includes it, and keeps no more words than the list has |
| Analyzer.SuspiciousCount | src/components/NewsAnalyzer.tsx:31-34 | the suspicious-word count never exceeds the six vocabulary words |
| Analyzer.SuspiciousCountIsPresentWords | src/components/NewsAnalyzer.tsx:31-34 | the count is the number of DISTINCT vocabulary words occurring case-insensitively, however often each occurs |
| Analyzer.CountNeverDropsInContext | src/components/NewsAnalyzer.tsx:31-34 | adding text on either side of a text never lowers its count |
| Analyzer.IsFake | src/components/NewsAnalyzer.tsx:36 | the `isFake` decision: two or more suspicious words always make a text fake, and a real verdict needs at least 25 characters (50 code units, at most two per character); `PredictionRule` gives the exact rule |
| Analyzer.BaseConfidence | src/components/NewsAnalyzer.tsx:37 | the base added to the draw is 0.7 exactly for fake and 0.6 exactly for real |
| Analyzer.Explanation | src/components/NewsAnalyzer.tsx:42-44 | the explanation is the hoax text exactly for fake and the legitimate text exactly for real |
| Analyzer.Factors | src/components/NewsAnalyzer.tsx:45-47 | each label has exactly three factors |
| Analyzer.Confidence | src/components/NewsAnalyzer.tsx:37 | `r * 0.3 + base` lies in [0.7, 1.0) for fake and [0.6, 0.9) for real, hence always in [0.6, 1.0) |
| Analyzer.AnalyzeText | src/components/NewsAnalyzer.tsx:26-49 | the label is fake exactly when the decision rule holds; the confidence is in the label's band; explanation and factors are the label's canned texts; there are three factors |
| Analyzer.PredictionRule | src/components/NewsAnalyzer.tsx:36-40 | fake exactly when more than one distinct vocabulary word occurs (ignoring ASCII case), or `"!!!"` occurs, or the raw text is shorter than 50 code units |
| Analyzer.LabelIgnoresDraw | src/components/NewsAnalyzer.tsx:37-47 | the random draw changes only the confidence, which grows strictly with the draw; label, explanation and factors are the same for any draw |
| Analyzer.ExplanationsDiffer | src/components/NewsAnalyzer.tsx:42-44 | the two canned explanations are different texts |
| Analyzer.FactorsDisjoint | src/components/NewsAnalyzer.tsx:45-47 | no factor appears under both labels |
| Analyzer.ExplanationByLabel | src/components/NewsAnalyzer.tsx:42-47 | for any two analyses: same label exactly when same explanation, same label exactly when same factors, and different labels share no factor |
| Analyzer.CountOfJoin | src/components/NewsAnalyzer.tsx:31-34 | the count of a text in two halves joined at a space equals the number of words shown present, when every other word is ruled out in both lowered halves |
| Analyzer.CalmJoin | src/components/NewsAnalyzer.tsx:36 | a text in two halves joined at a space lacks `"!!!"` when neither lowered half holds three marks in a row |
| Presentation.ResultColor | src/components/NewsAnalyzer.tsx:113-115 | `getResultColor` is "success" exactly for real, and "destructive" for fake |
| Presentation.ResultIcon | src/components/NewsAnalyzer.tsx:117-119 | `getResultIcon` is the check mark exactly for real, otherwise the warning triangle |
| Presentation.BadgeVariant | src/components/NewsAnalyzer.tsx:229 | the badge variant is "default" exactly for real, and "destructive" for fake |
| Presentation.BadgeLabel | src/components/NewsAnalyzer.tsx:236 | the badge reads "✓ BERITA ASLI" exactly for real, and "⚠ BERITA HOAX" for fake |
| Presentation.TierLabel | src/components/NewsAnalyzer.tsx:249-250 | tiers and their printed words correspond one to one: "Sangat Tinggi", "Tinggi", "Sedang" |
| Presentation.ConfidenceTier | src/components/NewsAnalyzer.tsx:249-250 | "Sangat Tinggi" exactly when c > 0.8, "Tinggi" exactly when 0.6 < c <= 0.8, "Sedang" exactly when c <= 0.6 |
| Presentation.TierMonotone | src/components/NewsAnalyzer.tsx:249-250 | a higher confidence never shows a lower tier |
| Presentation.TierOfConfidence | src/components/NewsAnalyzer.tsx:249-250 | for the confidence drawn for a label: fake is never "Sedang"; "Sedang" only for real with a draw of exactly 0; "Sangat Tinggi" exactly for fake with r > 1/3 or real with r > 2/3 |
| Presentation.TierOfAnalysis | src/components/NewsAnalyzer.tsx:249-250 | for any analysis: a fake one never shows "Sedang", and "Sedang" appears exactly for a real one with a draw of 0 |
| Presentation.CardAgreesWithLabel | src/components/NewsAnalyzer.tsx:113-119 | the card never mixes verdicts: the "✓ BERITA ASLI" badge text appears exactly when the colour is "success", exactly when the icon is the check mark and exactly when the badge variant is "default", and the colour is "destructive" exactly when the badge variant is |
| Scenarios.HeadlineIsFake | src/components/NewsAnalyzer.tsx:31-40 | "URGENT: A Doctor SECRET cure EXPOSED!!!" has two distinct suspicious words and `"!!!"`, so it is fake with confidence in [0.7, 1.0) |
| Scenarios.ShortTextIsFake | src/components/NewsAnalyzer.tsx:36 | "ok" has length 2, so it is fake on length alone |
| Scenarios.NeutralIsReal | src/components/NewsAnalyzer.tsx:31-40 | a 55-character sentence with no vocabulary word and no `"!!!"` is real with confidence in [0.6, 0.9) |
| Scenarios.RepeatedWordCountsOnce | src/components/NewsAnalyzer.tsx:31-34 | "secret" written eight times in mixed case counts once, so the 55-character text is real |
| Session.UrlAnalysisIsFake | src/components/NewsAnalyzer.tsx:94-96 | whatever URL is entered, the classifier gets the 41-unit placeholder, so the verdict is fake with confidence in [0.7, 1.0) |
| Session.UrlContentIgnored | src/components/NewsAnalyzer.tsx:95-96 | two URLs hand the classifier the same text, so with the same draw they get the same analysis |
| Session.ClassifierInput | src/components/NewsAnalyzer.tsx:95-96 | what a submission hands to the classifier (the raw `textInput` at line 63, the placeholder for the URL tab); the URL tab's text is always shorter than 50 code units |
| Session.InputRequiredToast | src/components/NewsAnalyzer.tsx:53-57 | the blank-input notification of either tab (the URL variant is at lines 82-86) is destructive |
| Session.SuccessToast | src/components/NewsAnalyzer.tsx:65-68 | the success notification of either tab (the URL variant is at lines 98-101) has the default style |
| Session.FailureToast | src/components/NewsAnalyzer.tsx:70-74 | the error notification of either tab (the URL variant is at lines 103-107) is destructive |
| Session.NewsAnalyzer.IsBlank | src/components/NewsAnalyzer.tsx:52 | the guard `!input.trim()` (also at line 81) holds exactly when every character of the input is whitespace |
| Session.PlaceholderFakeOnlyByLength | src/components/NewsAnalyzer.tsx:95 | the placeholder contains none of the six suspicious words (count 0) and no `"!!!"`, and is shorter than 50 code units, so its length alone makes it fake |
| Session.PlaceholderLength | src/components/NewsAnalyzer.tsx:95 | the placeholder is 41 UTF-16 code units long |
| Session.NewsAnalyzer.constructor | src/components/NewsAnalyzer.tsx:19-22 | the component starts idle with empty inputs, no result, no notification and no pending job |
| Session.NewsAnalyzer.SetTextInput | src/components/NewsAnalyzer.tsx:157 | the text area's change handler replaces the text input and nothing else, also while an analysis runs |
| Session.NewsAnalyzer.SetUrlInput | src/components/NewsAnalyzer.tsx:181 | the URL field's change handler replaces the URL input and nothing else, also while an analysis runs |
| Session.NewsAnalyzer.Begin | src/components/NewsAnalyzer.tsx:51-61 | only when idle (the button is disabled while busy, lines 162 and 186); starts exactly when the input is not all whitespace. A blank input appends the destructive "Input Required" toast for its tab and leaves busy flag, result and pending job alone. Otherwise the component turns busy with the raw input, or for the URL tab the placeholder (lines 80-96), as the pending job |
| Session.NewsAnalyzer.Complete | src/components/NewsAnalyzer.tsx:62-77 | settles the pending job. Success replaces the result with the analysis of the job's text and appends the tab's success toast. Failure keeps the old result and appends the tab's destructive error toast (the URL variant is at lines 97-110). Either way the component ends idle with no pending job |
| Session.NewsAnalyzer.HandleAnalyze | src/components/NewsAnalyzer.tsx:51-111 | one click handled to the end. It starts exactly for a non-blank input. A blank input only notifies. Success shows the analysis of the raw input (text tab) or of the placeholder (URL tab), and a URL submission then always shows a fake verdict with confidence at least 0.7. Failure keeps the old result. The component ends idle |

## Left out

- The `setTimeout` delays of 2000 ms and 3000 ms (src/components/NewsAnalyzer.tsx:28 and 94) are timing only. The `await` is modelled as the split between `Begin` and `Complete`, not as time.
- `Math.random()` is a parameter: the draw `r`, or the `Resolved` outcome that carries it.
- Confidence is exact real arithmetic. IEEE-754 rounding of `r * 0.3 + base` is not modelled.
- The percentage formatting with `toFixed(1)` and the width of the confidence bar are not modelled.
- JavaScript's full Unicode `toLowerCase` is not modelled: only ASCII capitals are lowered. A non-ASCII capital whose lower-case form completes a vocabulary word is not lowered here. One example is the Kelvin sign, whose lower case is "k".
- Toast delivery by the UI hook is not modelled. Each call to `toast` is recorded as an entry appended to `toasts`.
- Overlapping submissions are not modelled. `Begin` requires the component to be idle, because the submit buttons are disabled while it is busy. An edit of an input during an analysis is modelled; it does not affect the pending job.
- `analyzeText` never throws. The `catch` branches are modelled by a `Rejected` outcome the environment may deliver.
- JSX rendering of the card is not modelled: layout, text colours and the list of factors as markup.
- The other files of the app are not part of this model: the navigation bar, hero and about sections, the page, and the generated database types. They hold no analyzer logic.
- Scenarios.NeutralIsReal: states the code-unit length as at least 55 rather than exactly 55. Only the lower bound matters for the verdict.
