# Interactive PCA viewer: verified model of the pure core

The tool is a single browser script (`script.js`). A user drops a JSON file of
precomputed PCA results onto it. The script checks the file, shows four
statistic cards and draws three charts in sections that can be toggled:
a projection scatter, a bar chart of per-component explained variance, and a
line chart of cumulative variance. This project models the deterministic part
of that script in Dafny and proves properties about it:

- **Intake** (`intake.dfy`, module `Intake`). The `.json` name gate of
  `handleFiles` is modelled. So is the required-key check of `processFile`,
  which uses JavaScript truthiness on a parsed document (`Json`, an abstract
  key-to-value tree). The model also covers how one upload changes the
  session: the file name shown, the current document, and whether results are shown.
- **Time tokens** (`time_token.dfy`, module `TimeToken`). Labels are searched
  for `(\d+(?:\.\d+)?)\s*(fs|ps|ns)`. There are two definitions: the regular
  language (`IsMatchSpan`, with every backtracking choice left open) and a
  greedy scanner (`MatchAt`, tried at each start in order by `Search`). They are
  proved to agree, and the match at a given start is proved unique. The number
  is read as an exact rational and normalised to picoseconds.
- **Colour encoding** (`colour.dfy`, module `Colour`). This is the fallback
  rule of `plotPCA`. When any label has a time, each point takes its time, or
  its index if it has none. When no label has a time, every point takes its index.
- **Statistics and chart series** (`pca_data.dfy`, `charts.dfy`). These cover
  the stat-card reads, the `PC1..PCn` labels, the series each plot function
  passes to the charting library, and the hidden-section guard.
- **Section toggles** (`sections.dfy`, module `Sections`). This is the click
  handler's state machine.
- **One upload end to end** (`app.dfy`, module `App`).

`decimal.dfy` holds the decimal digit reading and writing that time tokens
and component labels share. `wrappers.dfy` holds `Option`/`Result`.

Two behaviours of the code are easy to miss, and the model states both:

- A failed upload leaves the results panel hidden. The code hides the panel
  before reading (script.js:68) and shows it again only after the check
  passes. A document that parses but fails the check still replaces the
  current one, because the code stores it before checking it (script.js:72).
  `Intake.ProcessFile` states this.
- The key check tests truthiness (script.js:74). So `0`, `false` and `""`
  fail the check, and an empty array passes. `Intake.Validate` and
  `Intake.TruthinessCases` state this.

## Model

| member | source | states |
|---|---|---|
| `Intake.HandleFiles` | script.js:43-49 | An empty selection does nothing. Otherwise only the first file is looked at. It is accepted exactly when its name is some stem followed by ".json". A rejection carries the alert text. |
| `Intake.OnlyFirstFileCounts` | script.js:44-45 | Files after the first never change the gate's outcome. |
| `Intake.SuffixCases` | script.js:46 | The suffix test is exact and case-sensitive. "pca.json" and ".json" pass. "pca.JSON", "pca.json.txt" and "json" are rejected. |
| `Intake.Read` | script.js:74 | A property read yields a value exactly when the document is an object with that key. Otherwise it yields `undefined`. |
| `Intake.Truthy` | script.js:74 | `undefined` and `null` are falsy. Every array and every object is truthy, including empty ones. |
| `Intake.Validate` | script.js:74-76 | A document passes exactly when it is an object whose three required keys are all present with truthy values. A passing document is returned unchanged. A `null` document fails with a TypeError. Any other failure is the missing-keys error. |
| `Intake.ExtraKeysIgnored` | script.js:74-76 | Two objects that agree on the presence and truthiness of the required keys get the same verdict, whatever other keys they carry. |
| `Intake.TruthinessCases` | script.js:74 | An empty `points` array passes. A missing key, `null`, `0`, `false` and `""` each fail with the missing-keys error. |
| `Intake.ProcessFile` | script.js:66-84 | Results are shown exactly when the text parsed and the check passed. The outcome is `Displayed` in that case and the matching error otherwise. A parse failure keeps the previous document. Any parsed document replaces it, even one that fails the check. |
| `Intake.Upload` | script.js:43-52 | A rejected or empty selection leaves the session untouched and never reaches the check. An accepted file updates the shown name and then goes through `processFile` on that session. It is displayed exactly when its document parses and passes. A displayed upload leaves exactly the new name and document. An accepted upload that is not displayed raises the alert for the parse or check error, leaves the results hidden, and keeps the old document only when the text did not parse. |
| `PcaData.AsNumbers` | script.js:198 | A JSON value is read as numbers exactly when it is an array of numbers. The numbers keep the array's length and order. |
| `PcaData.AsPoints` | script.js:160-161 | A JSON value is read as points exactly when it is an array whose items all have numeric `x` and `y` and a string `label`. The points are kept item by item. |
| `PcaData.WellShapedPasses` | script.js:74-76 | Every document of the shape the charts read passes the key check, including one with no points. |
| `PcaData.CheckIsNoTypeCheck` | script.js:74-76 | The check only tests presence: a document whose required fields are a number, a string and a boolean passes it. |
| `PcaData.PercentAt` | script.js:116-118 | A stat read gives a number exactly when the index is inside the array, and that number is the entry times 100. A read past the end gives no number (`NaN`). |
| `PcaData.DeriveStats` | script.js:110-118 | The point count is the number of points. The PC1 card needs one explained-variance entry, and the PC2 card needs two. The cumulative card needs two cumulative entries. Where defined, each card is 100 times the entry it reads: PC1 from the first explained entry, PC2 from the second, the cumulative card from the second cumulative entry. |
| `PcaData.StatsDefinedIff` | script.js:111-118 | All three percentage cards are numbers exactly when both ratio arrays have at least two entries. |
| `PcaData.TwoPointScenario` | script.js:110-118 | Two points with ratios [0.6, 0.3] and cumulative [0.6, 0.9] pass the check and give the cards 2, 60, 30 and 90. |
| `TimeToken.UnitAt` | script.js:136 | A unit is found at a position exactly when the next two characters are "fs", "ps" or "ns". The unit found is the one they name. |
| `TimeToken.MatchShape` | script.js:136 | A match starts with a digit and is at least three characters long. |
| `TimeToken.MatchAtSound` | script.js:136 | Whatever the greedy scanner returns at a start is a match of the regular expression at that start. |
| `TimeToken.MatchAtComplete` | script.js:136 | Every match of the regular expression at a start is exactly the one the scanner returns there. Backtracking can produce no other match. |
| `TimeToken.MatchAt` | script.js:136 | The scanner tried at one start reports a match beginning at that start, or none. |
| `TimeToken.FirstHit` | script.js:136 | Scanning the attempts from a position finds the first successful one: every attempt it passes over failed, and when it finds none, all failed. |
| `TimeToken.Search` | script.js:136 | The search returns the scanner's match at the leftmost start where the scanner succeeds. When it returns nothing, no start succeeds. |
| `TimeToken.Magnitude` | script.js:138 | The captured number is at least its integer digits' value and below that value plus one. Without a fraction it is exactly the integer digits' value. With k fraction digits, the number times 10^k is the token's digits read without the dot. |
| `TimeToken.ToPicoseconds` | script.js:138-142 | Femtoseconds are divided by 1000. Picoseconds are unchanged. Nanoseconds are multiplied by 1000. |
| `TimeToken.LabelTime` | script.js:135-145 | A label's time, when it has one, is not negative. |
| `TimeToken.NoTimeIffNoMatch` | script.js:136-144 | A label has no time exactly when the regular expression matches nowhere in it. |
| `TimeToken.TimeOfLeftmostMatch` | script.js:135-143 | A label's time is the exact decimal value of the leftmost match, converted to picoseconds by that match's unit. |
| `TimeToken.NoDigitNoTime` | script.js:136-144 | A label with no digit has no time. |
| `TimeTokenExamples.FemtosecondLabel` | script.js:136-142 | "frame_500fs" has time 0.5. |
| `TimeTokenExamples.NanosecondLabel` | script.js:136-142 | "t=2ns" has time 2000. |
| `TimeTokenExamples.FractionLabel` | script.js:136-142 | "t = 1.25 ps" has time 1.25: a fraction, then spaces before the unit. |
| `TimeTokenExamples.ZeroIsATime` | script.js:137-144 | "0ps" has time 0, which is a time and not the absence of one. |
| `TimeTokenExamples.NoTokenLabel` | script.js:144 | "run_ps_7" has no time: it has a unit with no number before it and a number with no unit after it. |
| `Colour.CountPresentPositive` | script.js:148-150 | The filtered list of non-null times is non-empty exactly when some label has a time. |
| `Colour.Encode` | script.js:147-157 | There is one colour per label. The title is "Time (ps)" exactly when some label has a time, and "File Index" exactly when none does. When none does, every colour is the index. When some do, a timed label's colour is its time. An untimed label's colour is always its index. |
| `Colour.ColourIsLocal` | script.js:150-157 | A point's colour and the title depend on the other labels only through whether any label has a time. |
| `ColourExamples.TimedThenUntimed` | script.js:150-153 | With a timed first label and an untimed second label, the colours are the time and 1 under "Time (ps)". |
| `ColourExamples.MixedLabels` | script.js:150-153 | For ["frame_500fs", "B"] the colours are [0.5, 1] under "Time (ps)". |
| `ColourExamples.BothUntimed` | script.js:154-157 | Two labels without a time get the colours 0 and 1 under "File Index". |
| `ColourExamples.UntimedLabels` | script.js:154-157 | For ["A", "B"] the colours are [0, 1] under "File Index". |
| `Decimal.DigitsToNatAppend` | script.js:138 | Reading two digit runs written one after the other gives the first shifted left by the second's length plus the second. |
| `Decimal.DecimalValue` | script.js:138 | The decimal `whole.frac` has integer part `whole`: it is at least `whole` and below `whole` + 1, and exactly `whole` without fraction digits. Times 10^k, for k fraction digits, it is `whole` and `frac` read as one digit run. |
| `Decimal.PlaceFraction` | script.js:138 | Adding a fraction f/p below one to w keeps w as the integer part, and scaling by p gives back w·p + f. |
| `Decimal.NatToString` | script.js:194 | A number's decimal form is a non-empty run of digits with no leading zero. It has one digit exactly when the number is below 10. |
| `Decimal.NatToStringRoundTrip` | script.js:194 | Reading back the decimal form of a number gives the number. |
| `Decimal.NatToStringInjective` | script.js:194 | Distinct numbers have distinct decimal forms. |
| `Charts.ComponentLabels` | script.js:193-194 | An n-entry array gets n labels. Each label is "PC" followed by a digit run with no leading zero. |
| `Charts.ComponentLabelReadsBack` | script.js:194 | The digits of the i-th label read back as i + 1. |
| `Charts.ComponentLabelsDistinct` | script.js:193-194 | No two components share a label. |
| `Charts.ThreeComponentLabels` | script.js:221-222 | Three entries give "PC1", "PC2", "PC3". |
| `Charts.PlotPca` | script.js:125-174 | The scatter is drawn exactly when its section is not hidden. It has one x, one y and one hover text per point, in order. Its colours and colour-bar title are the colour encoding of the labels. |
| `Charts.PlotContributions` | script.js:189-203 | The bars are drawn exactly when their section is not hidden. Each explained-variance entry gets one bar, labelled `PC{i+1}`. |
| `Charts.PlotCumulative` | script.js:217-231 | The line is drawn exactly when its section is not hidden. Each cumulative entry gets one marker, labelled `PC{i+1}`. |
| `Charts.PlotGuard` | script.js:125-240 | Every plot function is a no-op exactly while its section is hidden. Bars and lines pair each value with one label. |
| `Charts.ActivationRenders` | script.js:266-269 | A click that activates a section schedules that section's render. When the render fires it draws whatever document it is given at that moment. |
| `Charts.LateRenderAfterHideIsNoop` | script.js:269-271 | A scheduled render that fires after a second click has hidden the section draws nothing. |
| `Charts.PlotIgnoresOtherSections` | script.js:252-273 | Clicking another section's button does not change what a section's plot function draws. |
| `Charts.InitialRender` | script.js:97-104 | The first render pass yields charts only for active sections. Each chart is what that section's plot function draws. They come in the order projection, contribution, cumulative. |
| `Charts.InitialRenderSections` | script.js:97-104 | The first render pass draws a section exactly when it is both active and shown. |
| `Sections.Toggle` | script.js:252-273 | A click flips the clicked section's active flag and nothing else. The section is hidden exactly when it becomes inactive. A re-render of that section is scheduled exactly when it becomes active. |
| `Sections.TogglePreservesConsistency` | script.js:257-272 | If every section is shown exactly when its button is active, that stays true after a click. |
| `Sections.ToggleTwiceRestores` | script.js:257-272 | Two clicks on one button restore the board, when that section started in step with its button. |
| `Sections.TogglesCommute` | script.js:252-273 | Clicks on different buttons commute. |
| `App.Load` | script.js:43-105 | The session and outcome are exactly those of the upload. The upload is displayed exactly when the first file is accepted, parses and passes the check. A view is drawn only for a displayed upload, and the session then holds the new document. For a displayed document of the chart shape, the view is exactly its four stat cards and the first render pass over it. The stats count its points and each card is 100 times its entry where the array is long enough. Every section that is active and shown is drawn, each as its plot function draws it from that document. |
| `App.DrawnSectionsRendered` | script.js:97-104 | Every section whose button is active and whose section is shown appears in the first render pass. |
| `App.LoadForgetsPreviousDocument` | script.js:72-77 | The outcome and the view of an upload do not depend on the previously loaded document. After a displayed upload, the session does not either. |
| `App.FailedLoadHidesResults` | script.js:67-83 | An accepted file that fails to parse or fails the check draws nothing and leaves the results hidden. |

## Left out

- DOM event wiring, drag-hover styling and the file-list HTML (script.js:15-35, 58-60) are user-interface side effects. The shown file name is kept as `Session.fileName`.
- The asynchronous `file.text()` read, the loading indicator, `alert` and `console.error` (script.js:66-84) are I/O. The model takes the parse result as a parameter.
- `JSON.parse` is a library call. Its result is the `Json` datatype, and its failure is `None`.
- The charting library calls, layouts, axis titles, marker and line styling, hover templates and the bars' percentage text (script.js:159-183, 196-211, 224-239) go to an opaque sink. Only the data series are modelled.
- PcaData.DeriveStats: gives each card as the exact entry times 100. The `toFixed(1)` rounding and string formatting of the cards are not modelled.
- TimeToken.Magnitude: reads the number exactly. `parseFloat` and the `/1000` and `*1000` conversions are IEEE doubles in the source, so the model is an idealisation.
- The 50 ms `setTimeout` before a re-render (script.js:269) is not modelled as a delay. A scheduled render is evaluated against the board and document at the moment it fires, whatever that is.
- The last-write-wins race between two overlapping uploads on the global `processedData` (script.js:2, 72) is concurrency, so it is not modelled.
- The toggle buttons' colour classes (script.js:260-264) are cosmetic.
- Documents that pass the check but have other shapes are modelled by the intake and the session, but not by the stats and charts: `AsDataset` is `None` for them and `App.Load` draws no view. Examples are non-array `points`, non-numeric ratios, and labels that are not strings. For these the source shows `undefined` or `NaN` cards, or throws a TypeError while mapping.
- Intake.ProcessFile: records `Displayed` for every document that passes the check. For a document of another shape, a plot function can throw after the results panel is shown (script.js:91-103, 132), and the source then also raises the alert (script.js:78-80).
- Labels are sequences of Unicode scalar values, not UTF-16 code units. The pattern's characters are all in the Basic Multilingual Plane, so matching is unaffected.
- Charts.ComponentLabels: writes every number in plain decimal. JavaScript switches to exponent notation from 10^21 up, which no array length reaches.
- The first render pass visits the buttons in page order. The page's HTML is not part of this model, and the order is taken to be projection, contribution, cumulative.
- `displayResults` returns early on a falsy document (script.js:90). This is not modelled separately because a document that passed the check is always an object, so it is always truthy.
