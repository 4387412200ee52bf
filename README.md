# F1 telemetry: lap and corner data preparation in Dafny

This project models the data-preparation core of an F1 telemetry viewer and
proves properties of it. The viewer has a Next.js front end and a Python
pipeline that turns FastF1 sessions into JSON payloads. The model covers:

- **Lap chart** (`lap_chart.dfy`, module `LapChart`). The chart series built
  from a session payload: laps filtered by selected driver and validity,
  grouped by lap number with the last write winning, sorted by lap number.
  Also the padded y-axis range, the choice of drivers to plot, and the
  "no selection" message.
- **Track overlay** (`track_overlay.dfy`, module `TrackOverlay`). Reading the
  `viewBox` of a track graphic, rewriting its first `<svg>` tag to fill the
  panel, and the corner markers' size, label and colour. The class
  `TrackLoader` is the panel's state and request counter, so that only the
  latest load changes the display.
- **Lap classification and payload building** (`transforms.dfy`, module
  `Transforms`). Python `int()` conversion, track-status text and status
  codes, and the outlier flags. Also flag de-duplication, validity, the
  valid and outlier counters, the driver filter, the driver table, the empty
  corner lists, the notes and the three early exits.
- **Corner detection and matching** (`corners.dfy`, module `Corners`). The
  braking-zone scan over a speed trace, per-corner metrics, and the greedy
  one-to-one nearest match of two drivers' corners by apex distance.
- **Driver selection** (`toolbar.dfy`, module `Toolbar`). Toggling one
  driver, toggling a whole team, and a team chip's state.
- **Bulk download** (`bulk_fetch.dfy`, module `BulkFetch`). Session-code
  normalisation, the round filter, the per-round loop over session codes,
  the loop over the calendar, and the final tally. A run also stops with an
  error at an included round without an id, or at a summary without a round
  number; both are modelled as outcomes.
- **Legacy corner chart** (`corner_chart.dfy`, module `CornerChart`). Track
  corners joined to session corner times by corner number.

Shared pieces:

- `common.dfy` (module `Common`): JavaScript and Python whitespace and
  `trim`/`strip`, ASCII upper-casing, first-occurrence de-duplication,
  filtering.
- `decimal.dfy` (module `Decimal`): decimal numerals and the number grammar
  used for `viewBox` tokens.
- `session.dfy` (module `SessionData`): the payload records of
  `lib/sessionDataClient.ts`.

Numbers that the source keeps as floats are exact `real`s. A nullable number
is an `Option<real>`, with JavaScript `null`/`undefined` and pandas NaN both
read as absent. Network, file, clock and library calls are parameters or are
left out (see below).

The lap-chart y-axis range is `[max(min - p, 0), max + p]` with
`p = max(0.05 * (max - min), 0.3)`, as computed in
`components/ChartPanel.tsx` at lines 88-89.

## Model
| member | source | states |
|---|---|---|
| LapChart.BuildChartData | components/ChartPanel.tsx:43-68 | no data without a session or with an empty selection; otherwise one datum per lap number of a contributing lap, each holding exactly that lap number's recorded times, strictly ascending by lap number |
| LapChart.UpperSetNormalized | components/ChartPanel.tsx:50 | the selection set is the set of the normalised codes, holds only upper-cased codes, and is unchanged when the codes are upper-cased first |
| LapChart.Contributes | components/ChartPanel.tsx:54-60 | defines when a lap takes part: it has a lap number, it is not a hidden outlier (`isValid === false` with outliers hidden) and its upper-cased driver is selected; its effect is stated by `GroupedIgnores` and `HiddenOutlierIgnored` |
| LapChart.Grouped | components/ChartPanel.tsx:51-65 | defines the lap-number map of the loop: each contributing lap writes its time (or null) under its upper-cased driver, a later lap overwriting an earlier one; stated by `GroupedEntries` and `GroupedLastWins` |
| LapChart.GroupLaps | components/ChartPanel.tsx:53-65 | the loop builds exactly the lap-number map `Grouped`, and remembers each lap number once |
| LapChart.SortedEntries | components/ChartPanel.tsx:67 | the map's values come out strictly ascending by lap number, each entry exactly once |
| LapChart.SortByLap | components/ChartPanel.tsx:67 | the result is strictly ascending and a permutation of the input |
| LapChart.InsertByLap | components/ChartPanel.tsx:67 | inserting into an ascending series keeps it ascending and one longer |
| LapChart.InsertByLapAdds | components/ChartPanel.tsx:67 | insertion adds exactly the new datum to the multiset of data |
| LapChart.GroupedEntries | components/ChartPanel.tsx:53-64 | a lap number has a datum exactly when a contributing lap carries it; a driver appears in it exactly when a contributing lap of that driver carries it; only selected drivers appear |
| LapChart.GroupedLastWins | components/ChartPanel.tsx:62-64 | the value for a lap number and driver is the time of the last contributing lap with both |
| LapChart.GroupedIgnores | components/ChartPanel.tsx:54-60 | a lap without a lap number, an excluded outlier, or an unselected driver's lap can be removed without changing the result |
| LapChart.HiddenOutlierIgnored | components/ChartPanel.tsx:55 | with outliers hidden, a lap whose validity is `false` never affects the chart |
| LapChart.ComputeYDomain | components/ChartPanel.tsx:70-90 | no range exactly when no active driver has a number in any datum; otherwise the padded range around the smallest and largest such number |
| LapChart.ScanDatum | components/ChartPanel.tsx:75-81 | the inner loop folds one datum's numbers into the running minimum and maximum |
| LapChart.MinMaxSnoc | components/ChartPanel.tsx:78-79 | one more value updates the running minimum and maximum with `Math.min`/`Math.max` |
| LapChart.RowValuesMembers | components/ChartPanel.tsx:75-80 | the numbers scanned in one datum are exactly the active drivers' numbers there |
| LapChart.ActiveValuesMembers | components/ChartPanel.tsx:74-82 | the numbers scanned are exactly those under an active driver in some datum |
| LapChart.SeqMinMaxBound | components/ChartPanel.tsx:78-79 | the minimum and maximum are attained values and bound every scanned value |
| LapChart.Padded | components/ChartPanel.tsx:88-89 | defines `[max(min - p, 0), max + p]` with `p = max(0.05 * (max - min), 0.3)`; its bounds are stated by `PaddedRange` |
| LapChart.PaddedRange | components/ChartPanel.tsx:88-89 | the lower bound is at least 0, the upper bound at least 0.3 above the maximum, the range is non-empty, and every non-negative value lies inside it |
| LapChart.UpperAllNormalizes | components/ChartPanel.tsx:103-106 | the normalised selection holds only upper-cased codes, and normalising it again changes nothing |
| LapChart.DriversToDisplay | components/ChartPanel.tsx:114-123 | defines `driversToDisplay`: nothing without a session, else the normalised selection filtered by the driver table, else the first four table keys upper-cased; stated by `DriversToDisplayChoice` |
| LapChart.DriversToDisplayChoice | components/ChartPanel.tsx:114-123 | when some selected code names a session driver, the codes shown are the upper-cased selected codes that do, in selection order, each as often as it was selected; otherwise the first four (or fewer) driver keys, upper-cased, in table order |
| LapChart.DisplaySelected | components/ChartPanel.tsx:116-120 | a selected code naming a session driver makes the display the normalised selection filtered by the driver table, non-empty, holding exactly the selected codes that name drivers |
| LapChart.DisplayFallback | components/ChartPanel.tsx:114-122 | with no selected code naming a driver, the display is the first four (or fewer) driver keys, upper-cased, in table order |
| LapChart.ShowNoSelectionMessage | components/ChartPanel.tsx:135-138 | defines the message condition: no selected code, or no displayed code among the selected ones; characterised by `NoSelectionMessageExactly` |
| LapChart.NoSelectionMessageExactly | components/ChartPanel.tsx:135-138 | with upper-case driver keys, the message shows exactly when there is no session or no selected code names a session driver |
| TrackOverlay.OccursFromContains | components/TrackPanel.tsx:63 | the case-insensitive test finds the literal exactly when it occurs at or after the scan position |
| TrackOverlay.OccursIffContains | components/TrackPanel.tsx:63 | a case-insensitive `test` is true exactly when the text contains the literal |
| TrackOverlay.ViewBoxAttribute | components/TrackPanel.tsx:49 | defines the value read: the double-quoted pattern first, the single-quoted one only when it fails |
| TrackOverlay.NoQuoteNoMatch | components/TrackPanel.tsx:49 | text without a quote character has no match for that quote |
| TrackOverlay.ViewBoxMatchAt | components/TrackPanel.tsx:49 | a match captures a non-empty value free of the quote character |
| TrackOverlay.FirstViewBoxMatch | components/TrackPanel.tsx:49 | the leftmost match captures a non-empty value free of the quote character |
| TrackOverlay.IndexOfAfter | components/TrackPanel.tsx:49 | the closing quote found is the first one after the value |
| TrackOverlay.FirstSpace | components/TrackPanel.tsx:51 | the position found holds whitespace |
| TrackOverlay.FirstSpaceIsFirst | components/TrackPanel.tsx:51 | no whitespace comes before the position found, and none exists when nothing is found |
| TrackOverlay.FirstSpaceAt | components/TrackPanel.tsx:51 | a whitespace character with none before it is the one found |
| TrackOverlay.ParseAll | components/TrackPanel.tsx:51-52 | the parts parse exactly when every part is a number, and then give those numbers in order |
| TrackOverlay.ParseAllOf | components/TrackPanel.tsx:51-52 | parts that each read as the matching number read as the whole list |
| TrackOverlay.SplitJoinWords | components/TrackPanel.tsx:51 | splitting on whitespace undoes joining non-empty words with single spaces |
| TrackOverlay.SplitAfterWord | components/TrackPanel.tsx:51 | splitting a word, one space and a text that starts with a non-space yields the word followed by the split of the rest |
| TrackOverlay.JoinWordsEnds | components/TrackPanel.tsx:51 | joined words begin with the first word's first character and end with the last word's last character |
| TrackOverlay.JoinWordsAvoids | components/TrackPanel.tsx:51 | a character in no word, other than the space, is not in the joined text |
| TrackOverlay.FormatFields | components/TrackPanel.tsx:51 | a printed frame of four whole numbers splits back into the four numerals and holds no double quote |
| TrackOverlay.FormatParses | components/TrackPanel.tsx:51-55 | a printed frame of whole numbers parses back to that frame |
| TrackOverlay.ParseFrame | components/TrackPanel.tsx:51-55 | defines the frame read from a value: exactly four whitespace-separated fields, all numbers, else none; stated by `ParseAll` and `FormatParses` |
| TrackOverlay.ExtractViewBox | components/TrackPanel.tsx:48-57 | defines the frame a graphic declares, from `ViewBoxAttribute` and `ParseFrame`; stated by `ViewBoxRoundTrip` and `ViewBoxRoundTripSingle` |
| TrackOverlay.ViewBoxMatchHere | components/TrackPanel.tsx:49 | for either quote character, a non-empty value free of it, enclosed in it right after `viewBox=`, matches where it stands |
| TrackOverlay.NoEarlierViewBox | components/TrackPanel.tsx:49 | for either quote character, positions before the first `viewBox` produce no earlier match |
| TrackOverlay.ViewBoxFoundAfter | components/TrackPanel.tsx:49 | for either quote character, the first `viewBox=` followed by a quoted non-empty value, after text without `viewBox`, is the value read |
| TrackOverlay.ViewBoxRoundTrip | components/TrackPanel.tsx:49-57 | a graphic whose first `viewBox` holds four printed whole numbers in double quotes yields exactly that frame |
| TrackOverlay.ViewBoxRoundTripSingle | components/TrackPanel.tsx:49-57 | a graphic without double quotes whose first `viewBox` holds four printed whole numbers in single quotes yields exactly that frame, through the fallback pattern |
| TrackOverlay.FindSvgTag | components/TrackPanel.tsx:61 | the match found starts with `<svg` in any case and ends at the first `>` after it |
| TrackOverlay.FindSvgTagNone | components/TrackPanel.tsx:61 | there is no match exactly when no `<svg` has a `>` after it |
| TrackOverlay.FindSvgTagLeftmost | components/TrackPanel.tsx:61 | the match found is the leftmost one |
| TrackOverlay.RewriteWithoutTag | components/TrackPanel.tsx:61 | a text without `<svg` is unchanged |
| TrackOverlay.RewriteAt | components/TrackPanel.tsx:61-82 | the rewrite replaces the first tag's attributes by the adjusted ones |
| TrackOverlay.RewriteKeepsOutside | components/TrackPanel.tsx:61-82 | only the first opening tag changes: the text before and after it is kept and the new attributes contain no `>` |
| TrackOverlay.RewriteSvg | components/TrackPanel.tsx:61-82 | defines the rewrite: the first `<svg` tag, found case-insensitively, gets the adjusted attributes; a text without one is kept; stated by `RewriteAt`, `RewriteKeepsOutside` and `RewriteWithoutTag` |
| TrackOverlay.RewriteTag | components/TrackPanel.tsx:61-82 | defines the rewrite at a found tag: the prefix, `<svg`, the adjusted attributes, `>` and the suffix; without a tag the text; stated by `RewriteAt` |
| TrackOverlay.TagBetween | components/TrackPanel.tsx:81 | in the rewritten text the kept pieces stay in place around a single new tag |
| TrackOverlay.QuotedEnd | components/TrackPanel.tsx:64 | a quoted value found ends at least two characters later, inside the text |
| TrackOverlay.ClosingQuote | components/TrackPanel.tsx:64 | a closing quote found lies inside the text |
| TrackOverlay.AttributeMatchAt | components/TrackPanel.tsx:64 | a match ends after the attribute name, inside the text |
| TrackOverlay.FirstAttributeMatch | components/TrackPanel.tsx:64 | the position found is a match with no match before it from the start position; none exactly when no position from there matches |
| TrackOverlay.ReplaceAttribute | components/TrackPanel.tsx:64 | defines `replace` with the non-global attribute pattern: the first match becomes `name="value"`; stated by `ReplaceAttributeShape` |
| TrackOverlay.ReplaceAttributeShape | components/TrackPanel.tsx:64 | with no match at or after the start position the text is unchanged; otherwise the leftmost match, and only it, is rewritten to `name="value"` and the rest of the text is kept |
| TrackOverlay.ReplaceAttributeNoCloser | components/TrackPanel.tsx:64 | a replacement adds no `>` |
| TrackOverlay.SetAttribute | components/TrackPanel.tsx:63-67 | defines one setting: replace the attribute when `name=` occurs in any case, else append ` name="value"`; stated by `SetAttributePresent`, `SetAttributeNoCloser` and `AppendStep` |
| TrackOverlay.SetAttributeNoCloser | components/TrackPanel.tsx:63-67 | setting one attribute adds no `>` |
| TrackOverlay.SetAllNoCloser | components/TrackPanel.tsx:62-79 | the three settings together add no `>` |
| TrackOverlay.AdjustNoCloser | components/TrackPanel.tsx:62-79 | the adjusted attributes contain no `>`, so the tag stays one tag |
| TrackOverlay.AssignmentStarts | components/TrackPanel.tsx:64 | a written `name="value"` contains the literal `name=` |
| TrackOverlay.SetAttributePresent | components/TrackPanel.tsx:63-67 | after setting an attribute the literal `name=` is present |
| TrackOverlay.AdjustedKeepsAspectRatio | components/TrackPanel.tsx:75-79 | the adjusted tag always sets `preserveAspectRatio` |
| TrackOverlay.AppendCreatesNothing | components/TrackPanel.tsx:66 | appending a space-led attribute creates no other attribute's literal |
| TrackOverlay.TailsLackOtherNames | components/TrackPanel.tsx:66-78 | the appended width and height attributes do not mention the later attributes |
| TrackOverlay.AppendStep | components/TrackPanel.tsx:66 | an attribute the tag does not mention is appended |
| TrackOverlay.AdjustAppendsMissing | components/TrackPanel.tsx:62-79 | a tag with none of the three attributes gets width, height and preserveAspectRatio appended, in that order |
| TrackOverlay.Round | components/TrackPanel.tsx:149 | `Math.round` lands within one half of its argument |
| TrackOverlay.MarkerRadius | components/TrackPanel.tsx:142 | the radius is 4 or 1% of the frame's smaller side, whichever is larger |
| TrackOverlay.LabelFontSize | components/TrackPanel.tsx:149 | the font size is at least 10, and otherwise 3% of the frame height, rounded |
| TrackOverlay.MarkerColor | components/TrackPanel.tsx:143 | red exactly for slow corners, amber exactly for medium, green exactly for fast |
| TrackOverlay.Markers | components/TrackPanel.tsx:131-156 | no markers without a frame; otherwise one per corner at its coordinates, label 2% of the frame height above it, radius at least 4, font at least 10, colour by severity |
| TrackOverlay.TrackLoader.constructor | components/TrackPanel.tsx:18-23 | a new panel shows nothing and its counter is 0 |
| TrackOverlay.TrackLoader.StartLoad | components/TrackPanel.tsx:25-37 | a new file clears the display and takes the next request number; an empty name only aborts the request in flight |
| TrackOverlay.TrackLoader.FailLoad | components/TrackPanel.tsx:86-94 | a failure of the current request shows `Failed to load <file>: <message>`, clears the graphic and sets ready; any other failure changes nothing |
| TrackOverlay.TrackLoader.RecordFrame | components/TrackPanel.tsx:48-57 | the frame becomes the one the text declares, if any; nothing else changes |
| TrackOverlay.TrackLoader.ShowGraphic | components/TrackPanel.tsx:60-84 | the graphic shown is the rewritten text, and a non-empty one makes the panel ready |
| TrackOverlay.TrackLoader.CompleteLoad | components/TrackPanel.tsx:39-94 | only the current request changes state; a rejected fetch, or a response outside 200-299 (`HTTP <status>`), shows the failure, clears the graphic, sets ready and keeps the frame and status; a success records the status, the frame the text declares (or keeps the old one) and the rewritten graphic; the counter never changes here |
| Transforms.Truncate | scripts/fastf1_pipeline/transforms.py:35 | `int()` of a float rounds toward zero |
| Transforms.ParseInt | scripts/fastf1_pipeline/transforms.py:35 | defines `int()` of a string: whitespace stripped, an optional sign, ASCII digits, else `ValueError`; stated by `ParseIntOfDigits` and `ParseIntOfNegatedDigits` |
| Transforms.SafeInt | scripts/fastf1_pipeline/transforms.py:29-37 | defines `_safe_int`: none for null, NaN or a rejected value, else `int()`; stated by `SafeIntOfWhole`, `SafeIntOfNumeral` and `SafeIntOfNegatedNumeral` |
| Transforms.SafeIntOfWhole | scripts/fastf1_pipeline/transforms.py:29-37 | a whole number stored as a float converts back to itself |
| Transforms.ParseIntOfDigits | scripts/fastf1_pipeline/transforms.py:35 | a run of digits converts to its decimal value |
| Transforms.ParseIntOfNegatedDigits | scripts/fastf1_pipeline/transforms.py:35 | a minus sign and a run of digits convert to the negated value |
| Transforms.SafeIntOfNumeral | scripts/fastf1_pipeline/transforms.py:29-37 | a printed natural number converts back to itself |
| Transforms.SafeIntOfNegatedNumeral | scripts/fastf1_pipeline/transforms.py:29-37 | a printed negative number converts back to itself |
| Transforms.StringifyTrackStatus | scripts/fastf1_pipeline/transforms.py:40-48 | a status text is never empty |
| Transforms.StringifyDropsOnePointZero | scripts/fastf1_pipeline/transforms.py:40-48 | exactly one trailing `.0` is removed, and an empty rest is absent |
| Transforms.StringifyKeepsOthers | scripts/fastf1_pipeline/transforms.py:40-48 | text without a trailing `.0` is kept, unless empty |
| Transforms.StatusCodesSplit | scripts/fastf1_pipeline/transforms.py:51-54 | the codes of a concatenated status are the union of the codes of its parts |
| Transforms.StatusCodesEmpty | scripts/fastf1_pipeline/transforms.py:51-54 | no status, or one without digits, yields no code |
| Transforms.FlagNamesAreOutlierFlags | scripts/fastf1_pipeline/transforms.py:57-68 | every flag name is one of the ten outlier flags, and distinct flags have distinct names |
| Transforms.RaisedAmong | scripts/fastf1_pipeline/transforms.py:159-186 | the flags raised are exactly the checked flags whose condition holds |
| Transforms.RawFlags | scripts/fastf1_pipeline/transforms.py:159-186 | defines the raw flag list: the names of the raised flags in check order; stated by `RawFlagsMembers` and `RawFlagsAreOutlierFlags` |
| Transforms.RawFlagsMembers | scripts/fastf1_pipeline/transforms.py:159-186 | a flag's name is listed exactly when its condition holds |
| Transforms.RawFlagsAreOutlierFlags | scripts/fastf1_pipeline/transforms.py:159-186 | every flag produced is an outlier flag |
| Transforms.StatusFlags | scripts/fastf1_pipeline/transforms.py:179-186 | yellow-flag for 2, safety-car for 3 or 4, virtual-safety-car for 5 or 6, red-flag for 7, 8 or 9, each exactly then |
| Transforms.FormationLapRule | scripts/fastf1_pipeline/transforms.py:176-177 | formation-lap exactly for lap 1 of a race |
| Transforms.MissingLaptimeRule | scripts/fastf1_pipeline/transforms.py:159-160 | missing-laptime exactly when the lap time is absent |
| Transforms.Dedupe | scripts/fastf1_pipeline/transforms.py:188-192 | the loop keeps each flag's first occurrence, in order |
| Transforms.ValidIffNoFlags | scripts/fastf1_pipeline/transforms.py:188-194 | a lap is valid exactly when it has no flags; its flags are distinct and are exactly the raised ones |
| Transforms.ClassifyLap | scripts/fastf1_pipeline/transforms.py:150-220 | defines a lap entry: de-duplicated flags, validity, and the converted cells; stated by `ValidIffNoFlags` |
| Transforms.ClassifyAll | scripts/fastf1_pipeline/transforms.py:150-220 | defines the lap entries, one per row in order; stated by `ClassifyAllPointwise` and `CountsAddUp` |
| Transforms.ClassifyAllPointwise | scripts/fastf1_pipeline/transforms.py:150-220 | one lap entry per row, in order, each the classification of its row |
| Transforms.CountValid | scripts/fastf1_pipeline/transforms.py:196-197 | at most one valid count per lap |
| Transforms.CountOutliers | scripts/fastf1_pipeline/transforms.py:198-199 | at most one outlier count per lap |
| Transforms.CountsAddUp | scripts/fastf1_pipeline/transforms.py:144-146 | valid laps plus outlier laps is the number of lap entries |
| Transforms.ClassifyRow | scripts/fastf1_pipeline/transforms.py:150-220 | one iteration builds the lap's entry |
| Transforms.ClassifyLaps | scripts/fastf1_pipeline/transforms.py:143-220 | the loop emits the classified laps in order, with the valid and outlier counters matching them |
| Transforms.RequestedCodes | scripts/fastf1_pipeline/transforms.py:80 | a request exists exactly for a non-empty driver list, and is that list upper-cased |
| Transforms.KeepDrivers | scripts/fastf1_pipeline/transforms.py:115-116 | exactly the laps of requested drivers remain |
| Transforms.KeptRowsSelected | scripts/fastf1_pipeline/transforms.py:115-116 | the filter keeps a lap exactly when its driver is a requested code upper-cased |
| Transforms.KeptRows | scripts/fastf1_pipeline/transforms.py:115-116 | defines the rows left by the driver filter: all rows without a request, else those of requested drivers; stated by `KeptRowsSelected` |
| Transforms.FirstRowPerDriverCodes | scripts/fastf1_pipeline/transforms.py:127-131 | the de-duplicated rows' drivers are the drivers' first occurrences |
| Transforms.FirstRowPerDriver | scripts/fastf1_pipeline/transforms.py:127-131 | defines `drop_duplicates(subset=["Driver"])`: each driver's first row, in table order; stated by `FirstRowPerDriverCodes` |
| Transforms.BuildDriverEntries | scripts/fastf1_pipeline/transforms.py:133-141 | one driver entry per de-duplicated row, in order |
| Transforms.DriverTableKeys | scripts/fastf1_pipeline/transforms.py:127-141 | the driver table holds each kept driver once, in first-occurrence order |
| Transforms.EmptyCorners | scripts/fastf1_pipeline/transforms.py:223 | one corner list per driver entry, in order, under the same key, and every list empty |
| Transforms.UnavailableNote | scripts/fastf1_pipeline/transforms.py:97-100 | defines the note of an unusable fetch: the message when non-empty, else `FastF1 not installed` for that status, else `Session unavailable`; stated by `BuildSessionPayload` |
| Transforms.MessageNotes | scripts/fastf1_pipeline/transforms.py:230-231 | one note, the fetch message itself, exactly when the message is present, non-empty and not `OK`; no note otherwise |
| Transforms.FullNotes | scripts/fastf1_pipeline/transforms.py:229-236 | defines the notes of a complete payload; stated by `FullNotesShape` |
| Transforms.FullNotesShape | scripts/fastf1_pipeline/transforms.py:229-236 | the notes are the message note when there is one, first, then the outlier note exactly when some lap is an outlier, then the placeholder note last, and nothing else |
| Transforms.BuildNotes | scripts/fastf1_pipeline/transforms.py:229-236 | the notes are built in that order |
| Transforms.BuildSessionPayload | scripts/fastf1_pipeline/transforms.py:71-259 | each early exit gives empty drivers, laps and corners with one note; the full path gives the driver table, the classified laps, empty corner lists, the notes, the counts and the available drivers |
| Corners.DetectCorners | f1_corners.py:58-98 | the corners are exactly those of the functional definition `DetectFrom`; none under 4 samples; each lies inside the trace, is long enough, starts one sample before a braking step of at least 0.5, descends strictly to the apex by at least the minimum drop, has its apex at a local minimum and ends one sample after the recovery scan stops (or at the last sample); corners do not overlap |
| Corners.DetectStep | f1_corners.py:72-97 | one pass of the loop body advances the position and splits off the corners `DetectFrom` finds in that pass |
| Corners.RoundOf | f1_corners.py:72-97 | the loop body computes the pass `Round` |
| Corners.Round | f1_corners.py:71-97 | one pass of the outer loop moves strictly forward; every corner it finds is detected, starts at or after the position minus one and ends before the next position |
| Corners.DetectFromUnfold | f1_corners.py:71-97 | `DetectFrom` is one pass `Round` followed by the rest |
| Corners.DetectFromSound | f1_corners.py:71-98 | every corner `DetectFrom` finds from a position on is detected, starts at or after that position minus one, and the corners do not overlap |
| Corners.AppendSound | f1_corners.py:94-95 | two lists of detected, non-overlapping corners join into one when the first ends before the second may start |
| Corners.IsCorner | f1_corners.py:73-94 | defines the window tests a kept corner passes: ordered indices inside the trace, length, braking step, strict descent and drop; required by `Detected` |
| Corners.FoundCorner | f1_corners.py:82-94 | a window that passes the detector's tests (braking step, strict descent, drop, length, recovery stop) is a detected corner |
| Corners.BrakingWindow | f1_corners.py:77-81 | the window ends where the strict descent ends (`DescentEnd`), and the drop is the total fall over it |
| Corners.DescentEnd | f1_corners.py:79-81 | the descent from a sample ends inside the trace, strictly descending up to there, at a sample that is last or not followed by a drop |
| Corners.Recovery | f1_corners.py:86-90 | the scan stops at the first position where the recovery reaches the minimum, the speed falls by more than 0.2, or the trace ends, and that is the stop `RecoveryFrom` defines |
| Corners.Recovered | f1_corners.py:87-89 | the recovery accumulated over the scanned steps is never negative |
| Corners.RecoveryFrom | f1_corners.py:86-90 | from any position the scan reaches, the stop found satisfies the stopping rule |
| Corners.RecoveryStopUnique | f1_corners.py:88 | the stopping rule picks a single position |
| Corners.PerCornerMetrics | f1_corners.py:100-120 | one row per corner, numbered from 1 in order, with its distances, speeds and time `Time_s[end] - Time_s[start]` |
| Corners.Distance | f1_corners.py:137 | the absolute difference |
| Corners.ScanFindsNearest | f1_corners.py:132-140 | the candidate chosen is unused, within tolerance and below the initial bound, nearest, and earliest among equals; none exactly when there is no such candidate |
| Corners.Scan | f1_corners.py:132-140 | defines the inner loop's candidate and bound after a prefix of B; stated by `ScanFindsNearest` |
| Corners.AlignIsOneToOne | f1_corners.py:130-143 | every match is within tolerance, each B corner is used at most once, and A indices increase strictly |
| Corners.Align | f1_corners.py:127-144 | defines the greedy matching over apex distances; stated by `AlignIsOneToOne` |
| Corners.NearestUnused | f1_corners.py:132-140 | the inner loop chooses the candidate `Scan` defines |
| Corners.AlignCornersByDistance | f1_corners.py:122-144 | the matches are those of the greedy definition `Align` over the apex distances |
| Toolbar.ToggleDriver | components/Toolbar.tsx:61-67 | a selected driver disappears entirely; an unselected one is appended to the unchanged list |
| Toolbar.ToggleDriverKeepsOthers | components/Toolbar.tsx:63-64 | removing a driver keeps every other code exactly as often as before, in order |
| Toolbar.ToggleDriverTwice | components/Toolbar.tsx:61-67 | toggling an unselected driver twice restores the selection |
| Toolbar.AnySelectedMeaning | components/Toolbar.tsx:116-117 | a chip is partly lit exactly when its team is empty or has a selected driver; a fully lit chip is partly lit |
| Toolbar.AllSelected | components/Toolbar.tsx:70 | defines `allSelected`: every team code is selected; used by `ToggledTeam` and stated by `AnySelectedMeaning` |
| Toolbar.AnySelected | components/Toolbar.tsx:117 | defines `anySelected`; characterised by `AnySelectedMeaning` |
| Toolbar.ToggledTeam | components/Toolbar.tsx:69-79 | defines what `toggleTeam` passes on: the filtered selection when the whole team is selected, else the set-ordered merge; stated by `ToggleTeamRemoves`, `ToggleTeamMerges` and `ToggleTeamTwice` |
| Toolbar.ToggleTeam | components/Toolbar.tsx:69-79 | the removal filters and the merge loop builds the set-ordered merge, so the result is `ToggledTeam` |
| Toolbar.FirstOccurrencesSnoc | components/Toolbar.tsx:76 | adding one code to a set-ordered list appends it only when new |
| Toolbar.FirstOccurrencesAppend | components/Toolbar.tsx:75-77 | merging keeps the existing codes' first occurrences and then the new codes in order |
| Toolbar.AppendStep | components/Toolbar.tsx:76 | one more team code keeps the merge equal to the existing codes' first occurrences followed by the first occurrences of the team codes not already selected |
| Toolbar.FirstOccurrencesHas | components/Toolbar.tsx:75 | the set of the selection holds exactly its codes |
| Toolbar.AppendNew | components/Toolbar.tsx:76 | a code the selection lacks lands at the end unless already added |
| Toolbar.ToggleTeamMerges | components/Toolbar.tsx:74-78 | the merge holds each code of selection and team once, existing codes first, then new team codes in team order, and selects the whole team |
| Toolbar.ToggleTeamRemoves | components/Toolbar.tsx:72-73 | the removal takes out exactly the team's codes and nothing else |
| Toolbar.ToggleTeamTwice | components/Toolbar.tsx:69-79 | toggling a team with no selected driver twice restores a duplicate-free selection |
| BulkFetch.NormalizeSessionCode | scripts/bulk_fetch_fastf1_data.py:36-37 | the code is upper-cased |
| BulkFetch.NormalizeIdempotent | scripts/bulk_fetch_fastf1_data.py:36-37 | a normalised code has no surrounding whitespace and normalising it again changes nothing |
| BulkFetch.ShouldIncludeRoundWithoutFilter | scripts/bulk_fetch_fastf1_data.py:41-42 | without a filter or with an empty one every round is included |
| BulkFetch.ShouldIncludeRoundMeaning | scripts/bulk_fetch_fastf1_data.py:43-46 | with a non-empty filter a round is included exactly when it has a non-empty id in the filter |
| BulkFetch.ShouldIncludeRound | scripts/bulk_fetch_fastf1_data.py:40-46 | defines the round filter; stated by `ShouldIncludeRoundWithoutFilter`, `ShouldIncludeRoundMeaning` and `TracksFilterMeaning` |
| BulkFetch.RoundAborts | scripts/bulk_fetch_fastf1_data.py:58-68 | defines when a round stops the script: it has no id and a session code is given, so `resolve_cache` joins a missing id onto a path |
| BulkFetch.FetchRoundSessions | scripts/bulk_fetch_fastf1_data.py:49-88 | nothing exactly when the round has no id and a session code is given (building the cache path raises); otherwise the summaries of `RoundSummaries` |
| BulkFetch.RoundSummariesShape | scripts/bulk_fetch_fastf1_data.py:61-86 | one summary per session code, in order, each carrying the round's id and number, the normalised (upper-cased) code and the status and message the fetch reported for them |
| BulkFetch.RoundSummaryOf | scripts/bulk_fetch_fastf1_data.py:77-86 | a round has summaries only when a code is given, and they carry its id and number |
| BulkFetch.IncludedRounds | scripts/bulk_fetch_fastf1_data.py:131-142 | no more rounds are included than the calendar has |
| BulkFetch.AllSummaries | scripts/bulk_fetch_fastf1_data.py:131-142 | defines the summaries of the included rounds in calendar order; stated by `AllSummariesLength`, `AllSummariesFromIncludedRounds` and `IncludedRoundContributes` |
| BulkFetch.AllSummariesLength | scripts/bulk_fetch_fastf1_data.py:131-142 | each included round contributes one summary per session code |
| BulkFetch.AllSummariesFromIncludedRounds | scripts/bulk_fetch_fastf1_data.py:131-142 | every summary belongs to a round the filter accepts and carries its id and number; summaries exist only when codes are given |
| BulkFetch.IncludedRoundContributes | scripts/bulk_fetch_fastf1_data.py:131-142 | when a code is given, every included round contributes its summaries |
| BulkFetch.FetchAbortsMeaning | scripts/bulk_fetch_fastf1_data.py:131-142 | the calendar loop aborts exactly when a session code is given and some included round has no id |
| BulkFetch.SummariesHaveRoundIds | scripts/bulk_fetch_fastf1_data.py:131-142 | when the loop does not abort, every summary carries a round id |
| BulkFetch.UnnumberedFromRounds | scripts/bulk_fetch_fastf1_data.py:147-152 | a summary without a round number exists exactly when a code is given and some included round lacks its number |
| BulkFetch.AllSummariesPrefix | scripts/bulk_fetch_fastf1_data.py:131-142 | one more round extends the summaries by its own when included, and the loop aborts there exactly when it aborted before or that round aborts |
| BulkFetch.CollectSummaries | scripts/bulk_fetch_fastf1_data.py:131-142 | the calendar loop aborts exactly when it reaches an included round that aborts; otherwise it gathers the included rounds' summaries in calendar order |
| BulkFetch.CollectRound | scripts/bulk_fetch_fastf1_data.py:132-142 | one pass of the calendar loop: nothing exactly when the round is included and aborts; otherwise its summaries when included, none when not |
| BulkFetch.TallyPartitions | scripts/bulk_fetch_fastf1_data.py:144-156 | successes plus failures is the number of summaries; failures are summaries whose status is not `ok` |
| BulkFetch.CountOk | scripts/bulk_fetch_fastf1_data.py:153-154 | defines the success count; stated by `TallyPartitions` |
| BulkFetch.Failures | scripts/bulk_fetch_fastf1_data.py:155-156 | defines the failure list; stated by `TallyPartitions` |
| BulkFetch.Tally | scripts/bulk_fetch_fastf1_data.py:147-156 | the loop stops exactly when some summary has no round number (its `02d` format raises); otherwise success counts the `ok` summaries and failures lists the others in order |
| BulkFetch.SummaryCodesNormalizedOnce | scripts/bulk_fetch_fastf1_data.py:65 | normalising again per round changes no summary |
| BulkFetch.TracksFilter | scripts/bulk_fetch_fastf1_data.py:127 | defines the filter built from the track arguments |
| BulkFetch.TracksFilterMeaning | scripts/bulk_fetch_fastf1_data.py:127 | a filter exists exactly when track ids are given; with it a round is included exactly when its non-empty id is one of them |
| BulkFetch.RunBulkFetch | scripts/bulk_fetch_fastf1_data.py:114-166 | an empty calendar stops the run; the run aborts on an included round without an id when session codes are given, and otherwise on a summary without a round number; a completed run returns the included rounds' summaries, all with id and number, and their tally |
| CornerChart.FindCorner | F1-Corner-Analysis/components/ChartPanel.tsx:42 | the corner found is the first with that number; none exactly when no corner has it |
| CornerChart.PrepareData | F1-Corner-Analysis/components/ChartPanel.tsx:36-45 | no rows without track or session; otherwise one row per track corner, in order, with its number and type |
| CornerChart.PrepareDataUnmatched | F1-Corner-Analysis/components/ChartPanel.tsx:42-43 | an unmatched corner is charted at 0 for both drivers |
| CornerChart.PrepareDataMatched | F1-Corner-Analysis/components/ChartPanel.tsx:42-43 | both times come from the first session corner with the number, an absent time giving 0 |
| Common.UpperIsUpperCased | scripts/bulk_fetch_fastf1_data.py:37 | upper-casing leaves no lower-case letter and is idempotent |
| Common.UpperCasedFixed | components/ChartPanel.tsx:111 | an upper-cased text is unchanged by upper-casing |
| Common.TrimIsSlice | scripts/bulk_fetch_fastf1_data.py:37 | `strip()` removes only surrounding whitespace |
| Common.Trim | scripts/bulk_fetch_fastf1_data.py:37 | defines `strip()` and `trim()`: leading whitespace, then trailing whitespace, removed; stated by `TrimIsSlice`, `TrimEnds`, `TrimUnchanged` and `TrimIdempotent` |
| Common.TrimEnds | scripts/bulk_fetch_fastf1_data.py:37 | a non-empty stripped text neither begins nor ends with whitespace |
| Common.TrimUnchanged | scripts/bulk_fetch_fastf1_data.py:37 | a text without surrounding whitespace is unchanged by `strip()` |
| Common.TrimIdempotent | scripts/bulk_fetch_fastf1_data.py:37 | stripping twice equals stripping once |
| Common.FirstOccurrencesMembers | scripts/fastf1_pipeline/transforms.py:188-192 | de-duplication keeps every element once |
| Common.FirstOccurrences | components/Toolbar.tsx:75-77 | defines first-occurrence de-duplication; stated by `FirstOccurrencesMembers` |
| Common.RemoveAllCounts | components/Toolbar.tsx:64 | filtering removes exactly the dropped codes |
| Common.RemoveAll | components/Toolbar.tsx:64 | defines `filter` that drops a set of codes; stated by `RemoveAllCounts` |
| Common.RemoveAllAppend | components/Toolbar.tsx:73 | filtering distributes over concatenation |
| Common.KeepOnlyMembers | components/ChartPanel.tsx:116 | filtering keeps exactly the codes in the set |
| Common.KeepOnly | components/ChartPanel.tsx:116 | defines `filter` that keeps the codes of a set; stated by `KeepOnlyMembers`, `KeepOnlyAppend` and `KeepOnlyCount` |
| Common.KeepOnlyAppend | components/ChartPanel.tsx:116 | filtering distributes over concatenation, so the kept codes stay in their order |
| Common.KeepOnlyCount | components/ChartPanel.tsx:116 | each kept code occurs as often as in the input, and no other code occurs |
| Decimal.ParseNatToString | components/TrackPanel.tsx:51 | `Number` of a printed natural number is that number |
| Decimal.ParseNegatedNatToString | components/TrackPanel.tsx:51 | `Number` of a minus sign and a printed natural number is its negation |
| Decimal.ParseNumber | components/TrackPanel.tsx:51 | defines `Number` of a token: empty is 0, an optional sign and a decimal numeral, else NaN (none); stated by `ParseNatToString` and `ParseNegatedNatToString` |

## Left out

- Network, file and clock access are not modelled. This covers `fetch`, aborting, the calendar file, JSON encoding, writing payloads, cache directories, the `generatedAt` timestamp and `print`. A fetch outcome is a parameter, and so is the per-session fetch of the bulk script.
- React scheduling, rendering and the toolbar's close timers are not modelled.
- `getDriverColor` is left out, because its colour table is not defined in the files modelled.
- `get_fastest_lap`, `with_distance`, `resample_to_common_distance` and the plotting functions are numpy/pandas/matplotlib wrappers and are not modelled.
- Floats are exact reals, so rounding, overflow, NaN and Infinity are not modelled. A NaN lap number or cell is read as absent; the initial `Infinity`/`-Infinity` of the y-range scan is `None`.
- Upper-casing is ASCII-only; full Unicode case mapping is not modelled.
- Python `int()` of a string accepts an optional sign and ASCII digits after `strip()`. Underscores between digits and non-ASCII digits are not modelled.
- `Number()` of a `viewBox` token uses a signed decimal grammar (sign, digits, optional fraction). Exponents, hexadecimal, `Infinity` and other JavaScript forms are not modelled.
- `str()` of a non-string track status is an input text, not computed.
- The `[\s\S]*?` capture and the attribute regular expressions are modelled for ASCII letters under the `i` flag.
- `fetch_round_sessions` carries no output path in its summaries, since writing files is left out.
- Corners.DetectCorners: the distance series it also receives is never read by the source, so it is not a parameter.
- Corners.PerCornerMetrics: requires every corner index to lie inside the telemetry, where pandas would raise an index error.
- LapChart.PaddedRange: `lower < upper` and containment are stated only for non-negative values, because a maximum below -0.3 puts the zero floor above the upper bound. Lap times are never negative.
- TrackOverlay.TrackLoader.CompleteLoad: the readiness effect is folded into the success step; React's ordering of the two effects is not modelled.
- A NaN `IsAccurate` cell is truthy in Python, so it raises no `inaccurate` flag. The model has no NaN for this cell: such a cell, like a missing column, is given as `Some(true)`. A null cell is `None` and raises the flag.
- BulkFetch.RunBulkFetch: an abort ends the run with no summaries. Session files written before it are left out, as file writing is. Calendar ids and round numbers are strings and integers or absent; other JSON types are not modelled.
- The server route that filters stored sessions by driver is not part of this model.
