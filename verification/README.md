# resume-reviewer: a verified model of the analysis views

This project models the front end of the resume reviewer. The reviewer checks a
language-model critique of a resume against a schema. It then shows the critique
as a dashboard of cards and charts, and highlights the matching text in the PDF.
Each core file of the repository has one Dafny module:

- `Schemas` (lib/schemas.ts): the critique's shape and the zod constraints.
  Scores lie in 0..100, severities come from a five-value enumeration and
  pillars from a four-value one. `Parse` accepts exactly the valid analyses and
  otherwise reports every violated constraint.
- `PdfViewer` (components/pdf-viewer.tsx):
  - `findLargestWindowFromIndexed` is a loop, proved equal to a specification
    of "the widest run of matches whose gaps stay within 20, the earliest on
    ties".
  - `textRenderer` is a loop that marks a fragment, proved against the
    predicate saying which fragments are marked.
  - The page and rotation state is a class.
- `Filters` and `UiStore` (lib/stores): the two zustand stores are classes.
- `Dashboard` (components/analysis-dashboard.tsx): the issue filter, the
  grouping of audits under their sections, the pillar card icon, the null
  guard and the statistics tab's severity chart.
- `SeverityDist` (components/severity-dist.tsx): the severity tally. It is a
  loop over sections and their audits, building a record whose keys keep
  insertion order. The module also models the pie's data, the total and the
  three render branches.
- `SectionPerformance`, `QualityPillars`, `OverviewCard`, `ScoreCard` and
  `SeverityBadge`: the remaining cards.
- `Scores` (lib/utils.ts): the score bands and the severity style table.
- `Text` is a helper module for JavaScript's `includes` and
  first-match `replace`.
- `Wrappers` holds `Option` and `Result`.

Strings are `seq<char>`. A field that the components compare with `!==` stays a
`string` rather than an enumeration, because the filter compares raw strings.
The schema is modelled as lib/schemas.ts declares it. Every `Issue` field is
required, including `originalText` (lib/schemas.ts:77-91). An issue's `section` and `pillar` are not tied to the
section list or the pillar list: `Schemas.IssueSectionIsUnconstrained`
exhibits an issue naming a section that is not in the list.

## Model

| member | source | states |
|---|---|---|
| Schemas.ParseSeverity | lib/schemas.ts:66 | accepts exactly the five `SeverityLevels` strings, each as the enumeration value of that name |
| Schemas.ParsePillar | lib/schemas.ts:14-64 | accepts exactly the four pillar literals, each as the pillar of that name |
| Schemas.EnumRoundTrip | lib/schemas.ts:14-66 | every severity and pillar name parses back to itself |
| Schemas.PillarsInOrder | lib/schemas.ts:68 | `Pillars` holds four distinct names in the union's declaration order |
| Schemas.PillarErrorsAt | lib/schemas.ts:70-75 | a pillar's error list names its position, is empty iff the pillar is valid, and holds the domain or range error iff that check fails |
| Schemas.PillarErrors | lib/schemas.ts:124 | the errors of a pillar list are empty iff every pillar is valid; for each position, a domain or range error is present iff that pillar fails the check |
| Schemas.SectionErrorsAt | lib/schemas.ts:93-97 | a section reports a score error at its own position iff its score is outside 0..100 |
| Schemas.SectionErrors | lib/schemas.ts:125-127 | a section list's errors are empty iff every section is valid, with one score error per out-of-range position |
| Schemas.IssueErrorsAt | lib/schemas.ts:77-91 | an issue reports a severity or pillar error at its own position iff that enumeration check fails |
| Schemas.IssueErrors | lib/schemas.ts:128-130 | an audit list's errors are empty iff every issue is valid, position by position |
| Schemas.AnalysisErrors | lib/schemas.ts:116-132 | no errors iff the analysis satisfies `ResumeAnalysisSchema`; the top-level score error appears iff the score is out of range |
| Schemas.ElementwiseValidity | lib/schemas.ts:124-130 | checking each array element by membership is the same as checking it by position |
| Schemas.Parse | lib/schemas.ts:116-132 | `safeParse` succeeds iff the analysis is valid and then returns it unchanged; a failure carries a non-empty error list |
| Schemas.ValidAnalysis | lib/schemas.ts:116-132 | a valid analysis has every score in 0..100 and every severity and pillar in its enumeration |
| Schemas.IssueSectionIsUnconstrained | lib/schemas.ts:86 | a valid analysis may hold an issue whose section names no listed section |
| PdfViewer.RunFirst | components/pdf-viewer.tsx:27-31 | the start of the run through a position lies at or before it |
| PdfViewer.RunFirstIsRunStart | components/pdf-viewer.tsx:27-31 | every gap inside that run is within the threshold, and a larger gap (or the start) precedes it |
| PdfViewer.FirstArgMax | components/pdf-viewer.tsx:35-38 | the first position of the largest value: none later is larger, every earlier one is strictly smaller |
| PdfViewer.LargestWindow | components/pdf-viewer.tsx:14-16 | the empty input gives `{length: 0, startIndex: -1}`; any other input a window of length at least 1 |
| PdfViewer.ScanBestIsFirstArgMax | components/pdf-viewer.tsx:35-38 | keeping a position only on a strictly larger span selects the first widest run |
| PdfViewer.FindLargestWindowFromIndexed | components/pdf-viewer.tsx:13-45 | the loop returns exactly the specified widest, earliest run |
| PdfViewer.WindowIsMaximalRun | components/pdf-viewer.tsx:23-38 | for ascending positions the window starts and ends at matches, its gaps are within the threshold, and larger gaps bound it on both sides |
| PdfViewer.WindowIsWidest | components/pdf-viewer.tsx:35-38 | no gap-bounded stretch is wider than the window, and any stretch ending before it is strictly narrower |
| PdfViewer.RunBeatsIsolatedMatch | components/pdf-viewer.tsx:86 | matches at 0, 1, 2 and 40 with threshold 20 select the run of width 3 starting at 0 |
| PdfViewer.InclusiveBoundSelectsRun | components/pdf-viewer.tsx:89 | with a threshold of at least 1, the test `startIndex <= i <= startIndex + length` selects exactly the chosen run |
| PdfViewer.InclusiveBoundOverreachesAtZero | components/pdf-viewer.tsx:89 | with threshold 0 the same test also selects a match just past the run |
| PdfViewer.Matches | components/pdf-viewer.tsx:79-85 | each match pairs a position on the page with that fragment's own text, and the fragment qualifies; no more matches than fragments |
| PdfViewer.MatchesFacts | components/pdf-viewer.tsx:79-85 | the matches are exactly the qualifying fragments, each with its own position and text, in ascending position order |
| PdfViewer.EmptyHighlightMatchesNothing | components/pdf-viewer.tsx:81 | an empty highlight qualifies no fragment |
| PdfViewer.ShouldMark | components/pdf-viewer.tsx:86-92 | a marked fragment lies on the page and is one of the matches |
| PdfViewer.RenderText | components/pdf-viewer.tsx:77-96 | the fragment's text gets its first occurrence wrapped in `<mark>` iff it should be marked, and is unchanged otherwise |
| PdfViewer.ShouldMarkIffSeen | components/pdf-viewer.tsx:88-92 | marking happens iff the fragment lies in the tested bounds and some match carries its position |
| PdfViewer.MatchAt | components/pdf-viewer.tsx:88-92 | each match is the only one for its fragment, so the `forEach` marks at most once |
| PdfViewer.MarkedIffInChosenRun | components/pdf-viewer.tsx:86-92 | a matched fragment is marked iff its position lies in the chosen run |
| PdfViewer.EmptyHighlightMarksNothing | components/pdf-viewer.tsx:81-92 | nothing is marked while the highlight is empty |
| PdfViewer.RotationCycles | components/pdf-viewer.tsx:131-133 | rotation stays a right angle, and four rotations return to the start |
| PdfViewer.ViewerState.constructor | components/pdf-viewer.tsx:66-69 | no pages, page 1, rotation 0 |
| PdfViewer.ViewerState.DocumentLoaded | components/pdf-viewer.tsx:102-107 | records the page count and keeps page and rotation |
| PdfViewer.ViewerState.GoToPrevPage | components/pdf-viewer.tsx:115-117 | page becomes `max(page - 1, 1)`; an in-range page stays in range; an enabled button goes back exactly one |
| PdfViewer.ViewerState.GoToNextPage | components/pdf-viewer.tsx:119-121 | page becomes `min(page + 1, numPages)`; an in-range page stays in range; an enabled button goes forward exactly one |
| PdfViewer.ViewerState.Rotate | components/pdf-viewer.tsx:131-133 | rotation becomes `(r + 90) % 360` and stays a right angle; the page is unchanged |
| Filters.FilterStore.constructor | lib/stores/filters.ts:14-16 | all three selectors start unset |
| Filters.FilterStore.SetPillar | lib/stores/filters.ts:17 | replaces the pillar selector only |
| Filters.FilterStore.SetSeverity | lib/stores/filters.ts:18 | replaces the severity selector only |
| Filters.FilterStore.SetSection | lib/stores/filters.ts:19 | replaces the section selector only |
| Filters.FilterStore.ClearAll | lib/stores/filters.ts:20 | unsets all three selectors |
| Filters.SettersTouchOneField | lib/stores/filters.ts:17-19 | each setter changes its own field and leaves the other two alone |
| Filters.SettersIdempotent | lib/stores/filters.ts:17-19 | setting the same value twice equals setting it once |
| Filters.SettersCommute | lib/stores/filters.ts:17-19 | setters of different fields commute |
| UiStore.Expanded | lib/stores/ui.ts:15 | a stored flag reads as itself; a missing key reads as truthy exactly when it names a member every object inherits (`constructor`, `toString`, `__proto__`, ...) |
| UiStore.Toggled | lib/stores/ui.ts:14-15 | toggling stores the negation of what the record read for that name (inherited names included), adds its key, and leaves every other key as it was |
| UiStore.FirstToggleExpands | lib/stores/ui.ts:14-15 | a never-toggled section expands on its first toggle iff its name is not an inherited member |
| UiStore.FirstToggleOfConstructorCollapses | lib/stores/ui.ts:15 | a section named "constructor" stores `false` on its first toggle |
| UiStore.ToggleTwiceRestores | lib/stores/ui.ts:14-15 | two toggles restore what every section reads as, inherited names included |
| UiStore.UiState.constructor | lib/stores/ui.ts:11-12 | recruiter panel collapsed, no section recorded |
| UiStore.UiState.ToggleRecruiter | lib/stores/ui.ts:13 | flips the recruiter flag, leaves the sections alone |
| UiStore.UiState.ToggleSection | lib/stores/ui.ts:14-15 | the record becomes `Toggled` of the old record, so prototype names read off `{}` are negated as the code does; the recruiter flag is kept |
| UiStore.ToggleRecruiterTwice | lib/stores/ui.ts:13 | two toggles restore the recruiter flag |
| Scores.GetScoreColor | lib/utils.ts:11-15 | green iff the score is at least 80, yellow iff 60..79, red iff below 60 |
| Scores.GetScoreLabel | lib/utils.ts:17-22 | Excellent iff at least 80, Good iff 60..79, Fair iff 40..59, Poor iff below 40 |
| Scores.ScoreBandsMonotone | lib/utils.ts:11-22 | a higher score never gets a lower colour or label band |
| Scores.LabelAgreesWithColor | lib/utils.ts:11-22 | Excellent iff green, Good iff yellow, Fair or Poor iff red |
| Scores.SeverityDataShape | lib/utils.ts:24-29 | the table covers exactly Critical, High, Medium and Low, has no "Good" row, and labels each row by its key |
| ScoreCard.LocalCopiesAgree | components/score-card.tsx:7-18 | the component's local colour and label functions agree with lib/utils.ts on every score |
| ScoreCard.BadgeVariant | components/score-card.tsx:25 | default iff the score is at least 80, secondary iff 60..79, destructive iff below 60 |
| ScoreCard.BadgeVariantFollowsLabel | components/score-card.tsx:25 | the badge is destructive iff the label is Fair or Poor, and default iff Excellent |
| ScoreCard.Render | components/score-card.tsx:20-31 | the description is drawn iff given and non-empty; the badge variant is `BadgeVariant` of the score (default, secondary or destructive by band); colour and label are those of lib/utils.ts |
| SeverityBadge.Render | components/severity-badge.tsx:7-30 | for a schema severity: succeeds iff it has an icon, and then shows its text with the table's variant and the table's icon; otherwise fails on the undefined icon |
| SeverityBadge.OnlyGoodFails | components/severity-badge.tsx:15-22 | of the five schema severities exactly "Good" fails to render |
| SeverityBadge.TablesAgreeWithSeverityData | components/severity-badge.tsx:8-20 | both badge tables have the keys of `SEVERITY_DATA` and agree with its variants and icons |
| OverviewCard.OrElse | components/overview-card.tsx:40-48 | a missing or empty string falls back, any other string is shown |
| OverviewCard.DisplayedScore | components/overview-card.tsx:22 | a missing score shows as 0, any present score as itself |
| OverviewCard.RedFlagLines | components/overview-card.tsx:65-67 | one bulleted line per flag, in order |
| OverviewCard.ScoreDrivesCardAndBar | components/overview-card.tsx:21-32 | one displayed score drives the card, the bar and the description band, each band iff its score range |
| OverviewCard.Render | components/overview-card.tsx:21-75 | the score card and the bar show the same displayed score; each profile field shows its own text, or "Unknown", "Unknown" or "N/A" when that field (or the whole profile) is missing or empty; the gut-check block appears iff the analysis has one, and then shows the first impression or "No impression available" when it is missing or empty, and one "• " line per red flag exactly when the list is non-empty |
| OverviewCard.RedFlagsShownIffNonEmpty | components/overview-card.tsx:60-72 | the red-flags block appears iff the list is non-empty, with the flags in order |
| OverviewCard.SchemaAnalysisShownAsIs | components/overview-card.tsx:21-75 | a schema analysis shows its own score, each profile text as given or its fallback when empty, and always has the gut-check block |
| Dashboard.FilteredIssues | components/analysis-dashboard.tsx:91-98 | the filtered list is never longer than the audits |
| Dashboard.FilteredMembers | components/analysis-dashboard.tsx:91-98 | an issue is in the filtered list iff it is among the audits and passes every active selector |
| Dashboard.FilterIsSubsequence | components/analysis-dashboard.tsx:91-98 | the filtered list is the audits at the kept positions, in ascending order, and a position is kept iff its issue passes every active selector |
| Dashboard.KeptPositionsFacts | components/analysis-dashboard.tsx:92-97 | the kept positions ascend, lie inside the list, and are exactly the positions of issues passing every active selector |
| Dashboard.FilteredAtKeptPositions | components/analysis-dashboard.tsx:92-97 | the k-th filtered issue is the audit at the k-th kept position |
| Dashboard.FilterMultiplicity | components/analysis-dashboard.tsx:91-98 | a retained issue keeps all its copies, any other loses them all |
| Dashboard.FilterSound | components/analysis-dashboard.tsx:93-95 | every kept issue comes from the list and equals each active selector on its field |
| Dashboard.FilterComplete | components/analysis-dashboard.tsx:93-96 | every issue that passes every active selector is kept |
| Dashboard.UnsetFiltersKeepAll | components/analysis-dashboard.tsx:93-96 | with every selector `null` or empty, the whole list comes back |
| Dashboard.ClearedKeepsAll | components/analysis-dashboard.tsx:91-98 | the initial and cleared store states filter nothing out |
| Dashboard.UnsetSelectorIgnoresField | components/analysis-dashboard.tsx:93-95 | an unset selector makes its field irrelevant |
| Dashboard.ClearingWidens | components/analysis-dashboard.tsx:93-95 | clearing any one selector can only add issues |
| Dashboard.SeverityFilterExample | components/analysis-dashboard.tsx:94 | Low, High, Low filtered on "Low" keeps positions 0 and 2 |
| Dashboard.AuditsOfMembers | components/analysis-dashboard.tsx:101-103 | the group for a name holds exactly the audits naming that section |
| Dashboard.AuditsOfAppend | components/analysis-dashboard.tsx:101 | for every name, the empty one included, the group of a concatenation is the concatenation of the groups, so grouping keeps audit order |
| Dashboard.AuditsOfSingle | components/analysis-dashboard.tsx:101 | a single audit forms the group of its own section and of no other name |
| Dashboard.AuditsOfMultiplicity | components/analysis-dashboard.tsx:101-103 | a group keeps every copy of an audit naming it and no copy of any other audit |
| Dashboard.AuditsOfIsSectionFilter | components/analysis-dashboard.tsx:95-103 | for a non-empty name, grouping and the section filter select the same audits in the same order |
| Dashboard.GroupSections | components/analysis-dashboard.tsx:100-105 | one grouped section per schema section, same order and fields; the i-th carries exactly `AuditsOf` its name, so its audits in their original order and multiplicity |
| Dashboard.UnmatchedIssueInNoGroup | components/analysis-dashboard.tsx:101-103 | an audit naming no listed section is attached to no group |
| Dashboard.NearMissSectionName | components/analysis-dashboard.tsx:101-103 | an issue filed under "Skills" is not attached to "Skills & Tools" |
| Dashboard.PillarCardIcon | components/analysis-dashboard.tsx:36-42 | the icon's colour is `getScoreColor` of the score |
| Dashboard.PillarIconFollowsLabel | components/analysis-dashboard.tsx:36-42 | check iff Excellent, alert iff Good, cross iff Fair or Poor |
| Dashboard.RenderAsWritten | components/analysis-dashboard.tsx:100-120 | as written, a missing analysis fails on reading `sectionAnalysis` (the grouping memo's dependency list at line 105 is evaluated before the guard), and every other input renders tabs |
| Dashboard.Render | components/analysis-dashboard.tsx:91-120 | the placeholder iff there is no analysis; otherwise the tabs of that analysis with its filtered issues and its grouped sections |
| Dashboard.NoAnalysisBranchUnreachable | components/analysis-dashboard.tsx:100-120 | the placeholder is unreachable as written; the guarded version reaches it and otherwise agrees |
| Dashboard.ChartInputAsWritten | components/analysis-dashboard.tsx:137 | schema sections carry no audit list, so the chart counts no severity at all |
| Dashboard.ChartInput | components/analysis-dashboard.tsx:138 | the grouped sections as the chart reads them: each carries its own audit list |
| Dashboard.ListedSnoc | components/analysis-dashboard.tsx:101-103 | listing one more distinct name adds exactly that name's severities |
| Dashboard.GroupedChartCountsListedAudits | components/analysis-dashboard.tsx:100-105 | with distinct section names, the grouped sections hold exactly the severities of the audits that name a listed section |
| Dashboard.ListedAll | components/analysis-dashboard.tsx:101-103 | when every audit names a listed section, none is dropped |
| Dashboard.ValidIssuesAllCounted | components/severity-dist.tsx:29 | every schema-valid issue has a truthy severity, so each one is counted |
| Dashboard.ValidSeveritiesNotInherited | components/severity-dist.tsx:30 | a schema-valid issue's severity is a schema severity and names no inherited member |
| Dashboard.ValidSeveritiesCountable | components/severity-dist.tsx:30-40 | for schema-valid audits the chart's inherited-name filter drops no severity |
| Dashboard.ExampleAnalysis | lib/schemas.ts:116-132 | the analysis behind the first finding passes `ResumeAnalysisSchema`, so it can reach the dashboard |
| Dashboard.RawAnalysisHidesIssues | components/analysis-dashboard.tsx:137 | for that schema-valid analysis with one High issue: as written the chart sees none; through the grouped sections it sees `["High"]` |
| Dashboard.StatsSeverityChartAsWritten | components/analysis-dashboard.tsx:137 | as written: no-data iff there are no sections, otherwise always "No issues found" |
| Dashboard.StatsSeverityChart | components/analysis-dashboard.tsx:100-138 | no-data iff no sections; for well-filed analyses, "No issues found" iff there are no audits, and the pie's total and slices count the audits exactly |
| Dashboard.SeverityCountMatches | components/severity-dist.tsx:25-37 | the tally of a non-empty severity equals the number of audits with that severity |
| SeverityDist.Severities | components/severity-dist.tsx:28-30 | the counted severities are non-empty and no more than the audits |
| SeverityDist.FirstOccurrences | components/severity-dist.tsx:39 | distinct, holding exactly the values of the list |
| SeverityDist.FirstOccurrencesSnoc | components/severity-dist.tsx:30 | a new key is appended, an existing one keeps its place |
| SeverityDist.StoredMembers | components/severity-dist.tsx:30 | the record gets an own key for every counted severity except `__proto__`, whose assignment is ignored |
| SeverityDist.CountableMembers | components/severity-dist.tsx:30-40 | the severities that reach the chart are the counted ones not naming an inherited member |
| SeverityDist.TallySnoc | components/severity-dist.tsx:30 | one more increment of `acc[s]` turns a tally of `xs` into a tally of `xs + [s]`: a number for an own name, a concatenated string for an inherited one, nothing for `__proto__` |
| SeverityDist.CountAudits | components/severity-dist.tsx:27-33 | the inner loop extends the record to a tally of the section's counted severities, prototype names handled as the code does |
| SeverityDist.CountSeverities | components/severity-dist.tsx:25-37 | the record's keys are the counted severities other than `__proto__` in first-seen order; each value is that severity's number of occurrences, or a non-number for an inherited name |
| SeverityDist.ChartData | components/severity-dist.tsx:39-52 | every slice is a key of the record whose value is a positive number, valued by it and coloured by its name |
| SeverityDist.Total | components/severity-dist.tsx:54 | the total is 0 iff every slice's value is 0 |
| SeverityDist.EntriesFor | components/severity-dist.tsx:39-52 | one slice per key, valued by its occurrence count and coloured by its name |
| SeverityDist.ChartDataIsEntries | components/severity-dist.tsx:39-52 | for values from the tally the `count > 0` filter drops exactly the inherited names and keeps every other key with its count |
| SeverityDist.ChartDataOfTally | components/severity-dist.tsx:39-52 | the chart data of a tally of `xs` are the entries of the severities of `xs` that name no inherited member |
| SeverityDist.CountableOfFirstOccurrences | components/severity-dist.tsx:39-40 | dropping inherited names commutes with keeping first occurrences |
| SeverityDist.CountableMultiplicity | components/severity-dist.tsx:39-40 | dropping inherited names keeps every copy of any other name |
| SeverityDist.SeverityLevelsNotInherited | lib/schemas.ts:66 | no schema severity names an inherited member |
| SeverityDist.CountableOfOwnNames | components/severity-dist.tsx:30-40 | a list naming no inherited member reaches the chart unchanged |
| SeverityDist.InheritedSeveritiesDropped | components/severity-dist.tsx:30-40 | severities "toString", "High", "__proto__", "High" give one slice, High with 2 |
| SeverityDist.TotalIsSumCounts | components/severity-dist.tsx:54 | the total is the sum of the slice counts |
| SeverityDist.SumCountsOfFirstOccurrences | components/severity-dist.tsx:39-54 | each counted audit lies in exactly one slice, so the counts add up to the number counted |
| SeverityDist.EntriesFacts | components/severity-dist.tsx:39-54 | every slice is positive with its occurrence count; a severity has a slice iff it is counted; the total is the number counted |
| SeverityDist.SeverityDistributionChart | components/severity-dist.tsx:8-72 | no-data iff the section list is missing or empty; "No issues found" iff no counted severity survives the inherited-name filter; otherwise a pie of those severities' entries and their total |
| SeverityDist.ClickSlice | components/severity-dist.tsx:98 | a slice click sets the severity filter to its name and leaves the rest |
| SectionPerformance.Rows | components/section-performance-card.tsx:11-19 | one row per section, in order, each the section's `SectionRow` with its name, score and issue count |
| SectionPerformance.SectionRow | components/section-performance-card.tsx:11-18 | a row carries the section's name, score and issue count, and each of its four segments is the number of the section's audits with exactly that severity; together they never exceed the count |
| SectionPerformance.SegmentsPartitionIssues | components/section-performance-card.tsx:15-18 | every audit is in exactly one of the four segments or has an uncharted severity |
| SectionPerformance.SegmentsFillBar | components/section-performance-card.tsx:13-18 | the segments fill the issue count iff every severity is charted; for valid audits, iff none is "Good" |
| SectionPerformance.SegmentIsFilterSize | components/section-performance-card.tsx:15-18 | a segment's length equals the number of issues the dashboard lists for that section and severity |
| SectionPerformance.SegmentsMatchSchemaAndPie | components/section-performance-card.tsx:40-43 | each bar's severity is a schema severity other than "Good", and its fill is the pie slice's colour |
| SectionPerformance.ClickSegment | components/section-performance-card.tsx:40-43 | a bar click sets the severity filter to its severity and leaves the rest |
| QualityPillars.PillarLabel | components/quality-pillars-card.tsx:29 | the label has the name's length, and a name without " & " is its own label |
| QualityPillars.LabelLineBreaks | components/quality-pillars-card.tsx:29 | the label has one more line break iff the name holds " & " |
| QualityPillars.LabelRoundTrip | components/quality-pillars-card.tsx:29 | for a name without line breaks, undoing the rewrite gives the name back |
| QualityPillars.SchemaPillarLabels | components/quality-pillars-card.tsx:29 | each schema pillar name holds " & ", so its label has exactly one line break |
| QualityPillars.Datums | components/quality-pillars-card.tsx:29 | one datum per pillar, in order, with its label, score and full name |
| QualityPillars.Render | components/quality-pillars-card.tsx:13-29 | the placeholder iff the pillars are missing or empty; otherwise one datum per pillar, in order, whose axis label is the name with its first " & " broken onto a new line (PillarLabel), with score and full name copied |
| QualityPillars.ValidPillarsHaveTwoLineLabels | components/quality-pillars-card.tsx:29 | for a schema-valid analysis every radar label spans exactly two lines |
| QualityPillars.ClickPillar | components/quality-pillars-card.tsx:53 | a pillar button sets the pillar filter to its full name and leaves the rest |
| Text.ReplaceFirstShape | components/pdf-viewer.tsx:90 | `replace` rewrites the first occurrence only, keeping the text before and after it, and leaves a text without the pattern unchanged |
| Text.ReplaceFirstCountChar | components/quality-pillars-card.tsx:29 | replacing a pattern free of a character adds exactly that character's copies in the replacement |

## Findings

| source | as written | input that shows it | evidently intended | confidence | as-written member | corrected member |
|---|---|---|---|---|---|---|
| components/analysis-dashboard.tsx:137 | the severity chart gets the raw analysis, whose schema sections carry no `lineByLineAudit`, so no audit is ever counted | a schema-valid analysis with one section "Skills" and one High issue filed under it: the chart shows "No issues found" | pass the grouped sections, whose audits are attached, as the section-performance chart receives them (line 138) | not executed | Dashboard.StatsSeverityChartAsWritten, Dashboard.RawAnalysisHidesIssues | Dashboard.StatsSeverityChart, Dashboard.GroupedChartCountsListedAudits |
| components/analysis-dashboard.tsx:100-108 | the grouping memo's dependency list `[analysis.sectionAnalysis, analysis.lineByLineAudit]` (line 105) is evaluated on every render, before the `!analysis` guard, so a missing analysis throws on `analysis.sectionAnalysis` instead of showing "No Analysis Data" | `analysis` undefined | guard the memo's dependency list and callback as the filter memo does (`analysis?.`), so the placeholder branch is reachable | not executed | Dashboard.RenderAsWritten | Dashboard.Render, Dashboard.NoAnalysisBranchUnreachable |

## Left out

- Zoom (pdf-viewer.tsx:123-129) is left out: it works on floating-point scales.
- The pie's percent label (severity-dist.tsx:92) is left out: recharts computes the percentage in floating point.
- PDF loading, the lazy `react-pdf` import, the worker setup, the error flag and the click logger are left out. They are I/O and logging.
- Scores are modelled as `int`. The zod schema accepts any number between 0 and 100, fractions included, and the bands compare with `>=`, which is unchanged for integers.
- Keys of a JavaScript record that look like array indices are enumerated first by `Object.entries`. No schema severity looks like one; for other severity strings the model still keeps plain insertion order.
- The severity tally reads names inherited from `Object.prototype` as the code does (a number plus one on a function gives a string, which the `count > 0` filter drops; `__proto__` is never stored). The other record quirks of inherited accessors, such as a getter with side effects, are not modelled.
- OverviewCard.Render: a `redFlags` value that is not an array (overview-card.tsx:64-69) is rendered as raw text by the card; the schema types it as a string array, so the model takes a list and does not model that branch.
- The audit guards of the severity chart (severity-dist.tsx:27-29) are partly modelled. A section's list is modelled as present or absent. A `null` entry in the list is not modelled, and neither is a list that is not an array. The schema admits neither.
- `Object.groupBy` is modelled for string section names only. The section-performance card reads `lineByLineAudit.length` on the grouped sections only. `sections` there is typed `any`, so other inputs are not modelled.
- The dashboard imports `QualityPillarsChart` and `SectionPerformanceChart`, but the card files export `QualityPillarsCard` and `SectionPerformanceCard`. The model assumes the imports resolve to those cards.
- The issues list, the section and pillar tab cards' markup, the share controls, the upload flow, the language-model call, the HTTP route and the highlight and analysis stores are not part of this model. The highlight text is a parameter of `PdfViewer.RenderText`.
- PdfViewer.ViewerState.Rotate: requires the rotation to be a right angle. The constructor starts at 0 and `Rotate` preserves it, so every reachable state meets it.
- The `Mark` replacement function of pdf-viewer.tsx:90 is modelled as fixed text around the fragment's own string. JavaScript's special `$` patterns do not apply to a function replacer.
