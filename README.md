# VulnExplain core, modelled in Dafny

VulnExplain audits source code for security weaknesses. A language model
reports findings; the server (`backend/server.py`) rates them with its
own tables, removes duplicates, and computes a 0–100 security score and a
financial-impact breakdown in Indian rupees. The dashboard
(`frontend/src/Dashboard.js`) turns that result into several views: a
severity distribution, groups by category, a letter grade and a badge,
two charts and an animated risk figure. It also runs the scan-progress
screen and a few small interaction state machines.

This project models both halves.

Dashboard:

- `DashboardViews` holds the pure derivations: the rank table, the distribution, the grouping, group severity, the grade and badge ladders, chart data, the disclosure toggles, the step display, the input checks and plan gating.
- `DashboardState` is the component itself: a `Dashboard` class whose methods are the handlers, the timer ticks and the server replies.

Server:

- `Scoring` holds the severity, fix-time and category lookups, the impact calculation, the score and the deduplication.
- `RepoIntake` covers fence stripping, GitHub URL parsing and code-file selection.
- `Report` is the severity tally of the PDF report.
- `AuditPipeline` chains normalisation, deduplication, score and impact, and proves what the dashboard can rely on.

Shared modules:

- `Tally` counts labels into insertion-ordered dictionaries and sorts them stably by rank.
- `Text` holds trimming and ASCII case mapping.
- `AuditModel` holds the result record.
- `Wrappers` holds `Option`.

Dictionaries that keep insertion order are modelled as sequences of entries in key order. Timers are modelled as method calls, one per tick, grace period or frame.

Where the code's comments and docstrings, or the behaviour the dashboard is described as having, differ from what the code does, the model follows the code:

- When the cursor is forced to the last step, that step shows as active, not as completed. `index < scanStep` is false for it.
- No handler ever clears `auditResult`, so "reset to 0 when the result is cleared" has no transition. With no result the counter simply shows 0.
- The audit form, and with it both audit buttons, is rendered only while no scan runs and no result is shown (frontend/src/Dashboard.js:431, 483). Since nothing clears the result, at most one audit completes per page load, and `StartCodeAudit` and `StartRepoAudit` require that no result is shown.
- "CWE-22" is rated Medium, not Critical. See Findings. The whole pipeline (`AuditPipeline.Normalise` and everything built on it) uses the severity table as written; the corrected table appears only in `Scoring.AssignSeverityCorrected` and `AuditPipeline.NormaliseCorrected`.
- A GitHub repository name loses every ".git", not only a trailing one. See Findings.

## Model

| member | source | states |
|---|---|---|
| DashboardViews.SeverityRank | frontend/src/Dashboard.js:19-25 | the rank is at most 5, and it is 0 exactly for labels outside the table |
| DashboardViews.SeverityRankOrder | frontend/src/Dashboard.js:19-25 | Critical > High > Medium > Low > Info > any unknown label |
| DashboardViews.SeverityDistribution | frontend/src/Dashboard.js:275-281 | the loop yields the first-seen-ordered tally of severities; counts sum to the list length; every count is positive; a key is present iff that severity occurs (no zero-fill) |
| DashboardViews.SeverityRows | frontend/src/Dashboard.js:511-512 | the displayed rows are sorted by rank, highest first; they are a permutation of the distribution; they sum to the list length |
| DashboardViews.CategoryOf | frontend/src/Dashboard.js:232 | a finding's group is its non-empty category, or "Other Security Issues" when the category is missing or empty |
| DashboardViews.MembersOfCategory | frontend/src/Dashboard.js:230-240 | a group holds as many findings as carry its category, and exactly those findings |
| DashboardViews.MembersCount | frontend/src/Dashboard.js:230-240 | group size equals the number of occurrences of the category |
| DashboardViews.MembersExact | frontend/src/Dashboard.js:230-240 | membership in a group iff the finding is in the list with that category |
| DashboardViews.MemberIndicesExact | frontend/src/Dashboard.js:230-240 | the positions recorded for a group are exactly the positions carrying its category |
| DashboardViews.MembersInOrder | frontend/src/Dashboard.js:237 | a group is the subsequence of the input at those ascending positions, so relative order is preserved |
| DashboardViews.GroupsForEntries | frontend/src/Dashboard.js:230-240 | the grouped map has one entry per first-seen category, holding its members |
| DashboardViews.GroupedSnocExisting | frontend/src/Dashboard.js:233-237 | pushing a finding whose category already has a group appends it to that group only |
| DashboardViews.GroupedSnocNew | frontend/src/Dashboard.js:233-237 | a finding with a new category opens a new last group holding just that finding |
| DashboardViews.FindGroup | frontend/src/Dashboard.js:234 | the lookup `groups[category]` finds the group with that key, or reports that none exists |
| DashboardViews.GroupVulnerabilities | frontend/src/Dashboard.js:230-240 | the forEach loop builds exactly the grouped map |
| DashboardViews.GroupSizesFor | frontend/src/Dashboard.js:230-240 | the group sizes add up to the category tally |
| DashboardViews.GroupedPartitions | frontend/src/Dashboard.js:230-240 | categories are distinct; every finding lands in exactly the group of its category; each group keeps input order; group sizes sum to the list length |
| DashboardViews.GroupedCovers | frontend/src/Dashboard.js:230-240 | every finding has the group of its category |
| DashboardViews.GroupedEmpty | frontend/src/Dashboard.js:231 | the empty list gives the empty map |
| DashboardViews.GroupSeverity | frontend/src/Dashboard.js:263-272 | the result is "Info" when no finding has a ranked severity; otherwise it is the severity of the first finding of maximal rank (strict `>`) |
| DashboardViews.RiskGrade | frontend/src/Dashboard.js:221-227 | letters are A–F; the status is Secure iff A, Good iff B, and Fix Required iff C, D or F |
| DashboardViews.RiskGradeMonotone | frontend/src/Dashboard.js:221-227 | a higher score never gives a worse grade; Fix Required iff the score is below 75 |
| DashboardViews.RiskGradeBoundaries | frontend/src/Dashboard.js:221-227 | the thresholds are 90, 75, 60 and 40, and both sides of each are pinned |
| DashboardViews.ScoreBadge | frontend/src/Dashboard.js:561-567 | the badge is Good iff the score is ≥ 80 and At Risk iff the score is < 60 |
| DashboardViews.LaddersDiffer | frontend/src/Dashboard.js:221-227 | the badge and the grade are separate ladders: 75–79 is grade B "Good" with a Fair badge; 60–74 is Fix Required with a Fair badge |
| DashboardViews.ChartData | frontend/src/Dashboard.js:335-349 | no result gives []; financial mode gives exactly 4 slices whose values are copied from the breakdown |
| DashboardViews.CountSlicesEntries | frontend/src/Dashboard.js:342-346 | the five severity series carry, in order, the number of findings at each severity |
| DashboardViews.PositiveOnlyMembers | frontend/src/Dashboard.js:347 | the filter keeps exactly the slices with a value > 0 |
| DashboardViews.SeverityChartSlices | frontend/src/Dashboard.js:341-347 | a severity slice appears iff it is one of the five series and its count is positive |
| DashboardViews.PositiveOnlyDescending | frontend/src/Dashboard.js:347 | the filter keeps the order of the slices it keeps |
| DashboardViews.SeverityChartOrdered | frontend/src/Dashboard.js:341-347 | severity slices come in the order Critical, High, Medium, Low, Info, each level at most once; with SeverityChartSlices, the chart is the in-order subsequence of the five series with a positive count |
| DashboardViews.PositiveOnlySum | frontend/src/Dashboard.js:347 | dropping empty slices does not change the sum |
| DashboardViews.CountSlicesSum | frontend/src/Dashboard.js:342-346 | the series sum equals the tally of the listed severities |
| DashboardViews.SeverityChartCoversAll | frontend/src/Dashboard.js:341-347 | when every severity is one of the five, the severity chart's slices sum to the number of findings |
| DashboardViews.ToggleGroup | frontend/src/Dashboard.js:284-293 | after the toggle at most one group is open; toggling an open group gives {}; otherwise exactly the clicked group is open |
| DashboardViews.ToggleGroupTwice | frontend/src/Dashboard.js:284-293 | toggling twice closes everything or leaves only that group open, whatever the starting map |
| DashboardViews.ToggleVuln | frontend/src/Dashboard.js:296-301 | the toggle flips its own key and leaves every other key unchanged |
| DashboardViews.ToggleVulnTwice | frontend/src/Dashboard.js:296-301 | toggling twice restores which findings are open |
| DashboardViews.StepDisplay | frontend/src/Dashboard.js:446-447 | no step is both completed and active; exactly one step is active; at the last cursor all earlier steps are completed and the last one is not |
| DashboardViews.IsBlankIsTrimEmpty | frontend/src/Dashboard.js:93 | the all-whitespace test is `!s.trim()` |
| DashboardViews.RepoAuditInput | frontend/src/Dashboard.js:160-171 | the URL is sent iff on the GitHub tab with a non-empty URL; the file is sent iff on the upload tab with a file; otherwise nothing is sent |
| DashboardViews.PlanOf | frontend/src/Dashboard.js:42-44 | the stored plan is used when present and non-empty; a missing or empty one gives "starter" |
| DashboardViews.PlanGates | frontend/src/Dashboard.js:243-249 | the team panel opens iff the plan is exactly "enterprise"; report download is open to every plan; the default plan gets the export note (lines 407, 531) |
| DashboardState.CountUpEnds | frontend/src/Dashboard.js:61-83 | frame 0 shows 0, and frame 60 shows exactly the target |
| DashboardState.CountUpMonotone | frontend/src/Dashboard.js:70-72 | for a target ≥ 0, frames are non-decreasing and between 0 and the target |
| DashboardState.ScanPhases | frontend/src/Dashboard.js:92-140 | a consistent scan state is idle, requesting, or holding a reply at the last step |
| DashboardState.Dashboard.constructor | frontend/src/Dashboard.js:28-47 | every hook has its initial value, and the plan comes from storage |
| DashboardState.Dashboard.StartCodeAudit | frontend/src/Dashboard.js:92-109 | callable only from the form, which shows while no scan runs and no result is shown (Dashboard.js:431, 483); a blank snippet is refused: nothing changes and nothing is sent; otherwise loading and scanning start at step 0 and the snippet is sent |
| DashboardState.Dashboard.StartRepoAudit | frontend/src/Dashboard.js:142-171 | callable only from the form, as the code audit; the input sent follows the tab rules; with no input the scan is undone (cursor 0, not scanning) |
| DashboardState.Dashboard.StepTick | frontend/src/Dashboard.js:102-109 | the cursor advances by one up to the last step (6) and never beyond |
| DashboardState.Dashboard.AuditSucceeded | frontend/src/Dashboard.js:119-121 | success stops the interval and forces the cursor to the last step |
| DashboardState.Dashboard.AuditFailed | frontend/src/Dashboard.js:130-136 | failure leaves scanning with the cursor at 0 and publishes nothing |
| DashboardState.Dashboard.GraceElapsed | frontend/src/Dashboard.js:124-129 | after the grace delay the reply is published, scanning ends, the cursor is reset to 0 and a new count-up starts (cancelling the old one) |
| DashboardState.Dashboard.CounterTick | frontend/src/Dashboard.js:68-76 | frames 1–60 show floor(target·k/60); the 61st frame sets exactly the target and stops |
| DashboardState.Dashboard.RunCountUp | frontend/src/Dashboard.js:61-83 | running the interval to its end takes 61 − frame ticks and ends on the exact target |
| DashboardState.Dashboard.ToggleGroupOf | frontend/src/Dashboard.js:284-293 | the accordion transition applies to the state, and at most one group stays open |
| DashboardState.Dashboard.ToggleVulnOf | frontend/src/Dashboard.js:296-301 | the per-finding toggle applies to the state |
| DashboardState.Dashboard.HandleTeamClick | frontend/src/Dashboard.js:243-249 | enterprise opens the team panel; any other plan opens the upgrade dialog |
| DashboardState.Dashboard.HandleShareSummary | frontend/src/Dashboard.js:252-260 | with the team panel open (its button is there, line 1183), a non-blank address is shared and cleared; a blank one is refused and kept |
| DashboardState.Dashboard.ChooseFile | frontend/src/Dashboard.js:85-89 | a selection replaces the file; an empty selection keeps the previous one |
| DashboardState.Dashboard.EditForm | frontend/src/Dashboard.js:965-997 | the input setters change the form and nothing else |
| DashboardState.Dashboard.SetView | frontend/src/Dashboard.js:623-753 | the chart and list switches and the dialog close buttons change only the panels |
| DashboardState.CodeAuditRun | frontend/src/Dashboard.js:92-136 | a full code audit from the idle form with no result yet shown, with any number of step ticks, ends idle with the result shown and the counter on its exact total |
| Scoring.AssignSeverity | backend/server.py:88-90 | the result is the table value for a known CWE and "Medium" otherwise (including a null CWE); it is always one of the four levels |
| Scoring.AssignFixTime | backend/server.py:80-95 | the result is in {24, 8, 4, 1}, and an unknown severity gets 4 |
| Scoring.FixTimeOrder | backend/server.py:80-85 | fix times strictly decrease with severity, so distinct levels have distinct fix times |
| Scoring.AssignCategory | backend/server.py:99-130 | a CWE in the table gets its table category; the category is never empty, and it is "Other Security Issues" iff the CWE is not a category key |
| Scoring.PathTraversalMismatch | backend/server.py:60 | as written, "CWE-22" is rated Medium yet categorised Path Traversal, and "CWE-022" is rated but has no category |
| Scoring.AssignSeverityCorrected | backend/server.py:55-90 | over the corrected table, the result is always one of the four levels |
| Scoring.SeverityCorrectedAgrees | backend/server.py:55-130 | every rated CWE has a category; "CWE-22" is Critical; "CWE-022" falls to the default Medium; every CWE other than those two spellings is rated as before |
| Scoring.HoursFor | backend/server.py:160-168 | the loop charges 24, 8, 4 or 1 hours |
| Scoring.HoursMatchFixTime | backend/server.py:80-168 | the cost loop agrees with the fix-time table on the four levels; an unknown severity is charged 1 hour while its fix time is 4 |
| Scoring.CalculateDetailedImpact | backend/server.py:153-190 | the loops compute the impact function |
| Scoring.CountSeverities | backend/server.py:171-178 | the counting pass gives the number of findings with a severity in the set |
| Scoring.CountInOne | backend/server.py:171 | counting one level is the number of occurrences of that severity |
| Scoring.CountInUnion | backend/server.py:177 | counting two disjoint sets of levels adds the two counts |
| Scoring.ImpactAdditive | backend/server.py:153-190 | every breakdown field and the total are additive over concatenation |
| Scoring.ImpactOfOne | backend/server.py:153-190 | one finding costs ₹610,000 (Critical), ₹120,000 (High), ₹10,000 (Medium), or ₹2,500 (anything else) |
| Scoring.ImpactFromCounts | backend/server.py:153-190 | downtime = 200000·#Critical; fines = 250000·#Critical; reputation = 100000·#(Critical or High); fix cost = 2500·hours; all are ≥ 0; the total is their sum |
| Scoring.FixHoursAtLeast | backend/server.py:160-168 | every finding costs at least one hour |
| Scoring.FixCostMatchesFixTimes | backend/server.py:153-168 | for rated findings, the fix cost is 2500 × the sum of their fix times |
| Scoring.PenaltyFor | backend/server.py:227-235 | Critical costs 25 points, High 15, Medium 8 and any other label 3 |
| Scoring.ScoreOfOne | backend/server.py:218-238 | a single finding scores 75 (Critical), 85 (High), 92 (Medium) or 97 (any other label) |
| Scoring.ScoreOf | backend/server.py:218-238 | the score lies in [0, 100] |
| Scoring.CalculateSecurityScore | backend/server.py:218-238 | the penalty loop computes the score function |
| Scoring.PenaltyAppend | backend/server.py:226-235 | the penalty is additive over concatenation |
| Scoring.PenaltyAtLeast | backend/server.py:226-235 | the penalty is at least 3 points per finding |
| Scoring.ScoreNeverRises | backend/server.py:218-238 | appending findings never raises the score |
| Scoring.FullScoreIffClean | backend/server.py:223-238 | the score is 100 iff there are no findings |
| Scoring.CriticalCostsQuarter | backend/server.py:227-238 | a Critical finding caps the score at 75 |
| Scoring.DeduplicateVulnerabilities | backend/server.py:194-214 | the loop with its seen set computes the first-occurrence deduplication |
| Scoring.DedupLoop | backend/server.py:199-212 | for any key function, the seen-set loop equals the first-occurrence filter |
| Scoring.KeySetMembers | backend/server.py:199-212 | the seen set holds exactly the keys of the findings passed |
| Scoring.DedupKeys | backend/server.py:194-214 | the output keeps every input key and no key twice |
| Scoring.DedupFirstOccurrences | backend/server.py:194-214 | the output is the subsequence of the input at exactly the first occurrence of each key |
| Scoring.DedupOfDistinct | backend/server.py:194-214 | a list without repeated keys is unchanged |
| Scoring.DedupIdempotent | backend/server.py:194-214 | deduplicating twice is deduplicating once |
| Scoring.MissingCweIsUnknown | backend/server.py:204-208 | a missing CWE, an empty CWE and "UNKNOWN" give the same key when the locations agree |
| RepoIntake.BeforeFence | backend/server.py:312 | `split('```')[1]` is the longest fence-free prefix, stopped by a fence or the end |
| RepoIntake.BeforeFenceIsFree | backend/server.py:312 | the text between two fences contains no fence |
| RepoIntake.FencedWith | backend/server.py:309-315 | an unfenced reply is only stripped; a fenced reply loses every fence |
| RepoIntake.StripFenceShape | backend/server.py:309-315 | the same, with Python's whitespace |
| RepoIntake.StripFenceIdempotent | backend/server.py:309-315 | stripping twice is stripping once |
| RepoIntake.JsonFenceRoundTrip | backend/server.py:309-315 | a `json`-tagged fence around a body without backquotes gives back the stripped body |
| RepoIntake.NonSlashRun | backend/server.py:426 | `[^/]+` greedily takes the maximal run of non-slash characters |
| RepoIntake.SearchCanonical | backend/server.py:426-432 | on `https://github.com/<owner>/<repo>`, the regex search returns owner and repo as its two groups |
| RepoIntake.CanonicalUntrimmed | backend/server.py:427 | `strip('/')` leaves a canonical URL as it is |
| RepoIntake.ParseCanonicalAsWritten | backend/server.py:425-433 | as written, the canonical URL gives the owner and the repo name with every ".git" removed |
| RepoIntake.PagesRepoMangled | backend/server.py:433 | as written, the repository "user.github.io" comes back as "userhub.io" |
| RepoIntake.PagesNameMangled | backend/server.py:433 | `replace('.git', '')` turns "user.github.io" into "userhub.io" |
| RepoIntake.RepoUrlLayout | backend/server.py:426 | where the lead-in, host, owner, repository and tail sit in a repository URL |
| RepoIntake.MatchRepoUrl | backend/server.py:426 | the pattern matches right after the lead-in with owner and repository as its groups, whatever path follows |
| RepoIntake.NoMatchWithoutG | backend/server.py:426-427 | no match starts at a character other than 'g', so the search moves on |
| RepoIntake.SearchRepoUrl | backend/server.py:426-427 | the leftmost match of a repository URL whose lead-in has no 'g' is the one after the lead-in |
| RepoIntake.TrimRepoUrl | backend/server.py:427 | `strip('/')` only shortens the path tail of a repository URL |
| RepoIntake.ParseRepoUrlAsWritten | backend/server.py:423-433 | any URL `<lead-in>github.com/<owner>/<repo>` followed by nothing or a path gives the owner and the name with every ".git" removed |
| RepoIntake.ParseBareUrl | backend/server.py:423-433 | `github.com/<owner>/<repo>` without a scheme parses the same way |
| RepoIntake.ParseTreeUrl | backend/server.py:423-433 | a URL into a branch's tree names the same repository |
| RepoIntake.RemoveAllNoDot | backend/server.py:433 | text without a dot passes through the replacement unchanged |
| RepoIntake.StripGitSuffix | backend/server.py:432 | only a trailing ".git" is removed, as the source comment intends |
| RepoIntake.ParseCanonicalCorrected | backend/server.py:425-433 | with the suffix-only removal, a name without ".git" comes back unchanged, whatever else it contains |
| RepoIntake.ParseCanonicalCorrectedGit | backend/server.py:425-433 | with the suffix-only removal, `<repo>.git` comes back as `<repo>` |
| RepoIntake.ParseRepoUrlCorrected | backend/server.py:423-433 | with the suffix-only removal, any such URL gives the owner and the name without a trailing ".git" |
| RepoIntake.CodeFiles | backend/server.py:459-463 | at most 20 files are selected |
| RepoIntake.QualifyingExact | backend/server.py:459-462 | the filtered items are exactly the blobs with a listed extension, in tree order |
| RepoIntake.CodeFilesSelection | backend/server.py:459-466 | the selection holds only code files, in tree order; it is all of them when there are at most 20 and exactly 20 otherwise; it is empty iff the tree has no code file |
| Report.ReportRank | backend/server.py:631 | the rank comes from the report table, is 0 exactly for labels outside it, and is within 0..5 |
| Report.InfoRanksAsUnknown | backend/server.py:631 | the report ranks "Info" 0, like an unknown label, while the dashboard ranks it 1 |
| Report.SeverityLabel | backend/server.py:627 | a missing severity reads as "Unknown" |
| Report.SeverityTally | backend/server.py:624-631 | the counts sum to the number of findings; lines are ordered by report rank, highest first; they are a permutation of the tally |
| Report.TallyLines | backend/server.py:624-631 | a label has a line iff some finding carries it, and every line counts at least one finding |
| Tally.FirstSeen | frontend/src/Dashboard.js:277-279 | dictionary keys are distinct, and they are exactly the labels seen |
| Tally.TalliedEntries | frontend/src/Dashboard.js:277-279 | each entry is a seen label with its number of occurrences, which is positive |
| Tally.TalliedTotal | backend/server.py:626-628 | the counts sum to the number of labels |
| Tally.TalliedKeys | backend/server.py:626-628 | a label is a key iff it occurs |
| Tally.TalliedSnocExisting | backend/server.py:628 | counting a known label increments its entry in place |
| Tally.TalliedSnocNew | backend/server.py:628 | counting a new label appends an entry with count 1 |
| Tally.CountOne | backend/server.py:628 | counting one more label into the tally of the labels seen gives the tally with that label added |
| Tally.CountLabels | backend/server.py:625-628 | the counting loop builds the tally |
| Tally.SortByRank | backend/server.py:631 | the sorted result is ordered by rank, highest first, and is a permutation of the input |
| Tally.SortByRankStable | backend/server.py:631 | the sort is stable: for every rank, the entries of that rank come out in their input order (with the two facts above this determines the result) |
| Tally.SortByRankTotal | backend/server.py:631 | sorting keeps the sum of the counts |
| Text.Trim | backend/server.py:309 | `strip()` removes only droppable characters from the ends; its result is empty iff every character is droppable |
| Text.TrimIsSlice | backend/server.py:309 | what trimming keeps is a slice; everything before and after it is droppable |
| Text.TrimIdempotent | backend/server.py:309 | stripping twice is stripping once |
| Text.ToUpper | backend/server.py:206 | `upper()` maps each character to its ASCII upper case |
| Text.ToLower | backend/server.py:207 | `lower()` maps each character to its ASCII lower case |
| AuditPipeline.Normalise | backend/server.py:320-346 | each raw finding gets the severity of the table as written, the fix time of that severity and its category; "UNKNOWN" replaces a missing CWE, and the title and location get their defaults |
| AuditPipeline.AnalyseFindings | backend/server.py:319-350 | the conversion loop followed by deduplication |
| AuditPipeline.AuditCode | backend/server.py:373-399 | the result carries the findings of the reply, their score and their impact |
| AuditPipeline.AuditOf | backend/server.py:391-395 | the result holds the findings and a score within 0..100 |
| AuditPipeline.AnalysedRated | backend/server.py:319-350 | every returned finding is rated by the tables as written and comes from the reply; no two share a key; there are no more than were reported |
| AuditPipeline.FindingsCharted | backend/server.py:319-367 | every finding has a level the severity chart shows and the matching fix time, and the dashboard groups it under its server category |
| AuditPipeline.SeverityChartCountsAll | frontend/src/Dashboard.js:341-347 | the severity chart of any server result accounts for every finding |
| AuditPipeline.FixCostOfFindings | backend/server.py:153-168 | a result's fix cost is 2500 × its findings' fix times |
| AuditPipeline.ParseFailureResult | backend/server.py:353-367 | an unparsable reply gives one Low finding, score 97 and ₹2,500, grouped as "Other Security Issues" |
| AuditPipeline.CleanReplyResult | backend/server.py:223-224 | an empty finding list scores 100 at no cost and grades A |
| AuditPipeline.CriticalNeverSecure | frontend/src/Dashboard.js:221-227 | one Critical finding rules out grade A and the Good badge |
| AuditPipeline.PathTraversalRated | backend/server.py:322-328 | as written, a reported CWE-22 is Medium, takes 4 hours and is grouped under Path Traversal, while CWE-022 is Critical, takes 24 hours and falls into "Other Security Issues" |
| AuditPipeline.NormaliseCorrected | backend/server.py:55-90 | over the corrected severity table, the conversion differs from Normalise only in severity and fix time, and only for "CWE-22" and "CWE-022" |
| AuditPipeline.PathTraversalRatedCorrected | backend/server.py:55-130 | with the corrected table, a reported CWE-22 is Critical, takes 24 hours and is grouped under Path Traversal |

## Left out

- Presentation is not modelled: JSX markup, CSS classes (`getSeverityColor`), `formatCurrency`, toasts and the report's text layout.
- axios requests, the PDF download link, `localStorage` writes and reads: replies and failures are method calls, and the stored plan is a constructor parameter.
- Timer durations (600 ms, 800 ms, about 16.7 ms) and any interleaving of the two intervals: each tick, the grace period and each frame is a separate method call.
- DashboardState.Dashboard.CounterTick: frames use the exact floor(target·k/60), not `Math.floor(target / 60 * k)` in floating point, which can differ by one at intermediate frames; frame 61 is exact either way.
- AuditPipeline.FindingsOf: a reply that parses as JSON but is not a list of objects, or whose fields fail the finding model's validation, ends in HTTP 500 in the source (backend/server.py:321-347, 367-369, 405-407); the `parse` parameter models such a reply as either a JSON error or a list of findings, and the dashboard's side of a failed request is `DashboardState.Dashboard.AuditFailed`.
- The language-model call, `json.loads`, MongoDB inserts, GitHub HTTP fetches, base64 decoding, reportlab layout, FastAPI routing and CORS. JSON parsing is a function parameter of `AuditPipeline.FindingsOf`.
- `audit_repo` (backend/server.py:409-530) beyond URL parsing and file selection: fetching and concatenating file contents is I/O.
- frontend/src/Home.js, frontend/src/App.js and backend/emergentintegrations are not part of this model.
- Case mapping for dedup keys is ASCII only; Python's `upper()` and `lower()` also fold other Unicode letters.
- `strip()` and `trim()` use fixed whitespace sets (Python's `str.isspace` and JavaScript's WhiteSpace and LineTerminator), listed character by character.
- A null title or location from the model would fail pydantic validation; titles and locations are modelled as missing or present strings only.
- JavaScript orders integer-like object keys before other keys; severity and category labels are assumed not to be integer strings.
- Labels that name JavaScript `Object.prototype` members ("constructor", "toString", "__proto__" and the like) are treated as ordinary keys. In the source, `groups[category].push` throws for such a category, `dist[sev] || 0` concatenates strings or the assignment to `dist["__proto__"]` is lost, and `toggleGroup` can never open such a group (frontend/src/Dashboard.js:234-237, 278, 288); objects are modelled as plain dictionaries.
- Report.SeverityLabel: a severity that is present but null reads as `None` in the report (`get` returns the stored null); only a missing severity, which reads "Unknown", is modelled.
- The component's state hooks are grouped into five fields (`form`, `scan`, `auditResult`, `countUp`, `panels`); React's batching of updates is not modelled.
- The display-only fields of a finding (description, remediation, data impact, SOC 2 controls) and the result's id and timestamp.

## Findings

| source | as written | input that shows it | evidently intended | confidence | as-written member | corrected member |
|---|---|---|---|---|---|---|
| backend/server.py:60 | the severity table's path-traversal key is "CWE-022", while the category table and the usual spelling use "CWE-22" | cwe_id "CWE-22" is rated Medium (fix time 4 h) but categorised "Path Traversal" | "CWE-22" rated Critical, like the other injection-class entries | not executed | Scoring.PathTraversalMismatch | Scoring.SeverityCorrectedAgrees |
| backend/server.py:433 | `repo.replace('.git', '')` removes every ".git" in the name, not only the suffix the comment names | https://github.com/user/user.github.io gives repo "userhub.io" | remove a trailing ".git" only | not executed | RepoIntake.PagesRepoMangled | RepoIntake.ParseCanonicalCorrected |
