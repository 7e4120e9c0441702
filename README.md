# Sprint report for Discord: a Dafny model

The reporter reads the issues of the open SQHUB sprint from Jira, analyses
them, renders a Discord report and posts it through a webhook. This project
models the three in-memory stages between the fetch and the post:

- **`analyze_sprint_data`**: one pass over the issues.
  - It counts issues per status, per assignee (issues without an assignee count under "Não atribuído"), per priority and per issue type.
  - It counts, per developer, the assigned issues that are "Done" and the ones "EM ANDAMENTO".
  - It collects the unassigned, blocked and recently completed issues in input order.
  - It derives the totals, the progress percentage and the completion estimate (a number of days, or "Não calculado").
- **`create_discord_message`**: the report built line by line. It covers the status and priority markers with their defaults, the tables, the first five recent completions and first three unassigned issues with an "e mais N" remainder, the all-clear note when nothing is blocked, and the three recommended actions.
- **`send_to_discord`**: a message over 1900 characters is cut into 1900-character slices. Every slice after the first gets a "Continuação" marker. The parts are posted in order until one is not acknowledged with 204.

Modules:

- `wrappers.dfy`: `Option`.
- `text.dfy`: upper-casing, substring search, `s[:n] + '...'` truncation, decimal numerals.
- `counters.dfy`: Python `Counter`/`defaultdict(int)` as insertion-ordered association lists.
- `rounding.dfy`: Python's `round` (half to even) on exact fractions. Percentages are kept in tenths of a percent: `round(c / t * 100, 1)` is `RoundHalfEven(1000 * c, t)` tenths.
- `analyzer.dfy`: the analysis.
  - The issue record and the analysis record.
  - The loop as a method (`Tabulate`, `AnalyzeSprintData`), proved equal to the fold `Accumulate` / `SprintAnalysis`.
  - Reference definitions of every counter (`Tally(Labels(...))`, `LabelCount`) and every list (`Listing`), with lemmas tying the analysis to them.
- `renderer.dfy`: the report as a sequence of `Line`s. Each line holds the values the report prints.
  - `CreateDiscordMessage` appends the sections with loops and is proved equal to `Report`.
  - Lemmas state the display rules about `Report`.
- `delivery.dfy`: slicing, continuation markers, and the posting loop. The webhook is a function from the post's index to its status code.

## Model

| member | source | states |
|---|---|---|
| Text.Upper | complete_jira_reporter.py:85 | upper-casing keeps the length; ASCII letters map to capitals, everything else unchanged |
| Text.ContainsUpper | complete_jira_reporter.py:85 | a substring of a status stays a substring after both are upper-cased |
| Text.Truncated | complete_jira_reporter.py:80 | `s[:n] + '...'`: at most n+3 characters, ends in "...", the rest is a prefix of s, all of s when short, exactly n+3 when long |
| Text.NumberText | complete_jira_reporter.py:276 | the part number is printed as a non-empty string of digits without a leading zero |
| Text.DecimalRoundTrip | complete_jira_reporter.py:276 | reading the printed number back gives the number |
| Counters.Increment | complete_jira_reporter.py:66-69 | `counter[name] += 1` adds exactly one to the counter's total |
| Counters.IncrementPositive | complete_jira_reporter.py:66-69 | incrementing a counter without zero counts creates none |
| Counters.IncrementGet | complete_jira_reporter.py:66-69 | after `counter[name] += 1`, `get(name)` grew by one and every other name is unchanged |
| Counters.IncrementNames | complete_jira_reporter.py:66-69 | the keys after an increment are the old keys plus the name, and stay distinct |
| Counters.Tally | complete_jira_reporter.py:66-69 | counting a sequence of names gives distinct keys whose counts sum to the number of names |
| Counters.TallyPositive | complete_jira_reporter.py:66-69 | every key of a tally is counted at least once |
| Counters.IncrementKeys | complete_jira_reporter.py:66-69 | `counter[name] += 1` keeps an existing name in its place and appends a new one at the end |
| Counters.TallyNames | complete_jira_reporter.py:66-69 | the keys of a tally are exactly the names counted |
| Counters.TallyKeys | complete_jira_reporter.py:121-126 | the keys of a tally iterate in order of first occurrence of the names |
| Counters.TallyGet | complete_jira_reporter.py:105 | `get(name, 0)` on a tally is the number of occurrences of the name |
| Counters.Get | complete_jira_reporter.py:105 | `counter.get(name, 0)`; what it returns is stated by TallyGet (occurrences of the name), GetEntry (the entry's count) and IncrementGet |
| Counters.GetEntry | complete_jira_reporter.py:178 | looking up a key of a counter gives that key's count |
| Rounding.RoundHalfEven | complete_jira_reporter.py:113 | `round(n / d)`: the nearest integer, ties to even, between 0 and n for n >= 0 |
| Rounding.RoundExact | complete_jira_reporter.py:106 | a quotient that is already an integer is left unchanged |
| Rounding.RoundMonotone | complete_jira_reporter.py:106 | rounding preserves order |
| Rounding.PercentBounds | complete_jira_reporter.py:106 | a percentage of a part within its whole lies in 0..100.0, and is 100.0 for the whole |
| Rounding.PercentTenths | complete_jira_reporter.py:106 | `round(part / whole * 100, 1)` in tenths, exactly; never negative, and PercentBounds bounds it by 100.0 |
| Analyzer.DaysBetween | complete_jira_reporter.py:90 | `(today - updated).days`: whole days elapsed, rounded down, also when negative |
| Analyzer.AssigneeName | complete_jira_reporter.py:63 | the display name, or "Não atribuído" without an assignee; how the workload counts it is stated by WorkloadSplit and UnassignedIssues |
| Analyzer.IsBlocked | complete_jira_reporter.py:85 | the upper-cased status contains "IMPEDIMENTO" or "BLOCKED"; BlockedAnyCase states that any casing of either marker counts, ListingMembers that exactly these issues are listed |
| Analyzer.DailyRate | complete_jira_reporter.py:110-111 | the corrected rate: recent completions dated yesterday; its bounds are stated by DailyRateBounds |
| Analyzer.DailyRateAsWritten | complete_jira_reporter.py:110-111 | the rate as written, None when `strptime` raises; AsWrittenRateNeverCounts states it is never positive |
| Analyzer.Progress | complete_jira_reporter.py:106 | 0 for an empty sprint, within 0..100.0 when no more issues are done than exist, and 100.0 when all are done |
| Analyzer.EstimateDays | complete_jira_reporter.py:109-115 | "Não calculado" if and only if there are no recent completions; otherwise a number of days between 0 and the remaining issues |
| Analyzer.Step | complete_jira_reporter.py:58-101 | one turn of the loop; AccumulateStep and Tabulate tie it to the loop, and AccumulateCounter and AccumulateList to the reference counts and filters |
| Analyzer.DailyRateBounds | complete_jira_reporter.py:110-111 | the daily rate is at most the number of recent completions, counts all of them when all are dated yesterday, and none when none are |
| Analyzer.AsWrittenRateNeverCounts | complete_jira_reporter.py:110-111 | as written, the rate is 0 or an exception for any year other than 1900 |
| Analyzer.AsWrittenRateMissesYesterday | complete_jira_reporter.py:110-111 | a completion dated yesterday is counted 0 times as written and once as corrected |
| Analyzer.AsWrittenRateFailsOnLeapDay | complete_jira_reporter.py:111 | a completion dated 29 February makes the rate raise as written; the corrected rate counts it |
| Analyzer.AccumulateStep | complete_jira_reporter.py:57-101 | one more issue updates the loop state by exactly one step |
| Analyzer.AccumulateCounter | complete_jira_reporter.py:57-76 | after any prefix of the issues, each of the six counters is the tally of the labels that prefix gives |
| Analyzer.AccumulateList | complete_jira_reporter.py:77-101 | after any prefix of the issues, each of the three lists is exactly the filter of that prefix |
| Analyzer.AnalysisCounter | complete_jira_reporter.py:121-126 | the returned counters are the tallies of the status, assignee, priority and type labels and of the per-developer "Done" / "EM ANDAMENTO" labels |
| Analyzer.AnalysisList | complete_jira_reporter.py:127-129 | the returned lists are the filtered, order-preserving listings of the input |
| Analyzer.LabelCount | complete_jira_reporter.py:57-76 | no name is counted for more issues than there are |
| Analyzer.OccurrencesOfLabels | complete_jira_reporter.py:66-76 | the occurrences of a name among the labels are the issues filed under it |
| Analyzer.AnalysisGet | complete_jira_reporter.py:66-76 | `get(name, 0)` on any counter is the number of issues its grouping files under the name |
| Analyzer.LabelsLength | complete_jira_reporter.py:66-69 | the status, assignee, priority and type groupings give every issue exactly one label |
| Analyzer.CounterTotal | complete_jira_reporter.py:57-69 | the status, workload, priority and type counts each add up to `total_issues` |
| Analyzer.CounterDistinct | complete_jira_reporter.py:121-126 | every counter holds each name once |
| Analyzer.AnalysisKeys | complete_jira_reporter.py:121-126 | each returned counter holds the names its grouping gives, each once, in the order of the first issue giving it, all with a count of at least one; the tables at lines 168, 177, 233 and 241 print their rows in this order |
| Analyzer.AnalysisKeyMembers | complete_jira_reporter.py:121-126 | a name is a key of a returned counter if and only if some issue is counted under it |
| Analyzer.DeveloperSplit | complete_jira_reporter.py:72-76 | per developer, "Done" plus "EM ANDAMENTO" issues are at most the issues assigned to them (the branches are if/elif) |
| Analyzer.DeveloperAssigned | complete_jira_reporter.py:72-76 | `dev_completed` and `dev_in_progress` count only issues with an assignee |
| Analyzer.DeveloperRow | complete_jira_reporter.py:72-76 | `dev_completed[d] + dev_in_progress[d] <= dev_workload[d]` for every developer d |
| Analyzer.AnalysisConsistent | complete_jira_reporter.py:57-106 | the analysis has distinct developers, no developer over their workload, no status above the total, and a positive total whenever a status exists |
| Analyzer.WorkloadSplit | complete_jira_reporter.py:63-67 | the workload of a name is the issues assigned to it, plus the unassigned ones for "Não atribuído" |
| Analyzer.UnassignedListLength | complete_jira_reporter.py:77-82 | one unassigned entry per issue without an assignee |
| Analyzer.UnassignedIssues | complete_jira_reporter.py:63-82 | `len(unassigned_issues)` is the number of unassigned issues, and exactly those are added to the "Não atribuído" workload |
| Analyzer.ListingAppend | complete_jira_reporter.py:78-101 | the lists keep input order: the listing of a concatenation is the concatenation of the listings |
| Analyzer.ListingMembers | complete_jira_reporter.py:77-101 | an entry is listed if and only if some issue passes the section's filter and yields it |
| Analyzer.ListedEntries | complete_jira_reporter.py:78-101 | each entry has the kind of its list; summaries are at most 43 (recent) or 53 (blocked, unassigned) characters |
| Analyzer.RecentAreDone | complete_jira_reporter.py:95-101 | no more recent completions than issues with status exactly "Done" |
| Analyzer.RecentWithinCompleted | complete_jira_reporter.py:93-105 | `completed_issues` counts status "Done", and recent completions <= completed <= total |
| Analyzer.ProgressBounds | complete_jira_reporter.py:104-106 | progress lies in 0..100.0, is 0 for an empty sprint and 100.0 when every issue is done |
| Analyzer.EstimateRule | complete_jira_reporter.py:109-115 | the estimate is "Não calculado" if and only if there are no recent completions, otherwise between 0 and the remaining issues |
| Analyzer.BlockedAnyCase | complete_jira_reporter.py:85 | a status containing "blocked" or "impedimento" in any ASCII casing is blocked |
| Analyzer.Tabulate | complete_jira_reporter.py:57-101 | the loop over the issues computes the fold of the per-issue step |
| Analyzer.EstimateCompletion | complete_jira_reporter.py:109-115 | the estimate the function computes after its loop is exactly `EstimateDays` of the totals and recent completions, so it has that function's properties |
| Analyzer.AnalyzeSprintData | complete_jira_reporter.py:37-131 | the method returns `SprintAnalysis(issues, now, dateOf)`, the record the lemmas above characterise |
| Renderer.StatusEmoji | complete_jira_reporter.py:136-145 | a known status gets its marker, and the default marker is used if and only if the status is unknown |
| Renderer.PriorityEmoji | complete_jira_reporter.py:147-152 | a known priority gets its marker, and the default marker goes exactly to unknown priorities and "Lowest" |
| Renderer.RowsMembers | complete_jira_reporter.py:168-241 | every table line is the line of one of the counter's entries |
| Renderer.ItemsMembers | complete_jira_reporter.py:192-224 | an item line is present if and only if its entry is in the list shown |
| Renderer.ShownLists | complete_jira_reporter.py:188-227 | each list section shows only its own list's entries, in order |
| Renderer.ShownReport | complete_jira_reporter.py:154-262 | only the three list sections show list entries |
| Renderer.ReportShows | complete_jira_reporter.py:188-227 | the report shows the first five recent completions, every blocked issue and the first three unassigned issues, in order |
| Renderer.HeaderLines | complete_jira_reporter.py:155-185 | the header holds the summary, the two headings and status/developer table lines |
| Renderer.BreakdownLines | complete_jira_reporter.py:229-242 | the breakdown holds its two headings and table lines |
| Renderer.RecentLines | complete_jira_reporter.py:188-202 | the non-item lines of the recent section: the note when empty, otherwise the heading and a remainder line when there are more than five |
| Renderer.BlockedLines | complete_jira_reporter.py:205-216 | the non-item lines of the blocked section: the all-clear note when empty, otherwise the heading with the count |
| Renderer.UnassignedLines | complete_jira_reporter.py:219-227 | the non-item lines of the unassigned section: nothing when empty, otherwise the heading and a remainder line when there are more than three |
| Renderer.ListAndClosingLines | complete_jira_reporter.py:187-257 | where every list or closing line can appear in the report, both directions |
| Renderer.RecentRemainder | complete_jira_reporter.py:196-197 | "e mais N" follows the recent completions if and only if there are more than five, with N = length - 5 |
| Renderer.UnassignedRemainder | complete_jira_reporter.py:226-227 | "e mais N" follows the unassigned issues if and only if there are more than three, with N = length - 3 |
| Renderer.AllClearNote | complete_jira_reporter.py:205-216 | the all-clear note appears if and only if no issue is blocked |
| Renderer.NothingRecentNote | complete_jira_reporter.py:188-202 | the "nothing completed" note appears if and only if there are no recent completions |
| Renderer.ClosingLines | complete_jira_reporter.py:245-262 | the closing holds the heading, exactly the actions whose conditions hold, and the signature |
| Renderer.AssignActionRule | complete_jira_reporter.py:250-251 | "Atribuir responsáveis para N tarefas" appears if and only if N > 0 issues are unassigned |
| Renderer.ResolveActionRule | complete_jira_reporter.py:253-254 | "Resolver N impedimentos ativos" appears if and only if N > 0 issues are blocked |
| Renderer.AccelerateActionRule | complete_jira_reporter.py:256-257 | "Acelerar desenvolvimento" appears if and only if progress is below 50% |
| Renderer.RowOrigin | complete_jira_reporter.py:166-241 | table lines come only from the four tables |
| Renderer.StatusRow | complete_jira_reporter.py:168-171 | a status line carries its status's marker and a percentage in 0..100.0 |
| Renderer.DevRow | complete_jira_reporter.py:177-185 | a developer line's done, in-progress and pending add up to its total, pending is never negative, and the rate is in 0..100.0 |
| Renderer.TableLines | complete_jira_reporter.py:166-241 | in any table line, the markers come from the lookups and the figures stay within bounds |
| Renderer.SprintReport | complete_jira_reporter.py:168-185 | for any analysed sprint, the report can be rendered, no pending count is negative and no percentage exceeds 100.0 |
| Renderer.CreateDiscordMessage | complete_jira_reporter.py:133-264 | the method builds exactly the specified report |
| Renderer.AppendRows | complete_jira_reporter.py:168-171 | a table loop appends one line per counter entry, in order |
| Renderer.AppendItems | complete_jira_reporter.py:209-211 | a list loop appends one item per entry, in order |
| Renderer.AppendRecent | complete_jira_reporter.py:188-202 | appends the recent section |
| Renderer.AppendBlocked | complete_jira_reporter.py:205-216 | appends the blocked section |
| Renderer.AppendUnassigned | complete_jira_reporter.py:219-227 | appends the unassigned section |
| Renderer.AppendActions | complete_jira_reporter.py:245-262 | appends the recommended actions and the signature |
| Delivery.Chunks | complete_jira_reporter.py:272 | there are ceil(length / 1900) slices |
| Delivery.ChunksUnfold | complete_jira_reporter.py:272 | a long message's slices are its first 1900 characters followed by the slices of the rest |
| Delivery.ChunksConcat | complete_jira_reporter.py:272 | the slices concatenate back to the message |
| Delivery.ChunkSizes | complete_jira_reporter.py:272 | every slice holds 1 to 1900 characters, and all but the last hold exactly 1900 |
| Delivery.ContinuationPrefix | complete_jira_reporter.py:276 | the continuation marker is non-empty |
| Delivery.ContinuationNumber | complete_jira_reporter.py:276 | the marker of part i carries the digits of i + 1 |
| Delivery.Outgoing | complete_jira_reporter.py:270-287 | every message gives at least one post |
| Delivery.OutgoingParts | complete_jira_reporter.py:270-287 | a short message goes as one unprefixed post. A long one goes as its slices in order, only those after the first marked. Stripping the markers gives back the message |
| Delivery.SendToDiscord | complete_jira_reporter.py:266-287 | posts a prefix of the parts. Every post but the last was answered 204, and it stops early only after a post not answered 204. It returns true if and only if every part was acknowledged |
| Delivery.SendParts | complete_jira_reporter.py:274-284 | the loop over the parts of a long message. It goes on while posts are answered 204 and stops at the first that is not. It returns true if and only if every part was acknowledged |

## Left out

- Fetching the issues from Jira (`get_sprint_issues`, lines 20-35), the environment configuration (lines 15-18) and `main`'s control flow and printing (lines 289-322) are I/O and are not modelled.
- `requests.post` is not modelled: the webhook is a parameter giving the status code of each post. The error message printed when a part fails is left out.
- Time is abstract. Instants are integers in milliseconds and the time of the run is a parameter. The local calendar date of an instant is a function parameter.
  - ISO parsing of `updated` (the `'Z'`/`'+00:00'` replacements), `strftime`/`strptime` and time zones are left out.
  - A recent entry stores its completion instant instead of the formatted `%d/%m %H:%M` stamp.
- The report is a sequence of structured lines. Each line holds the values it prints. The fixed Portuguese wording, the emoji decoration, the date stamps in the header and signature, and the two-line layout of a recent or blocked entry are not reproduced. Turning lines into text is not modelled, so the length of the rendered message is not connected to the slicing.
- Text.Upper: only ASCII letters are upper-cased. Python's `str.upper` also maps accented and other non-ASCII letters, which can change whether a status counts as blocked.
- Rounding.RoundHalfEven: percentages and the estimate are rounded exactly on fractions. Python rounds binary floating-point values, which can differ from the exact result at a tie such as x.x5.
- Analyzer.EstimateDays: the daily rate uses the corrected comparison of completion dates with yesterday (see Findings). As written, the rate is always 0, so the estimate equals the number of remaining issues, or the run raises on 29 February.
- The estimate rounds `remaining / max(rate, 1)` half to even, as `round` does; it is not rounded up.
- The unused `time_in_status` (line 49) and the `json` and `statistics` imports (lines 8, 11) are left out.

## Findings

| source | as written | input that shows it | evidently intended | confidence | as-written member | corrected member |
|---|---|---|---|---|---|---|
| complete_jira_reporter.py:110-111 | re-parses the year-less `%d/%m %H:%M` completion stamp, which gives a date in 1900 that never equals yesterday's date | run on 2026-10-15 with one issue completed on 2026-10-14: the rate is 0 instead of 1 | count the recent completions dated yesterday | high, not executed | Analyzer.AsWrittenRateMissesYesterday | Analyzer.DailyRateBounds |
| complete_jira_reporter.py:111 | `strptime` on a 29 February stamp raises, because 1900 is not a leap year, and the whole report fails | run on 2028-03-01 with one issue completed on 2028-02-29 | count that completion like any other | high, not executed | Analyzer.AsWrittenRateFailsOnLeapDay | Analyzer.DailyRateBounds |
