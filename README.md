# OADP test-log demystifier, modelled in Dafny

The OADP playground ships a small tool, the *demystifier*. It reads the build log of an OADP
end-to-end run, which is Ginkgo output. For each test it finds the places where the test is entered
and left (`> Enter [It] …` / `< Exit [It] …`), and it splits the log into **test runs**. A test
run holds **attempts**, and each attempt holds its own log lines. The tool times each attempt and
marks the ones that failed. The result can be printed as a summary table or written out as one log
file per attempt. An older tool in the same repository, `oadp_test_summary.go`, does a similar job
with a map keyed by test name and retry number. It also picks backup and restore timestamps out of
the log.

This project models that core and proves properties of it:

| module | file | models |
|---|---|---|
| `Wrappers` | wrappers.dfy | `Option` |
| `GoStrings` | go_strings.dfy | the parts of Go's `strings` package the code uses (`Index`, `Split`, `HasPrefix`/`HasSuffix`, `TrimSpace`, `ReplaceAll` of one character) |
| `GoTime` | go_time.dfy | `time.Time` as nanoseconds since 0001-01-01 UTC, where Go's zero time is 0; `Duration`; `Time.Sub`, which saturates at the int64 range; `time.Parse` for the layouts the code uses |
| `Model` | model.dfy | the data model of test_result_helpers.go, its status constants and setters |
| `Markers` | markers.dfy | the Enter, Exit and `[FAILED]` patterns of `SetIndividualTestsFromLog`, and the classification of a line |
| `Parser` | parser.dfy | `SetIndividualTestsFromLog`, `handleStartTag`, `getOrAddTestRun`, `handleEndTag`, `handleLogs`, `parseGingkoTime` |
| `LogUrl` | log_url.dfy | `GenerateLogURL`, and its copy `generateLogURL` in the older tool |
| `Dump` | dump.dfy | `DumpLogsToFileWithPrefixes` and the traversal of `DumpTestsToFolder` |
| `Summary` | summary.dfy | the aggregation and sort of `PrintTestSummary`, and the failed-attempt loop of `main` |
| `OadpSummary` | oadp_summary.dfy | the line loop of the older tool's `parseLogFile`, with `extractTimeFromEnterIt`, `parseTimestamp` and `parseTimestamps` |

How the model is built:

- **Functional model, imperative code.** Each loop of the Go code is a Dafny method with
  its loop, except `parseTimestamp`'s first-match loop over its formats. That loop is pure and is
  the recursive function `OadpSummary.FirstFormatMatch`. Each method is proved equal to a fold of
  a per-line step function. The properties are then proved about the fold.
- **Parser state.** The parser keeps a `currentAttempt *AttemptData` pointer. It always points into
  the `TestRun[r].Attempt` slice, and always at the last attempt of that run. It is modelled as the
  pair (run index, attempt index).
- **Classes and values.** `TestRunData` is a class whose `testRun` the methods update. Go's value
  structs (`AttemptData`, `IndividualTestRunData`, `EventStatus`, `EventData`) are datatypes.
  `EventStatus` is stored inside an attempt, so its pointer-receiver setters become member
  functions that return the new status.
- **Regular expressions.** Each regex becomes a function that finds the same leftmost match and
  the same captures for the pattern it stands for. Lines come from splitting on `"\n"`, so they
  never hold a newline, which the regexes' `.` would refuse.
- **The file system.** `os.Create` and `WriteString` are methods of a `Disk` object. The disk holds
  the file contents, whether creating a file succeeds, and how many more writes succeed. A failure
  can therefore occur at any write.

Three behaviours of the code are worth knowing:

- The Enter pattern needs `" @ "` before the time; a line that separates the time with `" - "`
  matches nothing (`Markers.EnterGroupsShape`).
- An Exit line whose time does not parse is not appended to the attempt's logs: nothing changes
  (`Parser.ExitStep`, `Parser.NonEnterStepEffect`).
- A `[FAILED]` line with no open attempt dereferences a nil pointer. `SetIndividualTestsFromLog`
  requires that no such line comes before the first Enter line, and then every `[FAILED]` line
  finds an open attempt (`Parser.FailureHasAttempt`).

In the older tool, the two `\d{4}/…` patterns of `parseTimestamp` always yield the zero time.
They are parsed with the two-digit-year layout `06/01/02`, so the slash is expected at position 2.
`LongMillisGivesZero` proves this for the first pattern. `LongClockNeverDecides` shows the fourth
pattern is never the first that matches.

## Model

| member | source | states |
|---|---|---|
| Model.EventStatus.SetFailed | go_scripts/demystifier/test_result_helpers.go:15-17 | the new status is "FAILED" |
| Model.EventStatus.SetPassing | go_scripts/demystifier/test_result_helpers.go:18-20 | the new status is "PASSED" |
| Model.EventStatus.SetTimeout | go_scripts/demystifier/test_result_helpers.go:21-23 | the new status is "TIMEOUT" |
| Model.StatusConstantsDistinct | go_scripts/demystifier/test_result_helpers.go:5-13 | the three constants are pairwise distinct, and the zero status "" is none of them |
| Model.SettersOverride | go_scripts/demystifier/test_result_helpers.go:15-23 | each setter is idempotent; after any setter, the last setter called alone decides the status; the three results differ |
| Model.TestRunData.constructor | go_scripts/demystifier/test_result_helpers.go:59-62 | a run holding the given full log and no test runs |
| GoStrings.IndexFromIsFirst | go_scripts/oadp_test_summary.go:108 | `IndexFrom` finds the first occurrence at or after the start, and finds none only when there is none |
| GoStrings.LastAtMostIsLast | go_scripts/demystifier/test_utils.go:112 | `LastAtMost` finds the last occurrence at or before the bound, and finds none only when there is none |
| GoStrings.SplitJoin | go_scripts/demystifier/test_utils.go:111 | joining the pieces of `strings.Split` with the separator gives back the input |
| GoStrings.SplitPiecesAvoidSeparator | go_scripts/oadp_test_summary.go:108 | no piece of a split contains the separator |
| GoStrings.LinesHaveNoNewline | go_scripts/demystifier/test_utils.go:111 | no line of a split on "\n" contains a newline |
| GoStrings.SplitTrailingSeparator | go_scripts/demystifier/test_utils.go:62 | a text ending in the one-character separator splits into a last piece "" |
| GoStrings.TrimSpace | go_scripts/oadp_test_summary.go:114 | the result is a slice of the input with only white space cut off before and after it, and it neither starts nor ends with white space |
| GoStrings.TrimLeftSpace | go_scripts/oadp_test_summary.go:114 | the result is a suffix of the input; what was removed is all white space; the result does not start with white space |
| GoStrings.TrimRightSpace | go_scripts/oadp_test_summary.go:114 | the result is a prefix of the input; what was removed is all white space; the result does not end with white space |
| GoStrings.ReplaceChar | go_scripts/demystifier/logs.go:18 | same length, and each '/' becomes '_' while every other character is kept |
| GoStrings.ConcatAppend | go_scripts/demystifier/logs.go:24-33 | the writes of two sequences of strings are the writes of the first, then those of the second |
| GoTime.Sub | go_scripts/demystifier/test_utils.go:210 | the exact difference when it fits in int64, else the saturated minimum or maximum duration |
| GoTime.Wrap64 | go_scripts/demystifier.go:89 | an int64 that equals its argument modulo 2^64, and equals the argument when that already fits |
| GoTime.Quot | go_scripts/demystifier.go:95 | Go's truncating integer division: the quotient is rounded toward zero for negative and non-negative dividends |
| GoTime.ParseFraction | go_scripts/demystifier/test_utils.go:226-229 | a parsed fraction is below one second; an optional fraction may be absent, giving 0 |
| GoTime.Parse | go_scripts/demystifier/test_utils.go:234 | a successful `time.Parse` never yields the zero time, so the zero time marks "not parsed" |
| Markers.EnterMatch | go_scripts/demystifier/test_utils.go:112 | the first occurrence of the Enter marker followed by the Enter groups; no contract of its own, its captures are stated by `EnterGroups`, `EnterGroupsShape` and `MatchStartsAtMarker` and its use by `Classify` |
| Markers.ExitMatch | go_scripts/demystifier/test_utils.go:113 | the first occurrence of the Exit marker followed by the Exit groups; no contract of its own, see `ExitGroups`, `ExitGroupsShape`, `MatchStartsAtMarker` and `Classify` |
| Markers.EnterGroups | go_scripts/demystifier/test_utils.go:112 | the three captures of the Enter pattern are non-empty |
| Markers.EnterGroupsShape | go_scripts/demystifier/test_utils.go:112 | the text after the Enter marker is exactly short name + " - " + full name + " @ " + time text |
| Markers.ExitGroups | go_scripts/demystifier/test_utils.go:113 | both captures of the Exit pattern are non-empty |
| Markers.ExitGroupsShape | go_scripts/demystifier/test_utils.go:113 | the text after the Exit marker is full name + " - " + some text + " @ " + time text + " (" + some text + ")" + the rest |
| Markers.MatchStartsAtMarker | go_scripts/demystifier/test_utils.go:112-113 | the match starts with the marker, at the marker's first occurrence |
| Markers.TrimIndent | go_scripts/demystifier/test_utils.go:114 | drops a prefix of tabs and spaces, leaving a suffix that starts with neither |
| Markers.IsFailureLine | go_scripts/demystifier/test_utils.go:114 | the line starts, after tabs and spaces, with "[FAILED]"; no contract of its own, see `TrimIndent` and `Classify` |
| Markers.Classify | go_scripts/demystifier/test_utils.go:118-131 | each line belongs to exactly one branch, in the priority Enter, Exit, `[FAILED]`, plain, and carries the captures of its pattern |
| Markers.EmptyLineIsPlain | go_scripts/demystifier/test_utils.go:118-131 | the empty line is a plain line |
| Parser.FirstParse | go_scripts/demystifier/test_utils.go:233-238 | the loop over layouts succeeds exactly when some layout accepts the text, and its time is one a layout gives |
| Parser.ExactLayoutIsOptional | go_scripts/demystifier/test_utils.go:225-230 | wherever a layout with exactly n fractional digits succeeds, the layout with an optional fraction gives the same time |
| Parser.GinkgoTimeIsOptional | go_scripts/demystifier/test_utils.go:224-243 | trying the four layouts in order is the same as parsing with the layout without fraction, which accepts any fraction |
| Parser.ParseGingkoTime | go_scripts/demystifier/test_utils.go:224-243 | the loop reports success exactly when a layout parses; the time is then that of the first such layout, else the zero time |
| Parser.SetAttempt | go_scripts/demystifier/test_utils.go:128 | a write through the attempt pointer changes that attempt only, and keeps every name, short name and attempt count |
| Parser.FindRun | go_scripts/demystifier/test_utils.go:184-189 | the first test run with the full name, and none only when no run has it |
| Parser.GetOrAdd | go_scripts/demystifier/test_utils.go:177-196 | an existing run of that name is returned untouched; otherwise a new empty run with both names is appended and returned |
| Parser.GetOrAddTestRun | go_scripts/demystifier/test_utils.go:177-196 | the method's scan and append leave the runs and the index `GetOrAdd` gives, and keep the full log |
| Parser.Bump | go_scripts/demystifier/test_utils.go:155 | `attempts[eventName]++`: that counter goes up by one from its Go default 0; the other counters are unchanged |
| Parser.EnterStep | go_scripts/demystifier/test_utils.go:138-175 | the new attempt goes to the first run with the full name, or to a new run with both names appended at the end; it is numbered by the old counter, holds [line] and the parsed start time or zero, and the cursor points at it; that run keeps its earlier attempts, every run keeps its names, every other run is unchanged; the counter is bumped |
| Parser.HandleStartTag | go_scripts/demystifier/test_utils.go:138-175 | the method performs exactly `EnterStep` on the runs, counters and cursor |
| Parser.OpenAttempt | go_scripts/demystifier/test_utils.go:149-166 | the new attempt is numbered by the old counter, named with the full name, holds just the Enter line, and starts at the parsed time or at the zero time when no layout parses |
| Parser.ExitStep | go_scripts/demystifier/test_utils.go:198-218 | with no open attempt, or a time that does not parse, nothing changes; the cursor stays valid |
| Parser.HandleEndTag | go_scripts/demystifier/test_utils.go:198-218 | the method performs exactly `ExitStep` |
| Parser.FailStep | go_scripts/demystifier/test_utils.go:123-128 | marking the open attempt failed keeps the cursor valid |
| Parser.LogStep | go_scripts/demystifier/test_utils.go:129-130 | a plain line with no open attempt is dropped; the cursor stays valid |
| Parser.HandleLogs | go_scripts/demystifier/test_utils.go:220-222 | the method performs exactly `LogStep` on the open attempt |
| Parser.Step | go_scripts/demystifier/test_utils.go:118-131 | after a line there is an open attempt exactly when there was one before or the line is an Enter line; the cursor is never cleared |
| Parser.Kinds | go_scripts/demystifier/test_utils.go:118-131 | one classification per line, in order |
| Parser.RunFrom | go_scripts/demystifier/test_utils.go:118-132 | the fold of `Step` over the lines keeps the cursor valid; its other properties are stated by `RunFromSnoc`, `CursorIffEnter`, `FailureHasAttempt`, `RunValid`, `CountIsEnterCount` and `RunKeys` |
| Parser.ParseLog | go_scripts/demystifier/test_utils.go:111-132 | the fold over the log split on "\n"; no contract of its own, see `SetIndividualTestsFromLog` and `TrailingNewline` |
| Parser.RunFromSnoc | go_scripts/demystifier/test_utils.go:118-132 | the state after i + 1 lines is one step from the state after i lines |
| Parser.CursorIffEnter | go_scripts/demystifier/test_utils.go:116-131 | after the lines there is an open attempt exactly when some line was an Enter line |
| Parser.FailureHasAttempt | go_scripts/demystifier/test_utils.go:123-128 | when no `[FAILED]` line comes before the first Enter, every `[FAILED]` line finds an open attempt |
| Parser.StepByClass | go_scripts/demystifier/test_utils.go:118-131 | the step of a line is the handler of its class: `handleStartTag`, `handleEndTag`, the FAILED write, or `handleLogs` |
| Parser.ParseLines | go_scripts/demystifier/test_utils.go:118-132 | the loop over the lines keeps the full log and leaves the runs that stepping the runs already present through every line, in order, gives |
| Parser.SetIndividualTestsFromLog | go_scripts/demystifier/test_utils.go:100-135 | nil data and empty logs give their errors and change nothing; otherwise no error, the full log is kept, and the runs are the fold of the step over the split lines |
| Parser.SetAttemptKeepsValid | go_scripts/demystifier/test_utils.go:128 | rewriting the open attempt so it stays well formed keeps the parser invariant |
| Parser.NonEnterStepKeepsValid | go_scripts/demystifier/test_utils.go:121-131 | Exit, FAILED and plain lines keep the parser invariant |
| Parser.AppendRunKeepsValid | go_scripts/demystifier/test_utils.go:193-195 | appending a new run with one attempt numbered 0 keeps the invariant |
| Parser.EnterNewKeepsValid | go_scripts/demystifier/test_utils.go:146-158 | an Enter of an unseen name keeps the invariant |
| Parser.EnterExistingKeepsValid | go_scripts/demystifier/test_utils.go:149-155 | an Enter of a seen name keeps the invariant, its new attempt numbered by the run's attempt count |
| Parser.StepKeepsValid | go_scripts/demystifier/test_utils.go:118-131 | every line keeps the invariant |
| Parser.RunValid | go_scripts/demystifier/test_utils.go:109-132 | starting from no runs, the result has distinct run names; run t's attempt i has number i and the run's name; no events; a counter per name equal to its attempt count; and an open attempt exactly when a run exists |
| Parser.NonEnterStepEffect | go_scripts/demystifier/test_utils.go:121-131 | only the open attempt changes: a plain line is appended; FAILED sets the status and is not appended; a parsable Exit sets the end time and duration and is appended; an unparsable Exit changes nothing |
| Parser.EnterCount | go_scripts/demystifier/test_utils.go:119-120 | the reference count of a name's Enter lines, at most the number of lines; `CountIsEnterCount` and `AttemptsPerEnter` equate the counter and the number of attempts with it |
| Parser.StepCount | go_scripts/demystifier/test_utils.go:155 | a line raises the counter of a name by one exactly when it is an Enter line of that full name |
| Parser.CountIsEnterCount | go_scripts/demystifier/test_utils.go:109-155 | after the lines, the counter of a name is its number of Enter lines |
| Parser.AttemptsPerEnter | go_scripts/demystifier/test_utils.go:149-155 | from no runs, each run has one attempt per Enter line of its name |
| Parser.Keys | go_scripts/demystifier/test_utils.go:193 | the (full name, short name) of each run in order |
| Parser.SeenIffFound | go_scripts/demystifier/test_utils.go:184-189 | a full name is among the keys exactly when the scan finds its run |
| Parser.EnterStepKeys | go_scripts/demystifier/test_utils.go:177-196 | an Enter adds (full name, short name) to the keys only when the name is new; the keys are never changed |
| Parser.RunKeys | go_scripts/demystifier/test_utils.go:118-120 | the runs appear in first-seen order, and a short name is the one of the first Enter of its full name and is never overwritten |
| Parser.TrailingNewline | go_scripts/demystifier/test_utils.go:62 | for a log ending in "\n" the last line is "", handed to the last opened attempt like any plain line |
| LogUrl.SlashEnd | go_scripts/demystifier/test_utils.go:83 | the lazy `(.*?)/` ends at the first '/' with no newline before it |
| LogUrl.FirstMatch | go_scripts/demystifier/test_utils.go:83-84 | a position where `e2e-test-(.*?)/` matches |
| LogUrl.FirstMatchIsLeftmost | go_scripts/demystifier/test_utils.go:83-84 | no match starts before the one found |
| LogUrl.NoFirstMatchIsNone | go_scripts/demystifier/test_utils.go:83-84 | finding no match means the URL holds none |
| LogUrl.TestType | go_scripts/demystifier/test_utils.go:83-84 | `FindString` of `e2e-test-(.*?)/`; no contract of its own, see `TestTypeEmpty`, `TestTypeShape`, `FirstMatchIsLeftmost` and `NoFirstMatchIsNone` |
| LogUrl.TestTypeEmpty | go_scripts/demystifier/test_utils.go:84 | the test type is "" exactly when the URL holds no match |
| LogUrl.TestTypeShape | go_scripts/demystifier/test_utils.go:83-84 | a non-empty test type is "e2e-test-", then text with no '/' and no newline, then '/' |
| LogUrl.GenerateLogURL | go_scripts/demystifier/test_utils.go:76-87 | a URL ending in "/build-log.txt" is returned as is; every result ends in "/build-log.txt" |
| LogUrl.BucketPath | go_scripts/demystifier/test_utils.go:81-85 | with the Prow prefix present, the result is the storage base + the text between the first and second prefix + "/artifacts/" + the test type + "e2e/build-log.txt" |
| LogUrl.GenerateIdempotent | go_scripts/oadp_test_summary.go:23-34 | applying the rewrite twice is the same as applying it once |
| Dump.LogPath | go_scripts/demystifier/logs.go:18-19 | the dump file of a name; no contract of its own, see `LogPathHasFlatName` |
| Dump.LogPathHasFlatName | go_scripts/demystifier/logs.go:18-19 | the path is folder + "/" + the name with '/' made '_' + ".log", and that name part holds no '/' |
| Dump.ContentPrefix | go_scripts/demystifier/logs.go:24-33 | the content of the first i log lines is a prefix of the whole content |
| Dump.PartialIsPrefix | go_scripts/demystifier/logs.go:24-31 | what is written when line i fails after j prefixes is a prefix of the whole content |
| Dump.FailedLineIsPartial | go_scripts/demystifier/logs.go:26-31 | a failure inside a line leaves the file at a prefix of the full content |
| Dump.NamePrefixedLines | go_scripts/demystifier.go:45 | with the prefixes (name, ": "), every written line is name + ": " + log + "\n" |
| Dump.Disk.constructor | go_scripts/demystifier/logs.go:19 | a disk with the given files, create outcome and write budget |
| Dump.Disk.Create | go_scripts/demystifier/logs.go:19-22 | `os.Create` empties or creates the file when creating succeeds, and changes nothing when it fails |
| Dump.Disk.WriteString | go_scripts/demystifier/logs.go:26-31 | a write appends to the file while writes are left, and changes nothing when it fails |
| Dump.WriteLine | go_scripts/demystifier/logs.go:25-33 | writes every prefix, then line + "\n"; on success the file grows by exactly that; on failure by some of the prefixes only |
| Dump.DumpLogsToFileWithPrefixes | go_scripts/demystifier/logs.go:16-35 | succeeds exactly when the file can be created and enough writes are left; the file then holds, per log line, the prefixes and the line; on failure the file holds a prefix of that content and no other file changes |
| Dump.TotalWritesMonotone | go_scripts/demystifier.go:41-52 | dumping a prefix of the attempts needs no more writes than dumping all |
| Dump.LastAttemptWins | go_scripts/demystifier.go:41-52 | an attempt's file holds its own content when no later attempt maps to the same path |
| Dump.UntouchedPathKept | go_scripts/demystifier.go:41-52 | a path no attempt maps to keeps its content |
| Dump.DumpTestsToFolder | go_scripts/demystifier.go:34-53 | visits every attempt of every run once, in slice order, with prefixes (name, ": "); succeeds exactly when creation and the write budget allow; the files are then those of the ordered dump |
| Dump.DumpAttempts | go_scripts/demystifier.go:43-51 | the inner loop dumps the attempts of one run in order |
| Dump.DumpAllAppend | go_scripts/demystifier.go:41-52 | dumping two lists of attempts is dumping the first, then the second |
| Dump.TotalWritesAppend | go_scripts/demystifier.go:41-52 | the writes of two lists of attempts add up |
| Dump.FlattenPrefix | go_scripts/demystifier.go:41-44 | the attempts of the first i runs, then those of run i, begin the list of all attempts |
| Summary.CountIf | go_scripts/demystifier.go:79-86 | a count of attempts is at most the number of attempts |
| Summary.CountIfIsCardinality | go_scripts/demystifier.go:79-86 | the count is the number of attempt positions that satisfy the condition |
| Summary.TotalRunTime | go_scripts/demystifier.go:89 | the running total is an int64 |
| Summary.TotalIsWrappedSum | go_scripts/demystifier.go:72-89 | the total is the sum of all durations, short ones included, wrapped to int64, and the exact sum when no overflow occurs |
| Summary.Summarize | go_scripts/demystifier.go:70-106 | a row named by the short name, with the attempt count; the failed and long counts are the numbers of failed and of long attempts; the total is the exact sum of all durations wrapped into int64; the average is the total divided by the long count, truncated toward zero, or 0 when no attempt is long |
| Summary.AverageBrackets | go_scripts/demystifier.go:93-96 | with long attempts, the average times the long count brackets the total: from below for a non-negative total, from above for a negative one |
| Summary.Summaries | go_scripts/demystifier.go:67-107 | one row per test run, in the same order |
| Summary.CollectSummaries | go_scripts/demystifier.go:66-107 | the nested counting loops produce exactly the rows of `Summaries` |
| Summary.SwapDown | go_scripts/demystifier.go:110-112 | exchanges two neighbours and nothing else |
| Summary.InsertAt | go_scripts/demystifier.go:110-112 | inserting element i into a sorted prefix gives a sorted prefix one longer, with the same elements |
| Summary.SortByAverage | go_scripts/demystifier.go:109-112 | the array ends in non-decreasing average order and is a permutation of the input |
| Summary.PrintTestSummary | go_scripts/demystifier.go:55-124 | the table is sorted by average run time and is a permutation of one summary per test run |
| Summary.ReportFailures | go_scripts/demystifier.go:162-192 | the loop of `main` produces the report: a (name, failed count) entry for each run with failed attempts, in order |
| Summary.FailureReportMatchesSummaries | go_scripts/demystifier.go:162-192 | every run whose summary has failures is reported with that summary's failed count, and every entry is such a run with a positive count |
| OadpSummary.FirstShape | go_scripts/oadp_test_summary.go:113 | a position where the digit pattern fits |
| OadpSummary.FirstShapeIsFirst | go_scripts/oadp_test_summary.go:143 | no match starts before the one found, and none at all when none is found |
| OadpSummary.LongHoldsShort | go_scripts/oadp_test_summary.go:134-137 | a four-digit-year timestamp holds a two-digit-year timestamp two characters further on |
| OadpSummary.FormatsHoldClock | go_scripts/oadp_test_summary.go:134-137 | every one of the four patterns contains the plain clock pattern |
| OadpSummary.ParseTimestamp | go_scripts/oadp_test_summary.go:131-160 | the time of the first format found, or the zero time; no contract of its own, see `FirstFormatCases`, `NoClockNoTimestamp`, `LongMillisGivesZero`, `LongClockNeverDecides`, `MillisTimestamp` and `SecondsTimestamp` |
| OadpSummary.FirstFormatCases | go_scripts/oadp_test_summary.go:141-156 | the loop picks the leftmost match of the first pattern in list order that matches, with that pattern's length |
| OadpSummary.NoSlashNoParse | go_scripts/oadp_test_summary.go:145-149 | text without '/' at position 2 never parses with these layouts |
| OadpSummary.NoClockNoTimestamp | go_scripts/oadp_test_summary.go:158-159 | a line without a clock gives the zero time |
| OadpSummary.LongMillisGivesZero | go_scripts/oadp_test_summary.go:134 | a four-digit-year match with milliseconds, taken first, always gives the zero time |
| OadpSummary.LongClockNeverDecides | go_scripts/oadp_test_summary.go:134-137 | the fourth pattern matches only where the third already does, so it never decides |
| OadpSummary.MillisTimestamp | go_scripts/oadp_test_summary.go:135-149 | a 21-character match is longer than 19, so it is parsed with ".000" appended to the layout |
| OadpSummary.SecondsTimestamp | go_scripts/oadp_test_summary.go:136-154 | a 17-character match is parsed without a fraction, and a failed parse gives zero |
| OadpSummary.ExtractTimeFromEnterIt | go_scripts/oadp_test_summary.go:107-129 | the first clock of the trimmed tail of a line with exactly one " @ ", or the zero time; no contract of its own, see `ExtractedTimeSource` |
| OadpSummary.ExtractedTimeSource | go_scripts/oadp_test_summary.go:107-129 | a non-zero time means the line is exactly two parts around one " @ ", and the time is the parse of the first clock in the trimmed second part |
| OadpSummary.ItGroups | go_scripts/oadp_test_summary.go:71 | both captures are non-empty |
| OadpSummary.TestKey | go_scripts/oadp_test_summary.go:74 | the key starts with the first capture, ends with the second, and has the " - " between them |
| OadpSummary.ItMatch | go_scripts/oadp_test_summary.go:71 | `FindStringSubmatch` of the Enter and Exit patterns, lines 71 and 84; no contract of its own, see `ItMatchShape`, `NoItMatch` and `ItGroups` |
| OadpSummary.ItMatchShape | go_scripts/oadp_test_summary.go:71 | a match is a marker occurrence followed by first + " - " + second + " @" |
| OadpSummary.NoItMatch | go_scripts/oadp_test_summary.go:71-72 | no match means no marker occurrence is followed by the captures |
| OadpSummary.ClockThen | go_scripts/oadp_test_summary.go:164-170 | a clock followed later by the phrase; no contract of its own, see `ClockThenIff` |
| OadpSummary.BackupSucceeded | go_scripts/oadp_test_summary.go:166 | a clock followed by "Backup for case ", a name and " succeeded"; no contract of its own, see `BackupSucceededIff` and `BackupSucceededFrom` |
| OadpSummary.ClockThenIff | go_scripts/oadp_test_summary.go:164-170 | a rule matches exactly when a clock is followed, later in the line, by its phrase |
| OadpSummary.BackupSucceededIff | go_scripts/oadp_test_summary.go:166 | the backup-end rule matches exactly when a clock is followed by "Backup for case ", a non-empty name and " succeeded" |
| OadpSummary.BackupSucceededFrom | go_scripts/oadp_test_summary.go:166 | such a clock, phrase, name and " succeeded" make the rule match |
| OadpSummary.ParseTimestamps | go_scripts/oadp_test_summary.go:163-173 | only the first matching rule, among backup start, backup end, restore start and restore end, sets its field to the line's timestamp; start and end times are never touched |
| OadpSummary.SetSlot | go_scripts/oadp_test_summary.go:87 | a write to the current entry changes that entry only, and keeps every key and retry index |
| OadpSummary.EnterStep | go_scripts/oadp_test_summary.go:73-80 | the key becomes current and its entry is a fresh record holding the start time |
| OadpSummary.EnterPart | go_scripts/oadp_test_summary.go:71-81 | a line without an Enter match leaves the state alone; an Enter makes its key current |
| OadpSummary.ExitPart | go_scripts/oadp_test_summary.go:84-88 | the Exit check keeps the current test and the counters |
| OadpSummary.TimestampPart | go_scripts/oadp_test_summary.go:91-93 | the timestamp check keeps the current test and the counters |
| OadpSummary.OldStep | go_scripts/oadp_test_summary.go:66-94 | after a line, the current test's entry exists |
| OadpSummary.OldRun | go_scripts/oadp_test_summary.go:61-94 | after any lines, the current test's entry exists |
| OadpSummary.EnterKey | go_scripts/oadp_test_summary.go:71-74 | an Enter line's key is non-empty |
| OadpSummary.AppendLine | go_scripts/oadp_test_summary.go:66-67 | a new line joins only its own key's Enter lines, and becomes the last Enter when it is one |
| OadpSummary.NoEnterIndexed | go_scripts/oadp_test_summary.go:84-93 | a line without an Enter keeps the retry-index invariant |
| OadpSummary.SetSlotIndexed | go_scripts/oadp_test_summary.go:87-92 | rewriting the current entry but not its start time keeps the invariant |
| OadpSummary.EnterIndexed | go_scripts/oadp_test_summary.go:73-80 | an Enter keeps the invariant and stores at retry index "number of earlier Enters of the key" |
| OadpSummary.EnterCounts | go_scripts/oadp_test_summary.go:73 | raising the previous name's counter makes every counter the key's Enter count, minus one for the current key |
| OadpSummary.EnterDomains | go_scripts/oadp_test_summary.go:75-78 | after an Enter, the keys are those with Enter lines, and each key's retries are 0 up to its Enter count |
| OadpSummary.EnterStarts | go_scripts/oadp_test_summary.go:78-80 | after an Enter, retry k of each key holds the start time of that key's k-th Enter line |
| OadpSummary.StepIndexed | go_scripts/oadp_test_summary.go:66-94 | one iteration keeps the invariant |
| OadpSummary.RunIndexed | go_scripts/oadp_test_summary.go:61-94 | after every prefix of the log, the current test is the last Enter's key; counters and retry indices match the Enter counts; retry k holds the k-th Enter's start time |
| OadpSummary.EnterSlotIsNew | go_scripts/oadp_test_summary.go:73-78 | an Enter never lands on an existing entry, so earlier retries are never overwritten |
| OadpSummary.StepFrame | go_scripts/oadp_test_summary.go:66-94 | an iteration removes no entry and changes none but the one current after it |
| OadpSummary.EnterPartFramed | go_scripts/oadp_test_summary.go:73-80 | the Enter check changes at most the entry it opens |
| OadpSummary.SetSlotFramed | go_scripts/oadp_test_summary.go:87-92 | a write to the current entry changes no other entry |
| OadpSummary.FramedTrans | go_scripts/oadp_test_summary.go:71-93 | two steps that each change at most the same entry together change at most that entry |
| OadpSummary.StepSlot | go_scripts/oadp_test_summary.go:71-93 | an Enter gives a fresh entry with its start time; an Exit sets the end time whatever name it carries; then `parseTimestamps` reads the line, Enter and Exit lines included; before the first Enter nothing changes |
| OadpSummary.NothingBeforeFirstEnter | go_scripts/oadp_test_summary.go:84-93 | up to the first Enter line the state stays the initial one |
| OadpSummary.ParseLogFile | go_scripts/oadp_test_summary.go:61-94 | for lines without a newline, as the scanner yields them, the loop builds the map that the fold of the step gives |
| OadpSummary.EnterBlock | go_scripts/oadp_test_summary.go:71-81 | the Enter block performs exactly the Enter part of the step |
| OadpSummary.OpenEntry | go_scripts/oadp_test_summary.go:73-79 | the previous test's counter goes up, the new key becomes current, and its entry at its counter is a fresh record holding the start time |
| OadpSummary.ExitBlock | go_scripts/oadp_test_summary.go:84-88 | the Exit block performs exactly the Exit part of the step |

## Left out

- Reading logs over HTTP or from a file (`GetRunDataFromLog`, the scanner set-up of `parseLogFile`): the model takes the full log or its lines as input. Scanner errors and the scanner's token-size limit are not modelled.
- All printing and logging: logrus fields, the table layout of `PrintTestSummary`, `printTestData`, the warning for logs under 100 lines. `PrintTestSummary` returns its sorted rows instead.
- Flag handling, `os.Exit` and `log.Fatal` in `main`. `DumpTestsToFolder` returns the first error instead of exiting.
- `os.MkdirAll` in `DumpTestsToFolder`: folder creation is not modelled. The disk's create outcome stands for every failure to create a file.
- Dump.DumpLogsToFileWithPrefixes: the file is not closed and the write failures come from a budget of successful writes, so one failure pattern is modelled: every write succeeds until the budget runs out, and every later one fails.
- Summary.SortByAverage: Go's `sort.Slice` is not stable and its order among equal averages is unspecified. The model is an insertion sort, and only sortedness and permutation are promised.
- Parser.SetIndividualTestsFromLog: a `[FAILED]` line before the first Enter line dereferences a nil pointer in Go. This case is a precondition, not an error result.
- LogUrl.GenerateLogURL: without the suffix and without the Prow prefix, Go indexes past the end of the split and panics. That input is excluded by the precondition.
- Regular expressions are modelled for lines without a newline only. The anchor tag is placed into the Enter and Exit patterns literally, so a tag containing regex metacharacters is not modelled.
- GoTime.Parse: only the layouts the code uses are modelled, and Unicode digits, signs and time zones are not. Go's quirk of accepting a sign in some numeric fields is not modelled.
- Counters (`attempts`, `currentRetryCounter`) are unbounded integers. Go's `int` does not wrap in practice for these counts.
- The older tool's `*TestData` pointers are modelled as the values stored in the map slots, because every pointer is fresh and only reached through its slot.
- Go's distinction between a nil slice and an empty slice (`TestRun == nil` in `getOrAddTestRun`) is not modelled: both are the empty sequence.
- `EventData` and `Events` are part of the data model, but no modelled code writes them.
- The helper methods `ParseLines`, `OpenAttempt`, `EnterBlock`, `OpenEntry`, `ExitBlock`, `DumpAttempts`, `WriteLine`, `SwapDown` and `InsertAt` split the Go loops into smaller verified pieces. They are not separate Go functions.
- `generateLogURL` in the older tool is the same text as `GenerateLogURL`, so both are modelled by one function.
- The goroutine-based output capture in the repository's tests and its unseen test data are not modelled.
