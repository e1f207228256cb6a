# SplitZip and TestSummaryPrinter, modelled in Dafny

This project models two sequential pieces of Bazel.

**The archive splitter `SplitZip`** (Android dexing tools). Its behaviour is the one `SplitZipTest.java` pins down.

- A builder collects:
  - input archives, opened when they are added;
  - output shards;
  - an optional resource output;
  - an optional main-class list file;
  - an optional entry date;
  - a verbose flag.
- Its run does the following:
  - merges the inputs, keeping the first entry for each path;
  - pulls the entries named in the main-class list into the first shard, in list order;
  - sends resource entries to the resource output;
  - spreads the remaining entries over the shards, one top-level directory at a time and in input order within each shard;
  - optionally stamps every entry with the configured date.

An archive is a sequence of entries (path, content, MS-DOS timestamp), not ZIP bytes. A run returns the entries of every output.

**The terminal summary of a test target, `TestSummaryPrinter`** (Bazel runtime). The model covers:

- the status string, the cache message and the attempt summary;
- the time summary with its min/max/sum loop;
- which lines `print`, `printTestCase` and `printCachedOutput` hand to the terminal printer, in what order and with what padding.

The terminal printer is a class whose state is the sequence of strings it has received. The ANSI modes are opaque marker strings.

Files:

- `wrappers.dfy`: `Option` and `Result`.
- `text.dfy`: the string operations the sources call:
  - `Strings.padEnd`, `String.replace`, `Joiner.join`;
  - splitting;
  - decimal rendering of counts.
- `split_plan.dfy`: the planning pass of a run as functions on entry sequences, with its lemmas:
  - de-duplication;
  - the main-class list;
  - resources;
  - the grouping and balancing of top-level directories;
  - stamping.
- `split_zip.dfy`:
  - the `SplitZip` class (builder fields, setters, `Run`);
  - the loops of a run, each proved against its function in `split_plan.dfy`;
  - `Execute`, the result of a run as a function of the configuration.
- `split_zip_scenarios.dfy`: the scenarios of `SplitZipTest.java` as lemmas about `Execute` and the plan.
- `summary_format.dfy`: what `TestSummaryPrinter` prints, as functions on an abstract test summary, with their lemmas.
- `summary_printer.dfy`: the terminal printer class and the printing methods, each proved to append exactly the lines `summary_format.dfy` specifies.

## Model

| member | source | states |
|---|---|---|
| SplitZip.SplitZip.constructor | src/test/java/com/google/devtools/build/android/ziputils/SplitZipTest.java:43-50 | A fresh splitter has no main-class list, no entry date, no resource file, is not verbose, and has no inputs or outputs |
| SplitZip.SplitZip.AddOutput | src/test/java/com/google/devtools/build/android/ziputils/SplitZipTest.java:53-71 | A null output fails (NullPointerException) and leaves the outputs unchanged; a named output is appended and the same instance is returned |
| SplitZip.SplitZip.AddInput | src/test/java/com/google/devtools/build/android/ziputils/SplitZipTest.java:136-146 | A name that cannot be opened fails with FileNotFound at add time and adds nothing; otherwise the opened archive is appended |
| SplitZip.SplitZip.AddInputs | src/test/java/com/google/devtools/build/android/ziputils/SplitZipTest.java:148-158 | Succeeds exactly when every name can be opened, and then appends all archives in order; otherwise fails with FileNotFound for the first name that cannot be opened, keeping the archives added before it |
| SplitZip.SplitZip.SetResourceFile | src/test/java/com/google/devtools/build/android/ziputils/SplitZipTest.java:73-87 | Returns the same instance, and the resource file is then the value set, null included |
| SplitZip.SplitZip.SetMainClassListFile | src/test/java/com/google/devtools/build/android/ziputils/SplitZipTest.java:89-105 | Returns the same instance, and the main-class list file is then the value set, null included |
| SplitZip.SplitZip.SetEntryDate | src/test/java/com/google/devtools/build/android/ziputils/SplitZipTest.java:109-125 | Returns the same instance, and the entry date is then the value set, null included |
| SplitZip.SplitZip.UseDefaultEntryDate | src/test/java/com/google/devtools/build/android/ziputils/SplitZipTest.java:127-134 | Returns the same instance, and the entry date is then the MS-DOS epoch |
| SplitZip.SplitZip.SetVerbose | src/test/java/com/google/devtools/build/android/ziputils/SplitZipTest.java:428-435 | Returns the same instance, and the verbose flag is then the value set, both ways |
| SplitZip.SplitZip.Run | src/test/java/com/google/devtools/build/android/ziputils/SplitZipTest.java:168-174 | The run, built from the loops below, returns exactly what `Execute` gives for the current configuration |
| SplitZip.Execute | src/test/java/com/google/devtools/build/android/ziputils/SplitZipTest.java:393-401 | A run fails without outputs, and fails with FileNotFound when the list file cannot be opened; otherwise it succeeds with one entry sequence per output, and a resource output exactly when a resource file is set |
| SplitZip.RunWritesEveryEntryOnce | src/test/java/com/google/devtools/build/android/ziputils/SplitZipTest.java:212-241 | Without a date, the shards plus the resource output are a permutation of the merged inputs and hold no path twice |
| SplitZip.DateOnlyRestamps | src/test/java/com/google/devtools/build/android/ziputils/SplitZipTest.java:183-210 | A configured date yields the date-less run's outputs with every timestamp replaced, and fails exactly when the date-less run fails |
| SplitZip.MergeInputs | src/test/java/com/google/devtools/build/android/ziputils/SplitZipTest.java:223-230 | The merging loop over the inputs computes the de-duplicated concatenation of the inputs |
| SplitZip.AddNewEntries | src/test/java/com/google/devtools/build/android/ziputils/SplitZipTest.java:223-230 | Scanning one more input keeps the pool equal to the de-duplicated prefix, and the seen-path set equal to its paths |
| SplitZip.TakePath | src/test/java/com/google/devtools/build/android/ziputils/SplitZipTest.java:390-401 | One scan returns the pool entry with a listed path, and the pool without it |
| SplitZip.PullListed | src/test/java/com/google/devtools/build/android/ziputils/SplitZipTest.java:403-415 | Pulling the list yields the picked entries in list order, and the unlisted rest in pool order |
| SplitZip.Classify | src/test/java/com/google/devtools/build/android/ziputils/SplitZipTest.java:326-337 | With a resource output, the rest splits into resource and non-resource entries in order; without one, everything is code |
| SplitZip.WrittenStep | src/test/java/com/google/devtools/build/android/ziputils/SplitZipTest.java:408-409 | Writing one more code entry appends it, stamped, to its own shard and leaves every other shard unchanged |
| SplitZip.Emit | src/test/java/com/google/devtools/build/android/ziputils/SplitZipTest.java:290-305 | The emitting loop produces exactly the stamped shards of the plan |
| SplitZip.StampEntries | src/test/java/com/google/devtools/build/android/ziputils/SplitZipTest.java:191-206 | The stamping loop replaces every timestamp by the date, if one is set |
| SplitPlan.DedupKeepsFirst | src/test/java/com/google/devtools/build/android/ziputils/SplitZipTest.java:212-241 | De-duplication leaves no repeated path, loses no path, keeps for each path the first entry of the input, and keeps input order |
| SplitPlan.DedupIdentity | src/test/java/com/google/devtools/build/android/ziputils/SplitZipTest.java:160-181 | An input without repeated paths passes through de-duplication unchanged |
| SplitPlan.MergeSingle | src/test/java/com/google/devtools/build/android/ziputils/SplitZipTest.java:243-266 | A single input with distinct paths is the merged pool as it is |
| SplitPlan.MergeFirstInputWins | src/test/java/com/google/devtools/build/android/ziputils/SplitZipTest.java:212-241 | A path of the first input survives the merge with that input's entry, whatever the second input holds |
| SplitPlan.FirstFound | src/test/java/com/google/devtools/build/android/ziputils/SplitZipTest.java:212-241 | The first entry for a path exists exactly when the path occurs, and it is an entry with that path |
| SplitPlan.ParseListText | src/test/java/com/google/devtools/build/android/ziputils/SplitZipTest.java:390-391 | Writing non-empty names one per line and parsing the list file gives the names back |
| SplitPlan.PickedInListOrder | src/test/java/com/google/devtools/build/android/ziputils/SplitZipTest.java:403-406 | The picked entries are exactly the pool entries whose path is listed, ordered by their position in the list |
| SplitPlan.PickedPermutation | src/test/java/com/google/devtools/build/android/ziputils/SplitZipTest.java:403-415 | Pulling the list neither loses nor adds an entry: the picked entries and the rest together are a permutation of the pool |
| SplitPlan.SelectMembers | src/test/java/com/google/devtools/build/android/ziputils/SplitZipTest.java:408-409 | An entry is selected exactly when it is in the sequence and its path is kept |
| SplitPlan.SelectIsSubseq | src/test/java/com/google/devtools/build/android/ziputils/SplitZipTest.java:408-409 | A selection keeps the order of the sequence it is taken from |
| SplitPlan.SelectPartition | src/test/java/com/google/devtools/build/android/ziputils/SplitZipTest.java:312-367 | Selecting by two disjoint conditions gives, together, what selecting by either gives |
| SplitPlan.UniqueUnderPermutation | src/test/java/com/google/devtools/build/android/ziputils/SplitZipTest.java:212-241 | Reordering entries cannot introduce a repeated path |
| SplitPlan.TopDir | src/test/java/com/google/devtools/build/android/ziputils/SplitZipTest.java:271-277 | The top-level directory is a prefix of the path without '/', ending at the first '/' or at the end |
| SplitPlan.TopDirJoin | src/test/java/com/google/devtools/build/android/ziputils/SplitZipTest.java:271-277 | A path written as directory, '/', rest belongs to that directory |
| SplitPlan.SortBySizeSorted | src/test/java/com/google/devtools/build/android/ziputils/SplitZipTest.java:268-310 | Sorting the groups orders them by decreasing size and keeps every group (a permutation) |
| SplitPlan.SortBySizeStable | src/test/java/com/google/devtools/build/android/ziputils/SplitZipTest.java:268-310 | Sorting is stable: the groups of any one size come out in the order they were first seen |
| SplitPlan.LeastLoaded | src/test/java/com/google/devtools/build/android/ziputils/SplitZipTest.java:268-310 | The chosen slot is in range, no other slot is less loaded, and every earlier slot is strictly more loaded |
| SplitPlan.Greedy | src/test/java/com/google/devtools/build/android/ziputils/SplitZipTest.java:268-310 | Every group gets a slot in range, and only the groups get one |
| SplitPlan.GreedyPicksLeastLoaded | src/test/java/com/google/devtools/build/android/ziputils/SplitZipTest.java:268-310 | For groups with distinct keys, each group goes to the slot that is least loaded (lowest index on ties) once the groups before it are placed |
| SplitPlan.GreedyKeepsSpread | src/test/java/com/google/devtools/build/android/ziputils/SplitZipTest.java:268-310 | Placing groups no larger than c on the least-loaded slot keeps every slot within c of every other |
| SplitPlan.BalancePlacesEveryGroup | src/test/java/com/google/devtools/build/android/ziputils/SplitZipTest.java:268-310 | The balancing rule places every top-level directory of the code entries in a slot in range |
| SplitPlan.BalanceSpread | src/test/java/com/google/devtools/build/android/ziputils/SplitZipTest.java:268-310 | In the load vector the balancing rule keeps (`LoadsAfter`), starting from empty slots, no slot's load exceeds any other's by more than the largest group; the shard sizes are not tied to this vector |
| SplitPlan.ShardsPermutation | src/test/java/com/google/devtools/build/android/ziputils/SplitZipTest.java:290-305 | For any in-range assignment, the shards together are a permutation of the listed plus the code entries |
| SplitPlan.RestPartition | src/test/java/com/google/devtools/build/android/ziputils/SplitZipTest.java:312-367 | The unlisted entries split into the resource output and the code entries without loss |
| SplitPlan.PlanPermutation | src/test/java/com/google/devtools/build/android/ziputils/SplitZipTest.java:312-367 | The shards plus the resource output are a permutation of the pool and hold no path twice |
| SplitPlan.CodeIsSelection | src/test/java/com/google/devtools/build/android/ziputils/SplitZipTest.java:312-367 | The code entries are the pool entries that are neither listed nor resources, in pool order |
| SplitPlan.PlanKeepsOrder | src/test/java/com/google/devtools/build/android/ziputils/SplitZipTest.java:408-409 | Within a shard, the code entries keep the order of the input |
| SplitPlan.PlanKeepsGroupsWhole | src/test/java/com/google/devtools/build/android/ziputils/SplitZipTest.java:290-305 | Two code entries with the same top-level directory are in the same shard |
| SplitPlan.PlanListedFirst | src/test/java/com/google/devtools/build/android/ziputils/SplitZipTest.java:403-406 | The listed entries open shard 0, and with a list and several shards they are all of shard 0 |
| SplitPlan.PlanResources | src/test/java/com/google/devtools/build/android/ziputils/SplitZipTest.java:349-361 | Without a resource output nothing goes there; with one, it holds exactly the unlisted resource entries of the pool, in pool order |
| SplitPlan.PlanShardsHoldNoResources | src/test/java/com/google/devtools/build/android/ziputils/SplitZipTest.java:339-358 | With a resource output, no shard holds a resource entry outside its listed part |
| SplitPlan.PlanOneSlot | src/test/java/com/google/devtools/build/android/ziputils/SplitZipTest.java:243-266 | With one output and no list, the single shard holds every code entry, in pool order |
| SplitPlan.PlanListTwoSlots | src/test/java/com/google/devtools/build/android/ziputils/SplitZipTest.java:403-415 | With a list and two outputs, shard 0 is the picked entries and shard 1 all remaining code entries |
| SplitPlan.StampAllEffect | src/test/java/com/google/devtools/build/android/ziputils/SplitZipTest.java:183-210 | Stamping keeps length, order, paths and contents, and sets every timestamp to the date when one is given |
| SplitPlan.StampNone | src/test/java/com/google/devtools/build/android/ziputils/SplitZipTest.java:160-181 | Without a date, stamping changes nothing |
| SplitZipScenarios.SingleOutputCopies | src/test/java/com/google/devtools/build/android/ziputils/SplitZipTest.java:160-181 | One output, no list and no resources: the single shard is the merged inputs, stamped |
| SplitZipScenarios.CopyIsIdentity | src/test/java/com/google/devtools/build/android/ziputils/SplitZipTest.java:243-266 | One input with distinct paths, one output, no date: the output is the input, entry for entry |
| SplitZipScenarios.EntryDateStampsEveryEntry | src/test/java/com/google/devtools/build/android/ziputils/SplitZipTest.java:183-210 | With a date, output entry i is input entry i with the date as its timestamp |
| SplitZipScenarios.DuplicateKeepsFirstInput | src/test/java/com/google/devtools/build/android/ziputils/SplitZipTest.java:212-241 | Two inputs with the same path: the output holds only the entry from the input added first |
| SplitZipScenarios.InterleavedBalance | src/test/java/com/google/devtools/build/android/ziputils/SplitZipTest.java:268-310 | Two directories of three entries each: the first-seen directory takes shard 0, the other shard 1 |
| SplitZipScenarios.SplitInTwo | src/test/java/com/google/devtools/build/android/ziputils/SplitZipTest.java:268-310 | The interleaved input split over two outputs: shard 0 holds the first directory's entries and shard 1 the second's, each in input order |
| SplitZipScenarios.SeparateResources | src/test/java/com/google/devtools/build/android/ziputils/SplitZipTest.java:312-367 | A leading resource entry goes to the resource output alone, and the two shards are as without it |
| SplitZipScenarios.TestListParses | src/test/java/com/google/devtools/build/android/ziputils/SplitZipTest.java:390 | The test's list text parses to its two class names |
| SplitZipScenarios.ListedAndRest | src/test/java/com/google/devtools/build/android/ziputils/SplitZipTest.java:403-415 | Listing positions 0 and 3 of six picks those two in list order and leaves the other four in input order |
| SplitZipScenarios.MainClassList | src/test/java/com/google/devtools/build/android/ziputils/SplitZipTest.java:369-426 | With that list and two outputs, shard 0 is exactly the listed entries in list order and shard 1 every other entry in input order |
| SplitZipScenarios.ListWithTwoOutputs | src/test/java/com/google/devtools/build/android/ziputils/SplitZipTest.java:393-401 | Any list with two outputs: shard 0 is the picked entries and shard 1 the unlisted ones, both stamped |
| SplitZipScenarios.RunWithList | src/test/java/com/google/devtools/build/android/ziputils/SplitZipTest.java:393-401 | Building a splitter with two outputs, the list stream and one input, then running it, gives `Execute` of that configuration |
| SplitZipScenarios.SettersRoundTrip | src/test/java/com/google/devtools/build/android/ziputils/SplitZipTest.java:370-378 | Setting and then clearing the main-class list file, as the test does, leaves it null; the verbose flag, the entry date and the resource file, set and cleared the same way, end false and null |
| Text.PadEnd | src/main/java/com/google/devtools/build/lib/runtime/TestSummaryPrinter.java:102 | The padded string starts with the original, has length max(length, width), and continues only with the pad character |
| Text.SplitJoin | src/main/java/com/google/devtools/build/lib/runtime/TestSummaryPrinter.java:55 | Joining parts that contain no separator, then splitting on it, gives the parts back |
| Text.NatToStringRoundTrip | src/main/java/com/google/devtools/build/lib/runtime/TestSummaryPrinter.java:218 | Reading the decimal rendering of a count back gives the count |
| SummaryFormat.StatusString | src/main/java/com/google/devtools/build/lib/runtime/TestSummaryPrinter.java:84-86 | The status string has the length of the status name, turns every '_' into a space and keeps every other character |
| SummaryFormat.CacheMessage | src/main/java/com/google/devtools/build/lib/runtime/TestSummaryPrinter.java:212-220 | Empty exactly when nothing is cached or the status is INCOMPLETE; "(cached) " exactly when it is not empty and every run is cached |
| SummaryFormat.CacheMessageCounts | src/main/java/com/google/devtools/build/lib/runtime/TestSummaryPrinter.java:218 | A partly cached result reads "(n/m cached) ", and the two fields read back as the cached and total counts |
| SummaryFormat.AttemptSummary | src/main/java/com/google/devtools/build/lib/runtime/TestSummaryPrinter.java:197-210 | Not empty exactly when there is more than one attempt and the status is FLAKY, TIMEOUT or FAILED |
| SummaryFormat.AttemptSummaryCounts | src/main/java/com/google/devtools/build/lib/runtime/TestSummaryPrinter.java:198-207 | A non-empty summary is ", failed in " (FLAKY) or " in " followed by "f out of a", and f and a read back as the failed-log count and the attempt count |
| SummaryFormat.Min | src/main/java/com/google/devtools/build/lib/runtime/TestSummaryPrinter.java:230-238 | The minimum of the times is one of them and bounds all of them from below |
| SummaryFormat.Max | src/main/java/com/google/devtools/build/lib/runtime/TestSummaryPrinter.java:230-238 | The maximum of the times is one of them and bounds all of them from above |
| SummaryFormat.TimeSummary | src/main/java/com/google/devtools/build/lib/runtime/TestSummaryPrinter.java:222-254 | Empty exactly when there are no test times; otherwise it starts with " in " and the rendering of the maximum time |
| SummaryFormat.StatusLinePadding | src/main/java/com/google/devtools/build/lib/runtime/TestSummaryPrinter.java:100-104 | The status line starts with the label, padded with spaces to max(label length, 78 - message length), then a space |
| SummaryFormat.StatusLineMessage | src/main/java/com/google/devtools/build/lib/runtime/TestSummaryPrinter.java:100-104 | After the padding comes the coloured message, then the attempt and time summaries, then a line break; without verbose mode, only the line break |
| SummaryFormat.CaseLineColumns | src/main/java/com/google/devtools/build/lib/runtime/TestSummaryPrinter.java:165-186 | A test case line shows its status left-aligned in an 8-character column after the indent, followed by class, name, optional duration and a line break |
| SummaryFormat.FailedCaseLines | src/main/java/com/google/devtools/build/lib/runtime/TestSummaryPrinter.java:112-116 | One line per test case that did not pass, and every line is the line of such a case |
| SummaryFormat.FailedCaseLineAt | src/main/java/com/google/devtools/build/lib/runtime/TestSummaryPrinter.java:112-116 | The line of a case that did not pass is at the position given by the number of failed cases before it |
| SummaryFormat.FailedCaseLinesInOrder | src/main/java/com/google/devtools/build/lib/runtime/TestSummaryPrinter.java:112-116 | Of two failed cases, the earlier one's line comes first: the lines keep the order of the cases |
| SummaryFormat.FailedCaseLinesComplete | src/main/java/com/google/devtools/build/lib/runtime/TestSummaryPrinter.java:112-116 | Every test case that did not pass has its line printed |
| SummaryFormat.NoLineShowsPassed | src/main/java/com/google/devtools/build/lib/runtime/TestSummaryPrinter.java:113 | No printed test case line shows PASSED in its status column |
| SummaryFormat.CaseSectionShape | src/main/java/com/google/devtools/build/lib/runtime/TestSummaryPrinter.java:106-126 | Nothing unless FAILED; then only the "not available" warning when the status is NOT_AVAILABLE; otherwise one line per non-passed case plus the "incomplete" warning exactly when the list is not FULL |
| SummaryFormat.CaseSectionLines | src/main/java/com/google/devtools/build/lib/runtime/TestSummaryPrinter.java:106-126 | Every line of the failed-case section is one of the two warnings or the line of a non-passed case |
| SummaryFormat.WarningLines | src/main/java/com/google/devtools/build/lib/runtime/TestSummaryPrinter.java:134-137 | One warning line per warning, in order |
| SummaryFormat.LogLines | src/main/java/com/google/devtools/build/lib/runtime/TestSummaryPrinter.java:139-147 | Every printed log line is the path line of a failed log that exists |
| SummaryFormat.LogLinesComplete | src/main/java/com/google/devtools/build/lib/runtime/TestSummaryPrinter.java:139-147 | Every failed log that exists has its path printed |
| SummaryFormat.CoverageLines | src/main/java/com/google/devtools/build/lib/runtime/TestSummaryPrinter.java:148-158 | Every printed coverage line is the path line of a file that exists and whose size is known and positive |
| SummaryFormat.CoverageLinesComplete | src/main/java/com/google/devtools/build/lib/runtime/TestSummaryPrinter.java:148-158 | Every coverage file that exists and has a positive size has its path printed |
| SummaryFormat.SummaryLines | src/main/java/com/google/devtools/build/lib/runtime/TestSummaryPrinter.java:92-159 | Nothing exactly when FAILED_TO_BUILD; otherwise the status line, then the failed-case section when listing failed cases, else the warnings, log paths and coverage paths |
| SummaryFormat.FailedModeShowsOnlyCases | src/main/java/com/google/devtools/build/lib/runtime/TestSummaryPrinter.java:128-132 | When listing failed cases, every line after the status line is a case-section warning or a non-passed case line: no warnings, logs or coverage paths |
| SummaryFormat.SeeListFailedFirst | src/main/java/com/google/devtools/build/lib/runtime/TestSummaryPrinter.java:47-55 | The header's log list splits on spaces into the failed logs' paths followed by the passed logs' paths |
| SummaryFormat.LogDumps | src/main/java/com/google/devtools/build/lib/runtime/TestSummaryPrinter.java:61-68 | One piece of output per log, in order: its text, or the "could not read" message |
| SummaryFormat.CachedOutputLines | src/main/java/com/google/devtools/build/lib/runtime/TestSummaryPrinter.java:42-81 | The header, the INFO line, then the failed logs when failed output is shown, then the passed logs when passed output is shown |
| SummaryPrinter.TerminalPrinter.constructor | src/main/java/com/google/devtools/build/lib/runtime/TestSummaryPrinter.java:92-95 | A new printer has received nothing |
| SummaryPrinter.TerminalPrinter.Print | src/main/java/com/google/devtools/build/lib/runtime/TestSummaryPrinter.java:101-104 | Printing appends the string |
| SummaryPrinter.TerminalPrinter.PrintLn | src/main/java/com/google/devtools/build/lib/runtime/TestSummaryPrinter.java:54-56 | Printing a line appends the string and a line break |
| SummaryPrinter.TimeStats | src/main/java/com/google/devtools/build/lib/runtime/TestSummaryPrinter.java:230-238 | The loop's min and max are times of the list that bound every time, and sum and sum of squares are the totals |
| SummaryPrinter.GetTimeSummary | src/main/java/com/google/devtools/build/lib/runtime/TestSummaryPrinter.java:222-254 | The method returns the time summary the function specifies |
| SummaryPrinter.PrintTestCase | src/main/java/com/google/devtools/build/lib/runtime/TestSummaryPrinter.java:165-186 | Appends exactly the case's line |
| SummaryPrinter.PrintFailedCases | src/main/java/com/google/devtools/build/lib/runtime/TestSummaryPrinter.java:112-116 | The loop appends exactly the lines of the non-passed cases, in order |
| SummaryPrinter.PrintStatusLine | src/main/java/com/google/devtools/build/lib/runtime/TestSummaryPrinter.java:100-104 | Appends exactly the status line: the label padded against the message, the message in its status colour, the verbose summaries, a line break |
| SummaryPrinter.PrintCaseSection | src/main/java/com/google/devtools/build/lib/runtime/TestSummaryPrinter.java:106-126 | Appends exactly the failed-case section |
| SummaryPrinter.PrintWarnings | src/main/java/com/google/devtools/build/lib/runtime/TestSummaryPrinter.java:134-137 | The loop appends exactly the warning lines |
| SummaryPrinter.PrintFailedLogPaths | src/main/java/com/google/devtools/build/lib/runtime/TestSummaryPrinter.java:139-147 | The loop appends exactly the paths of the existing failed logs |
| SummaryPrinter.PrintCoveragePaths | src/main/java/com/google/devtools/build/lib/runtime/TestSummaryPrinter.java:148-158 | The loop appends exactly the paths of the non-trivial coverage files |
| SummaryPrinter.PrintDetails | src/main/java/com/google/devtools/build/lib/runtime/TestSummaryPrinter.java:134-158 | Appends the warnings, then the paths of the existing failed logs, then the non-trivial coverage paths, and nothing else |
| SummaryPrinter.PrintSummary | src/main/java/com/google/devtools/build/lib/runtime/TestSummaryPrinter.java:92-159 | Appends exactly the summary lines of the target |
| SummaryPrinter.WriteLogs | src/main/java/com/google/devtools/build/lib/runtime/TestSummaryPrinter.java:60-81 | The loop appends each log's text, or the "could not read" line, in order |
| SummaryPrinter.CollectLogPaths | src/main/java/com/google/devtools/build/lib/runtime/TestSummaryPrinter.java:47-53 | The list holds the paths of every failed log and then every passed log, in order |
| SummaryPrinter.WriteLog | src/main/java/com/google/devtools/build/lib/runtime/TestSummaryPrinter.java:62-67 | Writing one log appends its text, or the "could not read" line when it cannot be read |
| SummaryPrinter.PrintCachedOutput | src/main/java/com/google/devtools/build/lib/runtime/TestSummaryPrinter.java:42-81 | Appends exactly the cached-output lines |

## Left out

- The ZIP container format is not modelled: `ZipIn`, `ZipOut`, `ZipFileBuilder` and the fake file system, with their headers, compression and central directory. Archives are entry sequences, so byte equality of two archives becomes equality of entry sequences.
- `DosTime`, the conversion between dates and MS-DOS packed timestamps, is not modelled. The entry date is kept as a packed timestamp, and the MS-DOS epoch is the constant `DosEpoch`.
- Opening files and streams is replaced by a `FileSystem` value that maps names to archives and list texts.
  - A name missing from it is a FileNotFound error.
  - An output is recorded by its name.
  - The stream overload of the main-class list is a name present in the file system.
  - Closing the outputs is not modelled.
- Verbose reporting of a run is not modelled, since it does not change any output. The verbose flag is stored and nothing more.
- The getters of `SplitZip` are not separate members: they are reads of the class's fields.
- The SplitZip source itself is not part of this model; `SplitZipTest.java` is the behaviour modelled.
  - The resource predicate is a parameter. The scenarios only assume that the resource entry satisfies it and the class entries do not.
  - The balancing rule is a modelling choice: groups sorted by entry count (largest first, ties in first-seen order), each placed on the least-loaded slot (lowest index on ties). It reproduces the two-shard test. The order, atomicity and permutation lemmas hold for any in-range assignment. Sorting is stable (`SortBySizeStable`). Each group goes to the least-loaded slot (`GreedyPicksLeastLoaded`). The rule's load vector ends with every slot within one group of every other (`BalanceSpread`); that bound is on the vector, not proved of the shards.
- The concrete paths of the tests ("pkg1/test1.class" and so on) are replaced in the scenario lemmas by symbolic entries whose top-level directories are hypotheses (`Interleaved`). The list text is checked concretely (`TestListParses`).
- `SkylarkAspectsTest.java` is an integration test of the whole analysis pipeline, with no self-contained logic of its own.
- `ExtraLinkTimeLibrary.java` is an interface without behaviour. Its one requirement, thread safety, is a concurrency matter.
- SummaryFormat.TimeSummary: `timeInSec` and the mean and standard deviation are parameters of `TimeFormat`, because they use floating point, `Math.sqrt` and `%.1f` formatting. Only the layout around them and the integer fold are modelled.
- SummaryPrinter.TimeStats: sums are unbounded integers. Java's 64-bit `long` overflow and the `double` sum of squares are not modelled.
- `TestLogHelper.writeTestLog` is not modelled. It is the `readLog` parameter, whose result is the text written for a log, or None when the log cannot be read. The header and footer it adds around a log belong to that text.
- SplitPlan.BalanceSpread: the bound is on the load vector the rule keeps (`LoadsAfter`). The model does not prove that each shard's entry count equals that slot's load, since that needs distinct group keys after sorting (see the next line).
- SplitPlan.GreedyPicksLeastLoaded: it assumes the groups have distinct keys. The model does not prove that `Groups` yields distinct keys after sorting, so `Balance` is tied to the least-loaded choice only through this hypothesis.
- SummaryPrinter.WriteLogs: `readLog` either returns a log's whole text or fails without writing anything, which leaves out two behaviours of `printCachedOutput`. First, the failed-log loop catches only `IOException` and the passed-log loop catches any `Exception`, so an unchecked exception on a failed log propagates out of `printCachedOutput` instead of printing "Could not read". Second, `writeTestLog` may write part of a log before it throws, and the terminal then shows that partial text before the "Could not read" line.
- `TestLogHelper.shouldOutputTestLog` is not modelled; its answers for failed and passed logs are two flags.
- `LoggingUtil.logToRemote` is not modelled. It only reports errors and prints nothing to the terminal.
- `Path.exists` and `getFileSize` are fields of the log and coverage records. A size that cannot be read is None.
- The ANSI rendering of `Mode` is not modelled; each mode is an opaque marker string.
- `TestSummary.getStatusMode` is a field of the summary; it is defined in `TestSummary`, which this model does not cover.
- `BlazeTestStatus` is a protocol enum this model does not cover; its values are listed with the names `toString` returns.
- The header of the cached output prints the status name itself, underscores included. Only the status line goes through `statusString`.
