# Ravel, verified in Dafny

A model of the parts of Ravel whose promises are more than one function deep, and proofs of
those promises for every input.

The modules, by what they model:

- **The investigation corpus** (`RandomStream`, `CorpusTraces`, `CorpusNeedles`, `CorpusEmit`,
  `CorpusMerge`, `CorpusRun`, `CorpusHours`, `CorpusOracle`, `CorpusAnswers`,
  `CorpusRequests`, `CorpusJourney`, `CorpusLimits`, on top of `Sequences`, `Sorting` and
  `Numbers`): a generator that draws traces, plants failures and needles in them, interleaves
  noise from a second generator and records the answers a query must find. A random generator
  is a stream with a position; all that is assumed of a stream is that values stay in range,
  samples are samples, and every value of a draw recurs. The scale can be any positive number,
  not only the three the command line offers.
- **Figure accounting** (`FigureAccounting`, `FigureSharing`), **pass bounds** (`GreedyPass`)
  and **percentiles** (`Percentile`): what the evaluator does with a run's measurements.
- **Lexers and gates of the documentation** (`Text`, `CommentBlanker`, `ClaimsRegistry`,
  `ClaimsRoundTrip`, `Fences`, `Orphans`, `Baseline`): the Rust comment blanker, the registry
  parser, the three fence scanners, the orphan check and the findings baseline. Fences follow
  section 4.5 of the CommonMark specification as the scripts read it.
- **The wire format** (`Wire`, `LogsWire`): the hand-written Protocol Buffers encoder, and a
  decoder written from the encoding's own rules ("Base 128 Varints", "Length-Delimited
  Records") that undoes it.
- **Rendezvous ranking** (`Affinity`): which replicas serve a tenant. BLAKE3 is a parameter.
- **The agents client** (`ErrorText`, `AgentsClient`): send-then-resolve, the event cursor and
  error bodies cut on a character boundary of UTF-8 (section 3 of RFC 3629).
- **The agents event log** (`IndexPages`, `IndexSeal`, `IndexLife`, `PendingInputs`,
  `EventsRead`, `EventsRoute`, `EventsHistory`): lists held as sealed pages and an open page,
  over their whole life; the inputs of an agent from acceptance to result; the lazy read of
  events after a cursor, the server's route over it, and the client following a whole history
  of publishes. This is the server the client's cursor promise is proved against.
- **The bench envelope** (`BenchRun`, `Envelope`, `EnvelopeCompare`, `EnvelopeLimits`): the
  script that summarises bench reports and the one that compares a report with the summary.

Code that loops is a method proved against a function; the theorems are about the functions.
A class stands for an object the source updates (`Random`, `Sink`, `Hasher`, `EventCursor`);
planting and relocating work in place on an array.

Where a promise does not hold of the code for every input, the code is kept as it is, a lemma
names an input on which it fails, and the exact condition is proved:

- Needle planning returns on every stream if and only if the corpus is below one block or its
  last block holds three rows, and on no stream at all if and only if there are 8,193 rows
  (`PlanEndsIff`, `PlanCanEndIff`, `HangsAt8193`).
- A noise-only corpus records an empty failing cell without clearing it: the record is what a
  scan finds on every run if and only if the corpus is not noise-only (`FailingCellIff`,
  `NoiseOnlyMisses`).
- Request ids keep the upper half of a trace id only, so a recorded list of them can find more
  rows than it has: in a run, if and only if a base trace shares its upper half with another
  written trace (`RequestListsIff`); over all runs, unless the arguments leave at most one
  trace to show or no run at all (`RequestListsAlways`, `TwoTracesCollide`).
- A registry field named `_line` is always a duplicate (`RoundTripIff`, `LineKeyRefused`).
- A baseline loses findings with tabs or line breaks, with a path that starts with `#`, or
  made of white space only, and the gate then fails right after a rewrite
  (`Baseline.RoundTrip`, `CleanAfterRewrite`, `HashPathLost`).
- An envelope whose banded maximum is negative warns about its own report, and a workload
  that is neither an object nor a false value breaks the comparison (`ReportsCompareClean`,
  `NegativeReportWarns`).
- Integers outside 64 signed bits wrap on the wire, and rows of unlisted services are dropped
  (`AnyRoundTrip`, `WrapsPastGreatest`, `NothingElse`).
- Runs longer than the share fall below the low pass bound, and only they do (`LowIff`,
  `OversizedRun`).
- Rows that share a key misplace figures, unless every figure under the key needs all that
  the rows under it need (`PlacementIff`, `SharedKeyMisplaces`, `StateNeeded`).
- Sealing an entry below the first key of the first page breaks the directory, and no run of
  an agent's list comes to one (`BelowFirstKey`, `SealKeeps`, `LifeKept`).

## Model

| member | source | states |
|---|---|---|
| `CorpusTraces.DrawTrace` | benchmarks/investigations/gen_corpus.py:92-99 | a drawn trace id is not among the ids already seen, its start leaves the whole trace margin inside its hour, and an even deal gives trace i hour i mod hours |
| `CorpusTraces.DrawnIds` | benchmarks/investigations/gen_corpus.py:92-96 | over a whole draw the seen set grows by exactly the drawn ids, which are distinct and disjoint from those seen before |
| `CorpusTraces.DrawnTimes` | benchmarks/investigations/gen_corpus.py:97-99 | every drawn start keeps its margin and an even deal goes round the hours |
| `CorpusTraces.DrawnSorted` | benchmarks/investigations/gen_corpus.py:100-101 | sorting the drawn traces loses and repeats none: same ids, distinct, ordered by start and id, all well timed |
| `CorpusTraces.DrawTraces` | benchmarks/investigations/gen_corpus.py:89-101 | the drawing loop leaves the random position, the seen set and the sorted list the specification function gives |
| `CorpusTraces.PlantedIndicesFacts` | benchmarks/investigations/gen_corpus.py:389-400 | the planted indices are distinct, lie in the failing hour and number 50 or the whole hour |
| `CorpusTraces.ClearCell` | benchmarks/investigations/gen_corpus.py:397-399 | in place: exactly the traces of the failing service in the failing hour lose their error flag |
| `CorpusTraces.FailAt` | benchmarks/investigations/gen_corpus.py:401-403 | in place: exactly the given traces become failing ones of the failing service |
| `CorpusTraces.Plant` | benchmarks/investigations/gen_corpus.py:393-403 | the planting phase as one update of the array of base traces and the random position |
| `CorpusTraces.CellIsPlanted` | benchmarks/investigations/gen_corpus.py:393-403 | after planting a base trace is an error of the failing service in the failing hour if and only if its index was planted, and no start moved |
| `CorpusTraces.Relocate` | benchmarks/investigations/gen_corpus.py:419-422 | in place: no noise trace is left in the failing cell and no start moved |
| `CorpusNeedles.TiersOrdered` | benchmarks/investigations/gen_corpus.py:104-112 | tiers never exceed the number of blocks, and are strictly ordered rare < sparse < common from three blocks on |
| `CorpusNeedles.TierFacts` | benchmarks/investigations/gen_corpus.py:124-131 | a tier that ends puts exactly one row in each sampled block, none of them used before |
| `CorpusNeedles.PlanFacts` | benchmarks/investigations/gen_corpus.py:115-132 | no row carries two needles, and each tier falls in exactly its planned number of distinct blocks |
| `CorpusNeedles.TierEndsWithRoom` | benchmarks/investigations/gen_corpus.py:127-129 | the redraw loop ends whenever every sampled block has a free row |
| `CorpusNeedles.TierStuck` | benchmarks/investigations/gen_corpus.py:127-129 | a sampled block without a free row keeps the loop redrawing on every stream |
| `CorpusNeedles.PlanEndsIff` | benchmarks/investigations/gen_corpus.py:115-132 | the planner returns on every lawful random stream if and only if the corpus is below one block or its last block holds at least three rows |
| `CorpusNeedles.HangsOnCycle` | benchmarks/investigations/gen_corpus.py:115-132 | for every row count with a last block of one or two rows there is a lawful stream on which the planner never returns |
| `CorpusNeedles.HangsAt8193` | benchmarks/investigations/gen_corpus.py:115-132 | at 8,193 log rows the planner returns on no stream at all |
| `CorpusNeedles.PlaceTier` | benchmarks/investigations/gen_corpus.py:124-131 | one tier of the planning loop: rows, used rows and random position as specified |
| `CorpusNeedles.PlanNeedles` | benchmarks/investigations/gen_corpus.py:115-132 | the planning loop over the three tiers meets its specification |
| `CorpusEmit.EmitTrace` | benchmarks/investigations/gen_corpus.py:200-229 | the span loop appends exactly the specified rows to the sink and leaves the random position behind them |
| `CorpusEmit.MarginKeepsHour` | benchmarks/investigations/gen_corpus.py:85-98 | any time within the trace margin of a well-timed start is in the same hour |
| `CorpusEmit.SpansFacts` | benchmarks/investigations/gen_corpus.py:200-227 | a trace's spans are a tree: distinct odd ids, one root, every other parent an earlier span, all in the trace's hour, root status from the error flag |
| `CorpusEmit.EmitLogs` | benchmarks/investigations/gen_corpus.py:236-260 | the log loop appends exactly the specified rows and keeps the positions of every tagged row of the file |
| `CorpusEmit.LogsFacts` | benchmarks/investigations/gen_corpus.py:236-260 | each log is its trace's, in its trace's hour, with the tag and request id planned for its row number |
| `CorpusEmit.PositionedAppend` | benchmarks/investigations/gen_corpus.py:245-248 | recording the sink's count before a tagged row is added gives exactly the positions of tagged rows in the file |
| `CorpusEmit.Sink.Add` | benchmarks/investigations/gen_corpus.py:135-170 | a sink only ever grows at its end |
| `CorpusMerge.SelectBase` | benchmarks/investigations/gen_corpus.py:435-448 | picking the base traces' blocks out of the interleaving gives back all base blocks in order |
| `CorpusMerge.MergedElements` | benchmarks/investigations/gen_corpus.py:435-448 | the two-index merge writes every base and every noise trace exactly once |
| `CorpusMerge.MergedSorted` | benchmarks/investigations/gen_corpus.py:434-448 | the merged order is sorted by trace start and id |
| `CorpusMerge.EmittedFacts` | benchmarks/investigations/gen_corpus.py:438-448 | each block has the asked number of rows, all its own trace's and in its hour, base rows carrying the marks of their row number |
| `CorpusMerge.WriteRows` | benchmarks/investigations/gen_corpus.py:426-450 | the merge loop over two generators and two sinks writes the woven blocks, moves each generator by its own emission only, and records needle positions of the final file |
| `CorpusRun.BuildBase` | benchmarks/investigations/gen_corpus.py:382-413 | the base phase ends with the specified traces, planted indices, plan, present row and saved rows |
| `CorpusRun.BaseFacts` | benchmarks/investigations/gen_corpus.py:382-413 | base traces are sorted, well timed and distinct, the seen set is exactly their ids, the present row exists unless the run is noise only |
| `CorpusRun.BuildNoise` | benchmarks/investigations/gen_corpus.py:415-424 | the noise phase ends with the specified traces |
| `CorpusRun.NoiseFacts` | benchmarks/investigations/gen_corpus.py:415-424 | noise traces are sorted, well timed, distinct, share no id with the base and none is in the failing cell |
| `CorpusRun.BuildMarks` | benchmarks/investigations/gen_corpus.py:407-410 | the row-to-needle map built tier by tier is the plan read as a map |
| `CorpusRun.Generate` | benchmarks/investigations/gen_corpus.py:347-450 | from two freshly seeded generators the program writes the specified files and records the needle positions of the written file |
| `CorpusRun.BlocksOwned` | benchmarks/investigations/gen_corpus.py:435-448 | both files are sequences of blocks, one per trace in merged order, each of the asked size and owned by one trace |
| `CorpusRun.BlockFacts` | benchmarks/investigations/gen_corpus.py:435-448 | block k is its owner's span tree and its logs are in the owner's hour |
| `CorpusRun.OwnersDistinct` | benchmarks/investigations/gen_corpus.py:415-448 | no trace id is written twice, the file holds scale times traces of them, sorted, and they are the base and noise traces |
| `CorpusRun.Noninterference` | benchmarks/investigations/gen_corpus.py:385-448 | for every scale and every noise stream, the base rows of both files in order, the base phase and the base generator's final position equal those of the scale-1 run |
| `CorpusRun.KeptBase` | benchmarks/investigations/gen_corpus.py:385-448 | the rows of base traces in the written files are the base generator's own emission, in order |
| `CorpusRun.AllKept` | benchmarks/investigations/gen_corpus.py:415-424 | at scale 1 the files hold nothing but base rows |
| `CorpusHours.OwnersInHours` | benchmarks/investigations/gen_corpus.py:435-448 | with even hours, hour k owns exactly positions k*c to (k+1)*c of the merged traces |
| `CorpusHours.SpanBatches` | benchmarks/investigations/gen_corpus.py:17-26 | cutting the spans file into as many equal batches as hours gives exactly hour k's spans as batch k at every scale, ends included |
| `CorpusHours.LogBatches` | benchmarks/investigations/gen_corpus.py:17-26 | the same for the logs file |
| `CorpusOracle.CellScan` | benchmarks/investigations/gen_corpus.py:393-422 | scanning the written spans for failing roots finds exactly the base traces in the failing cell |
| `CorpusOracle.FailingCellExact` | benchmarks/investigations/gen_corpus.py:466-468 | the recorded failing ids are exactly those a scan of the file finds, as many as asked for or as the hour holds, and their logs number the recorded value |
| `CorpusOracle.RowsOfTraces` | benchmarks/investigations/gen_corpus.py:460-468 | any set of written traces has spans-per-trace and logs-per-trace rows each in the files |
| `CorpusOracle.BaseRowMarks` | benchmarks/investigations/gen_corpus.py:236-260 | base log row r carries the needle and the request id planned for row r, in the trace that owns it |
| `CorpusOracle.NoiseUnmarked` | benchmarks/investigations/gen_corpus.py:444-448 | no row outside the base traces carries a needle or the planted request id |
| `CorpusAnswers.NeedleExact` | benchmarks/investigations/gen_corpus.py:526-527 | the file holds exactly as many rows of each needle as were planned |
| `CorpusAnswers.PresentExact` | benchmarks/investigations/gen_corpus.py:520-524 | exactly one row of the file carries the planted request id, in the recorded trace; a noise-only file has none |
| `CorpusAnswers.PoolEnumerates` | benchmarks/investigations/gen_corpus.py:479-488 | the arithmetic row pool enumerates every row but the planted one, once and in order |
| `CorpusAnswers.DrawLists` | benchmarks/investigations/gen_corpus.py:470-513 | the list draws meet their specification and leave the random position behind them |
| `CorpusAnswers.DrawExtra` | benchmarks/investigations/gen_corpus.py:502-513 | the extra key is redrawn until it is outside the longest list |
| `CorpusAnswers.DrawKeys` | benchmarks/investigations/gen_corpus.py:470-513 | all post-loop draws as one specified step |
| `CorpusAnswers.DrawingsSame` | benchmarks/investigations/gen_corpus.py:470-513 | every draw made after writing is the same at every scale |
| `CorpusJourney.JourneyCuts` | benchmarks/investigations/gen_corpus.py:550-563 | the generator stops if and only if two traces of the failing hour share a start, and otherwise records one cut per tier |
| `CorpusJourney.CutAdmits` | benchmarks/investigations/gen_corpus.py:550-563 | the number of starts below a cut is the recorded count |
| `CorpusJourney.JourneyExact` | benchmarks/investigations/gen_corpus.py:550-563 | the root spans of the failing hour before each recorded cut, and their logs, number exactly what is recorded |
| `RandomStream.Random.DrawOutside` | benchmarks/investigations/gen_corpus.py:93-95 | the redraw loop terminates on a stream that reaches a free value and returns the first one |
| `RandomStream.LawfulReaches` | benchmarks/investigations/gen_corpus.py:93-95 | a lawful stream reaches a free value from any position |
| `FigureAccounting.UnrequestedRow` | benchmarks/investigations/evaluate.py:1277-1313 | a row the settings never asked for did not run, and none of its figures was asked for |
| `FigureAccounting.RunRows` | benchmarks/investigations/evaluate.py:1376-1420 | the row and figure loops fill the entries and the by-id map as specified, later figures seeing earlier ones |
| `FigureAccounting.EntriesConsistent` | benchmarks/investigations/evaluate.py:1376-1420 | only a gated not-run figure carries a gap, derived figures included |
| `FigureAccounting.EntriesAccount` | benchmarks/investigations/evaluate.py:1376-1420 | entry i is figure i's, and if its row was never asked for it is not run with a gap |
| `FigureAccounting.ListNotRequested` | benchmarks/investigations/evaluate.py:1316-1334 | the two loops and the sort build the specified listing |
| `FigureAccounting.GroupsIds` | benchmarks/investigations/evaluate.py:1326-1333 | the names listed are exactly the ids of figures never asked for whose row is not listed as a whole |
| `FigureAccounting.ListIncomplete` | benchmarks/investigations/evaluate.py:1636-1667 | the loop over figures adds exactly the specified lines |
| `FigureAccounting.LineMatches` | benchmarks/investigations/evaluate.py:1657-1665 | a figure's line starts as the not-run line of an id if and only if it is that figure's not-run line |
| `FigureAccounting.SharedKeyMisplaces` | benchmarks/investigations/investigations_cases.py:3183-3194 | two rows sharing a key break it: a figure with a value is covered by the other row's listing |
| `GreedyPass.GreedyGroups` | benchmarks/investigations/investigations_cases.py:2257-2265 | the greedy loop counts the specified groups |
| `GreedyPass.SlowestWithinBounds` | benchmarks/investigations/evaluate.py:1225-1235 | for every budget and non-empty list of fields, the slowest field's greedy count is at most the high bound, and at least the low bound if no run exceeds the share |
| `GreedyPass.FieldLow` | benchmarks/investigations/evaluate.py:1228-1231 | one field of runs within the share takes at least ceil(P/s) groups and at least one |
| `GreedyPass.FieldHigh` | benchmarks/investigations/evaluate.py:1231-1233 | one field takes at most 2*ceil(P/s)-1 groups, or one, however long its runs are |
| `GreedyPass.AdjacentExceed` | benchmarks/investigations/evaluate.py:1232-1233 | any two adjacent greedy groups hold more than the share |
| `GreedyPass.GreedyLeast` | benchmarks/investigations/investigations_cases.py:2257-2265 | no way of cutting the runs in order into groups of at most the share has fewer groups |
| `GreedyPass.GreedyIsCut` | benchmarks/investigations/investigations_cases.py:2257-2265 | the greedy groups are such a cut: together they are the runs, each at most the share |
| `Percentile.PercentileOrderFree` | benchmarks/investigations/evaluate.py:174-179 | the percentile depends on the multiset of values only |
| `Percentile.PercentileWithin` | benchmarks/investigations/evaluate.py:174-179 | every percentile lies between the 0 and 1 percentiles, which are the least and greatest value |
| `Percentile.PercentileMonotone` | benchmarks/investigations/evaluate.py:746-748 | the percentile grows with p on [0,1], so no interquartile range is negative |
| `CommentBlanker.StripKeeps` | scripts/check-doc-claims.py:270-330 | blanking keeps the length and every line break, and every other character is kept in place or a space |
| `CommentBlanker.StripClean` | scripts/check-doc-claims.py:270-330 | the result opens no comment, string or character literal anywhere |
| `CommentBlanker.CleanMeans` | scripts/check-doc-claims.py:270-330 | no position of a clean text has a double quote, // or /* |
| `CommentBlanker.CleanFixed` | scripts/check-doc-claims.py:270-330 | a clean text is left as it is |
| `CommentBlanker.StripIdempotent` | scripts/check-doc-claims.py:270-330 | blanking twice is blanking once |
| `CommentBlanker.CounterIsNesting` | scripts/check-doc-claims.py:294-304 | the depth counter finds the same end as recursive descent through nested comments |
| `CommentBlanker.BlockCommentEnds` | scripts/check-doc-claims.py:294-304 | a block comment is blanked to the mark that closes it, inner comments included |
| `CommentBlanker.StringEndIsFirstQuote` | scripts/check-doc-claims.py:312-318 | a string ends at its first quote after an even number of backslashes, or with the text |
| `CommentBlanker.CodeBefore` | scripts/check-doc-claims.py:270-330 | code before a comment is kept to the last character |
| `CommentBlanker.LineCommentStripped` | scripts/check-doc-claims.py:289-293 | code, a line comment and the rest: the code stays, the comment is blanked to the line break, scanning goes on behind it |
| `CommentBlanker.ScanBlock` | scripts/check-doc-claims.py:294-304 | the depth loop ends where the block comment does |
| `CommentBlanker.ScanString` | scripts/check-doc-claims.py:312-318 | the escape-skipping loop ends where the string does |
| `CommentBlanker.TokenEnd` | scripts/check-doc-claims.py:270-330 | one turn of the scanner finds the end of what is blanked |
| `CommentBlanker.StripComments` | scripts/check-doc-claims.py:274-330 | the index loop terminates and returns the specified text |
| `ClaimsRegistry.ReadDouble` | scripts/check-doc-claims.py:104-122 | the double-quoted scalar loop meets its specification, error lines included |
| `ClaimsRegistry.ReadSingle` | scripts/check-doc-claims.py:123-138 | the single-quoted scalar loop meets its specification |
| `ClaimsRegistry.ReadScalar` | scripts/check-doc-claims.py:102-145 | the scalar reader meets its specification in all three styles |
| `ClaimsRegistry.ReadLine` | scripts/check-doc-claims.py:148-202 | one line updates the open entry, the pending list and the folding state as specified, with the same errors |
| `ClaimsRegistry.ReadKey` | scripts/check-doc-claims.py:185-201 | a key line sets or refuses its key as specified |
| `ClaimsRegistry.ParseRegistry` | scripts/check-doc-claims.py:148-202 | the line loop returns the specified entries or the first error |
| `ClaimsRoundTrip.DoubleUndone` | scripts/check-doc-claims.py:104-122 | reading a double-quoted text undoes its escapes |
| `ClaimsRoundTrip.SingleUndone` | scripts/check-doc-claims.py:123-138 | reading a single-quoted text undoes its doubled quotes |
| `ClaimsRoundTrip.ScalarUndone` | scripts/check-doc-claims.py:102-145 | every printable scalar is read back as itself in the style it was printed in |
| `ClaimsRoundTrip.FieldParsed` | scripts/check-doc-claims.py:148-202 | the printed lines of a field add exactly that field to the open entry |
| `ClaimsRoundTrip.EntryParsed` | scripts/check-doc-claims.py:148-202 | the printed lines of an entry add exactly that entry, with its starting line |
| `ClaimsRoundTrip.AllParsed` | scripts/check-doc-claims.py:148-202 | from any valid state, printed entries are added in order with their lines |
| `ClaimsRoundTrip.RoundTrip` | scripts/check-doc-claims.py:148-202 | parsing any printed list of entries returns the same entries with the right starting lines |
| `ClaimsRoundTrip.FieldFound` | scripts/check-doc-claims.py:148-202 | every printed field is found under its key with its meaning |
| `Fences.MarksAgree` | scripts/check_readme_commands.py:106-119 | the command extractor and the docs scanners read every fence line alike: same lines, character, length and info |
| `Fences.MarkerIsNoFence` | scripts/check_readme_commands.py:92-103 | no run marker is a fence line |
| `Fences.InsideUntilClose` | scripts/check_docs.py:128-143 | between its opening and its closing line a fence stays open with its own character and length |
| `Fences.IterProseLines` | scripts/check_docs.py:120-148 | the prose scanner yields the specified lines with their numbers |
| `Fences.ProseYielded` | scripts/check_docs.py:120-148 | a line is yielded if and only if no fence is open before it and it opens none |
| `Fences.IterCodeBlocks` | scripts/check_docs.py:151-172 | the code-block scanner yields the specified closed blocks |
| `Fences.ReadFence` | scripts/check_readme_commands.py:225-246 | the fence reader returns the body and the closing line, or none at the end of the text |
| `Fences.ExtractBlocks` | scripts/check_readme_commands.py:176-222 | the extractor meets its specification, errors included |
| `Fences.ExtractAgrees` | scripts/check_readme_commands.py:176-246 | the extractor succeeds if and only if every prose marker stands before a closed fence and parses, and then returns exactly those fences in order |
| `Fences.CodeBlocksAgree` | scripts/check_docs.py:106-172 | the two docs scanners agree on every text about where fences open and close |
| `Fences.BlocksPlaced` | scripts/check_readme_commands.py:176-246 | every marked prose line's fence is among the blocks, the marker is yielded as prose, and the command is a body the code-block scanner yields |
| `Orphans.MarkReachable` | scripts/check_docs.py:793-801 | the worklist terminates on every finite graph and marks exactly the pages with a path of links from a root |
| `Orphans.Visit` | scripts/check_docs.py:797-801 | following one page keeps the marks sound and every page no longer waiting fully followed |
| `Orphans.CheckOrphan` | scripts/check_docs.py:791-805 | the report is exactly the pages under docs/ that no path reaches, in file order |
| `Orphans.ClosedKeeps` | scripts/check_docs.py:796-801 | no path of links leaves a set of pages that no link leaves |
| `Orphans.LinksOnlyHelp` | scripts/check_docs.py:791-805 | adding links never makes a reached page unreached |
| `Baseline.WriteBaseline` | scripts/check_docs.py:924-934 | the writer produces the specified text |
| `Baseline.WrittenOrderFree` | scripts/check_docs.py:928-934 | the file does not depend on the order the findings were collected in |
| `Baseline.LoadBaseline` | scripts/check_docs.py:937-954 | the loader counts exactly the specified entries |
| `Baseline.EntryExact` | scripts/check_docs.py:943-953 | a line is counted as a finding if and only if it is that finding's format and the finding has no tab or line break, no leading # and is not all white space |
| `Baseline.LoadedCount` | scripts/check_docs.py:937-954 | each finding is loaded as often as its format occurs among the lines |
| `Baseline.RoundTrip` | scripts/check_docs.py:928-954 | loading what was written returns the same multiset if and only if every finding is one the format can carry |
| `Baseline.Compare` | scripts/check_docs.py:987-997 | new findings are those whose key the baseline lacks, with their counts; unused entries are the multiset difference |
| `Baseline.Gate` | scripts/check_docs.py:970-1016 | the exit status is 0 exactly when every key is carried and, under the strict flag, nothing is unused |
| `Baseline.CleanAfterRewrite` | scripts/check_docs.py:928-1016 | the gate right after a rewrite passes, strict or not, if and only if the format can carry every finding |
| `Affinity.Score` | crates/ravel-affinity/src/lib.rs:59-65 | the hasher is fed the tenant's length, the tenant and the replica, in that order |
| `Affinity.HashInputInjective` | crates/ravel-affinity/src/lib.rs:54-65 | two tenant and replica pairs with the same hash input are the same pair |
| `Affinity.Rank` | crates/ravel-affinity/src/lib.rs:74-83 | scoring, sorting and projecting give the specified ranking |
| `Affinity.RankPermutes` | crates/ravel-affinity/src/lib.rs:67-83 | the ranking is a permutation of the replicas, by score descending and then bytes ascending |
| `Affinity.RankingUnique` | crates/ravel-affinity/src/lib.rs:67-83 | any list of the replicas in that order is the ranking, so the order is total |
| `Affinity.RankOrderFree` | crates/ravel-affinity/src/lib.rs:67-83 | the ranking depends on the multiset of replicas only |
| `Affinity.OneRemoved` | crates/ravel-affinity/src/lib.rs:14-21 | taking one replica away removes its first place from the ranking and moves nothing else |
| `Affinity.BoundedReassignment` | crates/ravel-affinity/src/lib.rs:85-90 | the subset is unchanged if it did not hold the removed replica; otherwise it loses that one and gains the next in rank, if any |
| `Affinity.AtMostOneEachWay` | crates/ravel-affinity/src/lib.rs:14-21 | one replica leaving or joining changes at most one member each way, and the one that goes is the one removed |
| `Wire.WriteVarint` | benchmarks/mcp-eval/fixture/gen.py:221-230 | the byte loop writes the specified varint |
| `Wire.VarintRoundTrip` | benchmarks/mcp-eval/fixture/gen.py:221-230 | every number is read back from its varint whatever follows it |
| `Wire.FixedRoundTrip` | benchmarks/mcp-eval/fixture/gen.py:249-250 | eight little-endian bytes give the number back |
| `Wire.FieldRoundTrip` | benchmarks/mcp-eval/fixture/gen.py:233-250 | every field of the three wire types is read back whatever follows it |
| `Wire.FieldsRoundTrip` | benchmarks/mcp-eval/fixture/gen.py:233-250 | every message is read back field by field |
| `LogsWire.AnyRoundTrip` | benchmarks/mcp-eval/fixture/gen.py:257-260 | a value comes back wrapped to 64 signed bits, as itself if and only if it fits them |
| `LogsWire.KeyValueRoundTrip` | benchmarks/mcp-eval/fixture/gen.py:263-264 | an attribute comes back with its key and wrapped value |
| `LogsWire.CanonicalKeeps` | benchmarks/mcp-eval/fixture/gen.py:301-308 | a row whose integers fit loses nothing: same attributes, in key order |
| `LogsWire.RecordRoundTrip` | benchmarks/mcp-eval/fixture/gen.py:301-308 | every record is read back as the row the wire keeps |
| `LogsWire.EncodeLogsRows` | benchmarks/mcp-eval/fixture/gen.py:299-314 | the filing loop and the service loop write the specified request |
| `LogsWire.LogsRoundTrip` | benchmarks/mcp-eval/fixture/gen.py:299-314 | decoding the request gives every row of a listed service once, in order within its service |
| `LogsWire.NothingElse` | benchmarks/mcp-eval/fixture/gen.py:309-314 | the rows decoded number exactly the rows of listed services, so rows of any other service are dropped |
| `ErrorText.Truncated` | crates/ravel-agents-client/src/lib.rs:173-179 | the loop ends and cuts at the last character boundary within 512 bytes, on any bytes |
| `ErrorText.CutKeepsCharacters` | crates/ravel-agents-client/src/lib.rs:173-179 | a cut UTF-8 body is a whole number of characters, as many as fit |
| `ErrorText.CutIsLongest` | crates/ravel-agents-client/src/lib.rs:173-179 | it is the longest such prefix, and loses at most three of the 512 bytes |
| `AgentsClient.OneSend` | crates/ravel-agents-client/src/lib.rs:383-405 | for every reply there is one send, and one resolve of the same request exactly after a refusal that says outcome_unknown and resolve_operation |
| `AgentsClient.RunSafe` | crates/ravel-agents-client/src/lib.rs:383-405 | over any list of requests and any server, each request is sent once in order and every resolve directly follows the send whose answer asked for it |
| `AgentsClient.CodesRead` | crates/ravel-agents-client/src/lib.rs:138-166 | only the two exact codes are read as outcome_unknown and resolve_operation |
| `AgentsClient.EventCursor.NextPage` | crates/ravel-agents-client/src/lib.rs:240-250 | one request with the limit capped; the cursor moves to the page's on success and stays on failure |
| `AgentsClient.Follow` | crates/ravel-agents-client/src/lib.rs:226-251 | a run of calls on one cursor receives the specified events |
| `AgentsClient.Continuation` | crates/ravel-agents-client/src/lib.rs:221-251 | over any run of successes and failures against a server that pages after the cursor, the received events are exactly the log from the first cursor to the last |
| `AgentsClient.Resumes` | crates/ravel-agents-client/src/lib.rs:221-236 | starting again from a persisted cursor is the same as never having stopped |
| `AgentsClient.NoneTwice` | crates/ravel-agents-client/src/lib.rs:221-251 | no event is received twice |
| `BenchRun.NamesDistinct` | scripts/bench-s3-compare.py:44-72 | no two compared figures share a name |
| `BenchRun.RunAgrees` | scripts/bench/s3-envelope.py:69-89 | every figure of a run's entry is found at the path the comparison uses, with the value the report has at its own path |
| `Envelope.CollectValues` | scripts/bench-s3-compare.py:103-109 | the inner loop returns the figure of every run or stops at the first without a number |
| `Envelope.ComputeEnvelope` | scripts/bench-s3-compare.py:98-111 | the outer loop builds the specified envelope or refuses |
| `Envelope.EnvelopeHas` | scripts/bench-s3-compare.py:98-111 | a successful envelope holds every figure with the least and greatest value over the runs |
| `Envelope.EnvelopeOrderFree` | scripts/bench-s3-compare.py:98-111 | reordering the runs changes no bound and no refusal |
| `EnvelopeCompare.OwnEnvironment` | scripts/bench-s3-compare.py:114-131 | a report passes the environment check against its own recorded environment unless its workload cannot be read |
| `EnvelopeCompare.Compare` | scripts/bench-s3-compare.py:145-167 | the loop over figures returns the specified warnings or refusal |
| `EnvelopeCompare.CleanIff` | scripts/bench-s3-compare.py:134-167 | there is no warning and no refusal if and only if every figure is present, usable and inside its band |
| `EnvelopeCompare.Summarise` | scripts/bench/s3-envelope.py:146-163 | the report loop, the sort and the build give the specified document or refusal |
| `EnvelopeCompare.SummaryCovers` | scripts/bench/s3-envelope.py:92-163 | a built document covers each figure: every report lies between the bounds and some report attains the maximum |
| `EnvelopeCompare.StoredAgrees` | scripts/bench/s3-envelope.py:166-180 | the check passes a file with a built document's runs, in any order, if and only if it stores the bounds that were built |
| `EnvelopeCompare.ReportsCompareClean` | scripts/bench-s3-compare.py:98-167 | all reports that made an envelope compare clean against it if and only if their workload can be read and every banded figure is non-negative in some report |
| `IndexPages.PageForChain` | crates/ravel-agents-core/src/pages.rs:507-517 | in a directory whose key ranges follow each other, a key in a page's range is looked up in that page and no other |
| `IndexPages.PartsCover` | crates/ravel-agents-core/src/pages.rs:680-687 | every entry of a list goes to exactly one page or to the open page |
| `IndexPages.AttachKeeps` | crates/ravel-agents-core/src/pages.rs:616-640 | the page a directory describes is always accepted, and attaching it leaves what the list holds unchanged, with no key twice and every key placed |
| `IndexPages.RereadKeeps` | crates/ravel-agents-core/src/pages.rs:6-11 | a published root read again with no page attached holds its pages and its open page, and is well formed |
| `IndexPages.TotalExact` | crates/ravel-agents-core/src/pages.rs:573-582 | the entry count answered from a root alone is the number of entries the list holds |
| `IndexSeal.Distribute` | crates/ravel-agents-core/src/pages.rs:680-687 | the filing loop gives each page its entries and the open page the rest |
| `IndexSeal.RebuildPage` | crates/ravel-agents-core/src/pages.rs:714-734 | the chunk loop cuts a loaded page as specified and names exactly the changed pages as objects to write |
| `IndexSeal.SealOpen` | crates/ravel-agents-core/src/pages.rs:736-753 | the tail loop seals exactly the specified full pages and leaves the specified tail key |
| `IndexSeal.SealList` | crates/ravel-agents-core/src/pages.rs:668-764 | the four loops together compute the seal the theorems are about, with the same refusals |
| `IndexSeal.ChunksFacts` | crates/ravel-agents-core/src/pages.rs:714-734 | the chunks of a page fill its key range without overlap, hold exactly its entries and none has more than the bound |
| `IndexSeal.SealTailFacts` | crates/ravel-agents-core/src/pages.rs:736-753 | the pages sealed off an open page and its rest are exactly its entries, and no rest key is below the new tail |
| `IndexSeal.SealKeeps` | crates/ravel-agents-core/src/pages.rs:661-764 | sealing a well-formed list fails only on a full directory; otherwise the root published holds exactly what the list held in memory and out of it, stays well formed, has no new page over the bound, names only old or written objects, and its tail is no later than the lowest key that may still be appended |
| `IndexSeal.TailKept` | crates/ravel-agents-core/src/pages.rs:688-694 | a list that keeps its tail ends with an empty open page if and only if no entry was open and the last page, if in memory, had none left |
| `IndexSeal.PublishRoundTrip` | crates/ravel-agents-core/src/pages.rs:661-764 | sealed, published and read again, a list holds exactly what it held |
| `EventsRead.ReadEvents` | crates/ravel-agents-store/src/lib.rs:461-504 | the page loop with its skips and its early stop computes the read the theorems are about |
| `EventsRead.ReadExact` | crates/ravel-agents-store/src/lib.rs:453-504 | whatever pages are in memory, the lazy read returns the first wanted events of the whole list in order, with or without an operation filter |
| `EventsRead.RangeExcludes` | crates/ravel-agents-core/src/pages.rs:499-504 | a page whose acceptance range does not hold an operation holds no event of it |
| `EventsRead.LoadsBounded` | crates/ravel-agents-store/src/lib.rs:436-440 | with at least m entries in every page, a read attaches at most ceil(limit/m) + 1 pages |
| `EventsRoute.CursorRoundTrip` | services/ravel-server/src/agents/routes.rs:486-495 | a cursor the route issues is read back as the number it was issued for |
| `EventsRoute.OldestExact` | services/ravel-server/src/agents/routes.rs:520-529 | the oldest event a root answers for is the first event it still holds |
| `EventsRoute.RoutePages` | services/ravel-server/src/agents/routes.rs:480-574 | over a root that serves a log the route pages after the cursor, or refuses a cursor whose successor is gone, never skipping an event |
| `EventsRoute.FollowExact` | crates/ravel-agents-client/src/lib.rs:221-251 | a client following the route through any failures, growth and trimming receives exactly the events between its first and last cursor |
| `EventsHistory.HistoryServes` | crates/ravel-agents-core/src/pages.rs:661-764 | every root of every history of publishes, refused ones included, serves all events published so far |
| `EventsHistory.FollowHistory` | crates/ravel-agents-client/src/lib.rs:221-251 | calls that each fail or are answered over the root at any point of a history give the client exactly the published events from its first cursor to its last |
| `EventsHistory.ReadsFewPages` | crates/ravel-agents-store/src/lib.rs:436-440 | with one page bound k throughout, a read of any history attaches at most ceil(limit/k) + 1 pages |
| `IndexSeal.RebuildPages` | crates/ravel-agents-core/src/pages.rs:701-735 | the page loop keeps unloaded pages, cuts loaded ones again and stops at the first unloaded page that has entries in memory |
| `IndexPages.RangeTight` | crates/ravel-agents-core/src/pages.rs:492-497 | both ends of a page's acceptance range are taken by an entry of it |
| `AgentsClient.OutcomeExact` | crates/ravel-agents-client/src/lib.rs:387-405 | the outcome is accepted or resolved exactly with what the successful send or the successful resolve answered, and an error otherwise |
| `CommentBlanker.RawStringBlanked` | scripts/check-doc-claims.py:305-311 | a raw string, byte or not, is blanked up to and with the first quote followed by as many hashes as opened it |
| `CommentBlanker.LiteralOrLifetime` | scripts/check-doc-claims.py:319-326 | a quote before a plain character is a literal exactly when the next character closes it, and otherwise kept as a lifetime |
| `CommentBlanker.HexEscape` | scripts/check-doc-claims.py:271 | a two-digit escape is a literal exactly when both digits are hexadecimal |
| `CommentBlanker.UnicodeEscape` | scripts/check-doc-claims.py:271 | a braced escape is a literal exactly with one to six digits or underscores |
| `Fences.MarkerRead` | scripts/check_readme_commands.py:92-103 | a marker line, indented or not, is read as the expectation written in it |
| `EnvelopeCompare.EnvironmentExact` | scripts/bench-s3-compare.py:114-131 | the environment check passes exactly when the report has an environment and every field and every workload member agrees, missing and null counting as the same |
| `EnvelopeCompare.WarnsExactly` | scripts/bench-s3-compare.py:145-167 | a comparison warns about exactly the figures that are missing, differ though exact, or are past 125 percent (latency) or 110 percent (count) of the maximum |
| `GreedyPass.ShareLargest` | benchmarks/investigations/evaluate.py:1233 | the share is the largest that all fields together fit into the budget, and at least one pair |
| `GreedyPass.HighFromLow` | benchmarks/investigations/evaluate.py:1234-1235 | the high bound is always twice the low one less one |
| `GreedyPass.LowAttained` | benchmarks/investigations/evaluate.py:1228-1231 | for every total and share some runs within the share take exactly the low number of groups, so the low bound is the best there is |
| `FigureAccounting.RowRunsIff` | benchmarks/investigations/evaluate.py:1277-1288 | a row runs if and only if its tenant is loaded, its states are live, its scales are listed and its baseline exists |
| `FigureAccounting.FigureRunsIff` | benchmarks/investigations/evaluate.py:1337-1344 | a figure adds nothing to that if and only if its own states are live |
| `FigureAccounting.AskedForIff` | benchmarks/investigations/evaluate.py:1291-1313 | a figure was asked for if and only if no setting leaves out its tenant, a scale, its baseline, or a state of its row or its own |
| `FigureAccounting.GatedExactly` | benchmarks/investigations/evaluate.py:1381-1393 | a figure lacking something is not run and gated, and carries a gap if and only if it was not asked for; any other measured figure has what was measured |
| `FigureAccounting.DerivedFollows` | benchmarks/investigations/evaluate.py:1394-1401 | a derived figure takes the status of the figure it lacks where that is passed on, and inherits gating and gap from its references |
| `FigureAccounting.ListingOrdered` | benchmarks/investigations/evaluate.py:1334 | the listing of what was not requested is in row order |
| `CorpusNeedles.TierShares` | benchmarks/investigations/gen_corpus.py:104-112 | from 3,000 blocks on the tiers are a tenth of a percent and ten percent of the blocks, to the nearest block |
| `CorpusNeedles.RoundsNearest` | benchmarks/investigations/gen_corpus.py:109-110 | rounding gives a nearest whole number, and of two the even one |
| `CorpusLimits.FailingCellIff` | benchmarks/investigations/gen_corpus.py:391-403 | for every accepted choice of arguments, the recorded failing trace ids are the ones a scan finds on every run if and only if the corpus is not noise-only |
| `CorpusLimits.NoiseOnlyMisses` | benchmarks/investigations/gen_corpus.py:393-403 | for all arguments of a noise-only corpus, generators with which the scan finds a trace in the failing cell while the record is empty |
| `CorpusRequests.LogsLaid` | benchmarks/investigations/gen_corpus.py:435-448 | the logs file holds each log of each written trace once and nothing else, with its own request id or the planted one |
| `CorpusRequests.RequestListsIff` | benchmarks/investigations/gen_corpus.py:479-496 | in every run, every list of distinct rows other than the planted one finds as many file rows as it has if and only if no base trace shares the upper half of its id with another written trace (a trace whose only log is the planted row aside) |
| `CorpusRequests.RowListsExact` | benchmarks/investigations/gen_corpus.py:490-518 | each drawn list of rows, and the longest one with its extra key, has the recorded number of rows; unless an upper half is shared, their ids differ and each is found in exactly one file row |
| `CorpusLimits.OneRowFoundTwice` | benchmarks/investigations/gen_corpus.py:490-496 | for all other arguments, generators with which a list of one row is recorded as 1 and found twice |
| `CorpusLimits.TwoTracesCollide` | benchmarks/investigations/gen_corpus.py:232-233 | two noise-only traces of one log each already do |
| `CorpusAnswers.TraceListsExact` | benchmarks/investigations/gen_corpus.py:470-478 | each drawn list of trace ids has the recorded number of distinct ids, spans and logs in the files, and the extra key exists exactly when the longest list leaves one |
| `CorpusAnswers.TraceControlExact` | benchmarks/investigations/gen_corpus.py:498-516 | the longest list of trace ids with its extra key has the recorded number of ids, spans and logs in the files |
| `FigureAccounting.PlacedIff` | benchmarks/investigations/investigations_cases.py:3183-3194 | in every run, for every band file whose ids differ and have no spaces, a figure is placed exactly once if not run and nowhere otherwise, if and only if it was left out itself whenever a row under the first part of its id was |
| `FigureAccounting.PlacedOnce` | benchmarks/investigations/investigations_cases.py:3183-3194 | with distinct dot-free keys every not-run figure is placed exactly once, by its row, by its name or as an incomplete line, and every other figure nowhere, for all settings, live states, measurements and references |
| `FigureSharing.PlacementIff` | benchmarks/investigations/evaluate.py:1316-1334 | placement is right for all settings, live states and measurements if and only if every figure needs all that the rows listed under its key need |
| `FigureSharing.UnshelteredMisplaced` | benchmarks/investigations/evaluate.py:1326-1333 | a figure that lacks one need of a row under its key is misplaced by the run that lacks just that need |
| `FigureAccounting.LinesExact` | benchmarks/investigations/evaluate.py:1657-1665 | a figure has exactly one incomplete line if it did not run though asked for, was not measured, is or was judged without a result, or is a row 18 cell without a value, and none otherwise |
| `ClaimsRoundTrip.RoundTripIff` | scripts/check-doc-claims.py:145-202 | entries that can be written down read back as themselves if and only if no entry repeats a key or uses _line; otherwise they are refused for a duplicate key |
| `ClaimsRoundTrip.LineKeyRefused` | scripts/check-doc-claims.py:190-192 | an entry with a field named _line is refused whatever the form of the field |
| `GreedyPass.LowIff` | benchmarks/investigations/evaluate.py:1225-1235 | for every budget and number of fields, the low bound holds for all runs up to a length if and only if that length is within the share |
| `GreedyPass.OversizedRun` | benchmarks/investigations/evaluate.py:1229-1231 | a single run over the share is one group, below the low bound its pairs give |
| `Baseline.HashPathLost` | scripts/check_docs.py:943-945 | a finding on a path that starts with # is lost by a rewrite, and the gate then fails |
| `LogsWire.WrapsPastGreatest` | benchmarks/mcp-eval/fixture/gen.py:257-260 | one past the greatest signed 64-bit integer comes back as the least |
| `IndexPages.AttachIff` | crates/ravel-agents-core/src/pages.rs:616-640 | to a valid list exactly the page the directory names is attached |
| `IndexLife.LifeKept` | crates/ravel-agents-core/src/pages.rs:659-764 | over every run of appends at or above the lowest key still to come, removals, changes, page loads, seals and re-reads, a list stays valid, every entry in memory is at or above the first key of its page, and nothing is lost or gained |
| `EventsRoute.AnswerExact` | services/ravel-server/src/agents/routes.rs:542-571 | the answer is the next events of everyone or of one operation, in the order of the log and at most as many as asked for and as the cap, with the number of the last as cursor, and the state of an ended operation exactly when its events are drained |
| `EventsRoute.AnswerAll` | services/ravel-server/src/agents/routes.rs:542-571 | without an operation these are the next stretch of the numbered log |
| `EventsRoute.OperationContinues` | services/ravel-server/src/agents/routes.rs:546-571 | what is wanted after a cursor is the page and what is wanted after the page's cursor, and the page with the terminal state is the last |
| `EventsRoute.RouteAnswersIff` | services/ravel-server/src/agents/routes.rs:486-541 | the route answers if and only if the limit is positive, the operation if any is the agent's, and there is no cursor or one that reads as a number whose successor is still kept or to come |
| `AgentsClient.OutcomeErrors` | crates/ravel-agents-client/src/lib.rs:182-215 | an error outcome is the last reply's: lost, refused by 401 or 403, the agent's typed error with its status and body, or the status with at most 512 bytes of the body |
| `IndexLife.NumberedProper` | crates/ravel-agents-core/src/pages.rs:784-816 | inbox, receipts, events and timers, whose keys only rise, may be sealed without limit and still move as that theorem asks |
| `PendingInputs.RunKeeps` | crates/ravel-agents-core/src/pages.rs:22-29 | over every run of accepts, turns begun and retried, inputs settled, pages loaded, seals and re-reads, both lists stay sound, every number given out waits in the inbox or has a result and not both, and every number below the open results page is settled |
| `PendingInputs.FloorNeverFalls` | crates/ravel-agents-core/src/pages.rs:790-797 | the pending floor of a later point of a run is at or above that of an earlier one |
| `PendingInputs.ResultsAllowed` | crates/ravel-agents-core/src/pages.rs:798-804 | the result of an input in the inbox and a seal below the pending floor are moves the life of the results list allows |
| `CorpusNeedles.PlanCanEndIff` | benchmarks/investigations/gen_corpus.py:115-132 | the planner returns on some lawful random stream if and only if there are not 8,193 log rows |
| `CorpusLimits.RequestListsAlways` | benchmarks/investigations/gen_corpus.py:232-233 | for every accepted choice of arguments, the row lists recount on every run if and only if at most one trace shows request ids besides one whose only log is planted, counted over base and noise, or the needle planner never returns |
| `EventsHistory.PublishServes` | crates/ravel-agents-core/src/kernel.rs:1578-1587 | numbering new events on, sealing and publishing turns a root that holds a log, with any of its pages attached, into one that serves the longer log |
| `EventsHistory.LoadAllHolds` | crates/ravel-agents-core/src/pages.rs:616-640 | attaching any pages in any order changes nothing about what a root holds |
| `EventsHistory.RebuildUnchanged` | crates/ravel-agents-core/src/pages.rs:16-20 | sealing with the bound the pages were made with leaves every page as it is, attached or not |
| `EnvelopeLimits.NegativeReportWarns` | scripts/bench-s3-compare.py:134-167 | a complete report whose figures are all -1 is summarised, and the comparison with its own envelope warns about its first figure |
| `FigureSharing.StateNeeded` | benchmarks/investigations/evaluate.py:1394-1402 | a band file placed right on every run although a derived figure without a state does not need what another row under its key needs |
| `IndexSeal.BelowFirstKey` | crates/ravel-agents-core/src/pages.rs:506-517 | an entry below the first key of the first page is looked up there, but sealing it gives pages whose first keys descend |

## Left out

- Files, subprocesses, HTTP, JSON, TOML, Parquet and command lines: sinks are sequences, servers and measurements are functions, bodies come with the readings of them that succeed.
- Hexadecimal rendering of ids, request id text and message templates in the corpus: ids are numbers and a request id is the pair it is printed from.
- The row sets stored with saved traces, the erasure victim and the mapping files of the corpus: further records over the same rows.
- Seeding and the Mersenne Twister: a generator is any stream that meets the laws.
- Floating-point rounding: percentiles, bands and the fixed 2 % error chance are over the reals or are stream decisions; block counts use the exact rational with ties to even.
- The statement, stamp, fold, matrix and cost metrics and the verdict expressions of the evaluator: each is a function of the figure's id here.
- Splitting text into lines for the registry and the fence scanners, and the heading a prose line stands under: lines are the input.
- Python's Unicode classes: alphanumeric characters are a parameter of the comment blanker.
- The other rules of the documentation gate: regular expressions over prose, links and images.
- UTF-8 encoding of strings in the wire model: keys and values are byte strings there.
- Metrics and traces requests of the fixture: the same fields as the logs request.
- BLAKE3 itself and the fixed length of its digests.
- The agents client's routes other than send, resolve and events, and its time-outs.
- The agents kernel's transitions other than accepting, beginning, retrying and settling inputs and appending events; timers and receipts as such; page fingerprints, marks and byte counts of the index are not modelled.
- Object storage of index pages: a page's reference is its content, a lost or damaged object fails the read.
- 64-bit saturation of event numbers and keys: they are naturals, and histories stay below the bound.
- Looking up the operation a request names: it is an input of the events route.
- Python's equality of true and 1 when environments are compared.
- The order in which refusals with several causes are reported in an environment check.
- FigureAccounting.PlacedOnce: band files with spaces in ids or with one id twice are not covered, because a line's prefix then no longer identifies its figure.
- FigureSharing.PlacementIff: the converse asks that a derived figure under another row's key names a state, as every derived figure of the band file does; without it the converse is false (`StateNeeded`), and `PlacedIff` decides run by run.
- IndexSeal.SealKeeps: a list with a key below the first key of its first page is not covered, because sealing breaks it (`BelowFirstKey`) and no run comes to one (`LifeKept`).
