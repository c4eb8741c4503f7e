# parity-bench: a verified model of its instruments

parity-bench measures document pipelines against each other. Its numbers are only worth quoting if a handful of
instruments are right: the gates that refuse a run, the reconstruction of latencies from completion times, the log a
crashed run resumes from, the collector that attributes CPU to a process tree, the width and concurrency estimates,
the worker loop that claims documents, and the windowed metrics. This project models those instruments and proves
what their docstrings rest on, for all inputs and over all runs.

Time and CPU are integers (nanoseconds or ticks), pool width and upload times are `real`, digests are values with
equality only. What the network, the operating system, the clock, a PDF parser or a pipeline does is a parameter or a
nondeterministic step. Python exceptions are `Result.Err`, absent keys are `Option.None`. Protocols are step machines:
a run is a list of events, `Play`/`Run` gives the state it reaches, and a theorem speaks about every list of events.

| file | what it models |
|---|---|
| `Words`, `Duplication` | repetition of words; `repeat_factor`, `self_duplication`, `duplication_verdict` |
| `GateRecords`, `Census`, `Determinism` | the two census and determinism dialects, gate verdicts and suites |
| `Sorting`, `PerfRecords`, `Metrics`, `CostWindow` | stable sort, percentile, completion windows, throughput, cost windows |
| `Salvage`, `FifoPool` | `reconstruct`, and the FIFO pool whose admissions it recovers |
| `Json`, `JsonlStream`, `JsonlRuns` | JSON text, the append log, and its runs with kills at any byte |
| `Discovery`, `Collector`, `CollectorRecord` | the process-tree walk, CPU accounting across process deaths, and what the ticks leave behind |
| `CollectorProc` | the readiness and SIGTERM protocol between the harness and its collector process |
| `UploadTime`, `PoolWidth` | the upload-time classifier, and the escalating width measurement |
| `Dispatch` | C workers and a sampler on one index |
| `RunBlock` | the checkpointed block loop, killed and resumed |
| `Arith`, `MapSum`, `Seqs`, `Totals`, `Wrappers` | small arithmetic, the sum of a dict's values, sequences and their counts, `Option` and `Result` |

## Where a claim needs a condition

In these places what the code, its comments or its callers rely on holds under a condition only. Where the text says
"exactly", the lemma named is an equivalence; otherwise a lemma shows what suffices and others show inputs or runs
that fail.

- The log's module docstring lets a resumed run append to the file that survived, and
  `working/scripts/smoke50_parser_in.py:621-664` does so without a rewrite. That is safe exactly when the file is empty
  or ends in a newline (`JsonlRuns.ReopenSafeIff`): otherwise the next record is lost together with the one in the last
  line, even if that one lost only its newline, and any record behind them makes `read_completed` raise.
- `measure_width` is documented to raise rather than guess, but it need not end. With a measurement error of at most
  3/43 it always ends (`PoolWidth.MeasureToTheEnd`); for every larger one there is a pool on which it retries at
  `max_offered` for ever (`PoolWidth.NeverFinishes`).
- `reconstruct` is said to leave throughput alone. Behind a warm-up it does; without one it does exactly when nothing
  completed at all, or no completion precedes the batch open and some document is last submitted among the first C or
  completes at the batch open (`Salvage.ThroughputUnmovedIff`); a document recorded twice can break that.
- The collector's cumulative CPU is the sum of every process's last counter exactly when as much was counted twice as
  was lost (`Collector.ConservedIff`): where no pid was taken over unobserved from a process that had used anything,
  exactly when no such process came back after a failed sample, and where none came back, exactly when none was taken
  over (`Collector.ConservedApartIff`).
- Once `start` has spawned its child, `stop` is sure to tell the truth about that child exactly when, at the call of
  `start`, every earlier child still alive had opened its summary (`CollectorProc.StopIsTrueIff`). A `start` may also
  fail before it has a child; `stop` then repeats the cached answer or reads the file that lies there. All in all a
  `stop` can return data of an earlier run exactly when an earlier child has not opened its summary or such data is left
  over at the call of `start` (`CollectorProc.EarlierDataIff`).
- `run_block` checkpoints every `CKPT_EVERY` documents. A kill in its loop re-runs fewer than that in every run exactly
  when every document whose number is a multiple of the interval is processed (`RunBlock.LossIsBoundedIff`), because a
  parse fault or an empty extraction skips the test for the checkpoint; a list of empty extractions loses everything.
- The rows before the warm-up are cleared, so a sweep cell that reports its concurrency achieved looks as if it had
  reached C behind the warm-up. The report guarantees that the cell had C documents there exactly when it has
  `WARMUP + C` of them, or fewer than C and so can never be achieved (`Dispatch.AchievedMeansBehindIff`): in every
  other size a cell can be achieved during the warm-up alone, without a warm-up to leave or with the clear between the
  sampler's reading and its append (`Dispatch.AchievedWhateverBehind`).

## Model

| member | source | states |
|---|---|---|
| Words.RepeatsDivideExponent | working/harness/gates_shared.py:78-100 | any exact block repeat count of a word divides the largest one (the Fine and Wilf argument, on rotations) |
| Words.BlockIsPrimitive | working/harness/gates_shared.py:78-100 | the block left after dividing out the largest repeat count repeats nothing |
| Words.ExponentOfPower | working/harness/gates_shared.py:78-100 | repeating a word n times multiplies its largest repeat count by n |
| Duplication.RepeatFactorIsExponent | working/harness/gates_shared.py:78-100 | on a list without None the factor is the largest r for which the list is one block r times |
| Duplication.RepeatFactor | working/harness/gates_shared.py:78-100 | the counting-down loop with early return computes that factor; 1 for fewer than two chunks or a None digest |
| Duplication.RepeatsDivideFactor | working/harness/gates_shared.py:78-100 | every exact repeat divides the factor, and the factored-out block has factor 1 |
| Duplication.FactorOfEmission | working/harness/gates_shared.py:78-137 | the factor of a list emitted n times is n times the list's factor |
| Duplication.SelfDuplication | working/harness/gates_shared.py:103-137 | passes iff there is a successful row and no successful row's chunk list is an exact repeat; names each flagged document with its factor |
| Duplication.EmissionIsCaught | working/harness/gates_shared.py:103-137 | an n-fold emission (n >= 2) of a hashable document is flagged whatever the other rows are, with exactly n times its own factor if it is recorded once |
| Duplication.FlaggedDocIsReported | working/harness/gates_shared.py:103-137 | a flagged row's document is in the report, under its own factor unless a later row of it overwrites |
| Duplication.ReportedDocIsFlagged | working/harness/gates_shared.py:103-137 | nothing is reported that no row justifies |
| Duplication.DuplicationVerdict | working/harness/gates_shared.py:154-193 | the seen-set loop counts each digest's characters once; the verdict's flags follow from the two factors, and the character factor never understates the exact repeat |
| Duplication.KeptCountMeans | working/harness/gates_shared.py:171-180 | the distinct chunks are those without a digest and one for each digest |
| Duplication.KeptCharsMean | working/harness/gates_shared.py:171-180 | the unique characters are those of the first chunk of each digest and of the chunks without one |
| Duplication.CharsCoverRepeats | working/harness/gates_shared.py:154-193 | if equal digests have equal lengths, all characters are at least the factor times the unique ones |
| Duplication.MissingLengthsIff | working/harness/gates_shared.py:154-193 | with n lengths, at most one per chunk, the bound holds for all lengths iff the factor is 1 or every digest among the first n chunks occurs there at least factor times; the caller passes one length per chunk |
| Duplication.MissingLengthsBreakTheBound | working/harness/gates_shared.py:154-193 | an instance: half of the lengths of a list that repeats once |
| Census.ShashiPassesIff | working/harness/gates_shared.py:368-390 | passes iff the recorded names are a permutation of a non-empty manifest, each once, and silent empties are allowlisted |
| Census.ShashiReportMeans | working/harness/gates_shared.py:368-390 | each list of the report, name by name |
| Census.SameNamesOnce | working/harness/gates_shared.py:368-390 | equal counts, equal name sets and no duplicates are together the same as being a permutation |
| Census.GroupFailures | working/harness/gates_shared.py:257-286 | failed documents end up under their reason, in record order, and nowhere else |
| Census.CountUnexpected | working/harness/gates_shared.py:257-286 | filtering group by group counts no failure iff every failed row is an allowlisted empty |
| Census.LeelaCensus | working/harness/gates_shared.py:257-286 | the verdict of the grouped computation is the condition stated row by row; missing are the expected documents without a row, unexpected the recorded ones nobody expected, and records and silent make up the offered |
| Census.LeelaPassesIff | working/harness/gates_shared.py:257-286 | given the manifest and its size, a pass means the recorded documents are a permutation of it and every failure is allowlisted, and conversely |
| Census.LeelaPassMeans | working/harness/gates_shared.py:257-286 | told on the rows: as many as offered, no two of one document, each failure a documented empty of an expected document, and the expected documents where given |
| Census.FailuresMean | working/harness/gates_shared.py:257-286 | completed, each reason's count and the unexpected failures are the numbers of such rows, where a failure's reason is its non-empty reason, else its error class up to the first colon, else "unknown" |
| Census.CensusDialects | working/harness/gates_shared.py:257-390 | on the same records the two censuses differ only in failure reasons on one side and the empty manifest and silent empties on the other |
| Census.CountAloneMissesWrongDocuments | working/harness/gates_shared.py:257-286 | without a manifest the count accepts the wrong documents |
| Determinism.ShashiDeterminism | working/harness/gates_shared.py:428-452 | the three lists hold exactly the common documents whose digests agree, differ, or were never recorded; the pass condition |
| Determinism.DeterminismDialects | working/harness/gates_shared.py:329-452 | Leela passes iff Shashi passes on the same digest maps and both runs hold the same documents |
| Determinism.LeelaReportMeans | working/harness/gates_shared.py:329-339 | each list of the report, document by document |
| Determinism.LeelaPassMatchesEveryDocument | working/harness/gates_shared.py:329-339 | a pass gives every success on one side a success of the same document with equal recorded digests on the other |
| Determinism.DigestsHoldSuccesses | working/harness/gates_shared.py:329-339 | the digest map holds exactly the documents with a successful row, each with the digests of the last of them |
| Determinism.UnionCleanIff | working/harness/gates_shared.py:357-600 | a run is union-clean iff each suite ran something and every gate that ran in either passed |
| Determinism.SuiteMeans | working/harness/gates_shared.py:357-591 | a suite has no verdict iff no gate in it ran, and fails iff one that ran did not report exactly True |
| Determinism.UnionMeans | working/harness/gates_shared.py:553-600 | there is no union iff one of the suites ran nothing; otherwise it fails iff a gate that ran in either failed |
| Determinism.NotRunChangesNothing | working/harness/gates_shared.py:553-600 | a gate that did not run neither passes nor fails its suite |
| Metrics.PercentileRank | working/harness/metrics_shared.py:88-97 | the percentile is a recorded value v with at least p% of the values at most v and fewer than p% below it |
| Metrics.PercentileIsDetermined | working/harness/metrics_shared.py:88-97 | these two counts determine the value |
| Metrics.PercentileIgnoresOrder | working/harness/metrics_shared.py:88-97 | the order of the values does not matter |
| Metrics.PercentileIsMonotone | working/harness/metrics_shared.py:88-97 | a higher p gives no smaller value |
| Metrics.WindowIsSuffix | working/harness/metrics_shared.py:106-133 | the window is the completion order without its first k rows, k at least the warm-up, and equal to it iff there is no tie at the boundary |
| Totals.SortIsStable | working/harness/metrics_shared.py:106-108 | sorting by a key keeps the elements of one key in their order |
| Metrics.PercentileMeans | working/harness/metrics_shared.py:88-97 | told on the values as they come: there is a percentile iff p is a percentage and some value is a number; it is one of them, the least for p = 0, and by the two counts of places otherwise |
| Metrics.NoWindowIff | working/harness/metrics_shared.py:106-142 | throughput is an error iff no more rows completed than the warm-up takes, or there is no warm-up and no submit stamp |
| Metrics.ThroughputMeans | working/harness/metrics_shared.py:136-161 | documents, successes and chunks are counted over the rows completed behind the boundary, in whatever order they are listed; a rate times the span is its count, and there is none over an empty span |
| Metrics.SpanMeans | working/harness/metrics_shared.py:106-161 | the window opens at the completion of rank warm_n, or at the least submit stamp, and the span runs to the last completion of all |
| Metrics.WindowEnds | working/harness/metrics_shared.py:136-161 | t1 is the last completion behind the boundary, if there is one |
| Salvage.Reconstruct | working/scripts/blast_latency_salvage.py:75-87 | the appending loop raises iff a row cannot be modelled, and otherwise gives each row its modelled admission |
| Salvage.ModelledAdmission | working/scripts/blast_latency_salvage.py:75-87 | for any rows: the row whose document is last at place k in submission order is stamped with the least submit stamp if k < C, else with the completion of rank k - C or the last one, or with its own completion where that is earlier |
| Salvage.BatchOpenStaysIff | working/scripts/blast_latency_salvage.py:75-87 | the earliest submit stamp survives iff no completion precedes the batch open and somebody still starts at it |
| Salvage.ThroughputUnmovedIff | working/scripts/blast_latency_salvage.py:156-163 | reconstruction leaves throughput(rows, w) as it was iff w > 0, or nothing completed, or that condition holds |
| Salvage.ThroughputUnmoved | working/scripts/blast_latency_salvage.py:156-163 | in particular for every w when documents are recorded once, C >= 1 and no completion precedes the batch open |
| Salvage.RepeatedDocumentMovesThroughput | working/scripts/blast_latency_salvage.py:75-87 | a document recorded twice can move it |
| FifoPool.RunKeeps | working/scripts/blast_latency_salvage.py:14-21 | in every run of a C-permit FIFO pool the k-th admission (k >= C) is the (k-C)-th completion |
| FifoPool.ModelRecoversRun | working/scripts/blast_latency_salvage.py:75-87 | from the records in any order, reconstruct's sorted lists are the pool's enqueue order, completion instants and batch open |
| FifoPool.AdmissionsRecovered | working/scripts/blast_latency_salvage.py:14-87 | the modelled admission of every record is the pool's own (batch open for the first C), the clamp never fires, nothing else changes |
| FifoPool.ServedIsReconstructible | working/scripts/blast_latency_salvage.py:75-87 | reconstruct raises nothing on the records of a served run |
| FifoPool.AnyJobMayFinish | working/scripts/blast_latency_salvage.py:14-21 | in every state an admitted job may finish at that instant or any later one |
| FifoPool.EveryJobCanBeServed | working/scripts/blast_latency_salvage.py:14-21 | every run can go on until every job is served, so none of these speaks of nothing |
| FifoPool.ReconstructionFitsThePool | working/scripts/blast_latency_salvage.py:14-87 | at no instant are more than C reconstructed records in flight |
| CostWindow.CostTelescopesIff | working/harness/metrics_shared.py:231-252 | two neighbouring resolved windows: the wide one resolves, peak RSS is the greater, and CPU adds up iff the first window's last reading is the second's first |
| CostWindow.BoundaryReadingSuffices | working/harness/metrics_shared.py:231-252 | it is, if the boundary sample carries a reading |
| CostWindow.CostTelescopes | working/harness/metrics_shared.py:231-252 | a fully read series anchored at or before t0 and sampled inside both windows resolves all three and telescopes |
| CostWindow.MissingReadingLosesCost | working/harness/metrics_shared.py:231-252 | a boundary sample without a reading breaks the sum whenever the counter moved around it |
| CostWindow.CostIsNotNegative | working/harness/metrics_shared.py:231-252 | on a sorted series of a rising counter no window costs less than nothing |
| CostWindow.CostMeans | working/harness/metrics_shared.py:231-252 | for a series in any order: a window resolves iff its first reading (of the last sample up to t0 if it has one, else of the first inside) is not its last inside; its CPU is the difference of the two, its samples are those inside |
| CostWindow.PeakMeans | working/harness/metrics_shared.py:248-250 | its peak RSS is that of a sample inside and at least that of every other; there is none iff no sample inside has one |
| Json.RoundTrip | working/harness/jsonl_stream.py:65-95 | reading what was written gives the same value back (RFC 8259, sections 2 to 7) |
| Json.RoundTripIff | working/harness/jsonl_stream.py:65-95 | it gives it back exactly for the values whose numbers are spelled with number characters |
| Json.UnitsAreWritten | working/harness/jsonl_stream.py:65 | seven units are written as a letter, the other printable ones as themselves, the rest as a u and four lower-case digits (RFC 8259, section 7) |
| Json.EscapesRead | working/harness/jsonl_stream.py:94-95 | the eight letters behind a backslash and their units; no other but u reads (RFC 8259, section 7) |
| Json.DecodedIsBalanced | working/harness/jsonl_stream.py:94-95 | any text that reads ends outside every string and bracket |
| Json.TornNeverReads | working/harness/jsonl_stream.py:18-22 | no proper prefix of a record's text reads: objects are prefix-free (RFC 8259, section 4) |
| Json.GluedToCutNeverReads | working/harness/jsonl_stream.py:18-22 | a cut record with a whole one glued to it never reads, wherever the cut fell, inside a string or an escape included |
| Json.GluedToWholeNeverReads | working/harness/jsonl_stream.py:18-22 | two whole records on one line never read |
| JsonlStream.ReadCompleted | working/harness/jsonl_stream.py:81-102 | the two loops give the rows, the keys and the torn note of the stated fold, or its error: a bad line that is not last, or a key that cannot be kept |
| JsonlStream.LinesSplit | working/harness/jsonl_stream.py:88-91 | the lines make up the text: none holds a line break, each ends in one break or a return and its newline, the last perhaps in none |
| JsonlStream.GatherMeans | working/harness/jsonl_stream.py:88-101 | the rows are what the non-blank lines decode to, in order; a line that does not decode is corruption in front of the last and a torn note at the end |
| JsonlStream.CompletedKeysAre | working/harness/jsonl_stream.py:102 | a value is completed iff some kept row pairs the key with it and has no later pair of that key; rows without the key add nothing; reading raises on the keys iff such a value is a list or a dict |
| JsonlStream.TailedFileReads | working/harness/jsonl_stream.py:81-102 | whole lines and a cut last one read back as exactly the records whose text is whole, in order, with a note iff one is torn; it raises iff a kept key is a list or a dict |
| JsonlStream.AppendToTailLoses | working/harness/jsonl_stream.py:57-71 | a record appended behind a cut line is lost, and with it one that lacked only its newline |
| JsonlStream.AppendMoreRaises | working/harness/jsonl_stream.py:81-102 | with anything behind them reading raises |
| JsonlStream.LogFile.RewriteAtomically | working/harness/jsonl_stream.py:105-115 | the path goes from its old content straight to exactly the rows' lines, every byte of them synced before the rename, and no temporary is left |
| JsonlStream.JsonlWriter.Enter | working/harness/jsonl_stream.py:57-61 | opening keeps what survived |
| JsonlStream.JsonlWriter.Write | working/harness/jsonl_stream.py:63-71 | one whole line is added to what was there, every fsync_every-th one synced; outside the context manager nothing happens |
| JsonlStream.JsonlWriter.Exit | working/harness/jsonl_stream.py:73-78 | closing syncs the whole file |
| JsonlRuns.ReadIsExact | working/harness/jsonl_stream.py:1-115 | over every run of locked writes by any threads, kills at any byte, rewrites and reopenings behind a rewrite, reading returns exactly the rows whose text reached the file whole, in file order |
| JsonlRuns.CompletedAreExact | working/harness/jsonl_stream.py:81-102 | over every such run the completed keys are those of the rows written whole |
| JsonlRuns.KillLosesNothing | working/harness/jsonl_stream.py:57-71 | whenever it comes in such a run, a kill leaves the file and the complete rows as they are |
| JsonlRuns.LockExcludes | working/harness/jsonl_stream.py:63-71 | while one thread writes its line no other can write, end or begin one, nor the log be closed |
| JsonlRuns.RewriteResumes | working/harness/jsonl_stream.py:57-115 | every careful run that is down can go on with the complete rows rewritten and the file open again, with no tail left |
| JsonlRuns.EndsCleanIff | working/harness/jsonl_stream.py:57-71 | behind every careful run that is down, a kill left a tail iff the file is not empty and does not end in a newline |
| JsonlRuns.TailIsReachable | working/harness/jsonl_stream.py:63-71 | any front of a line can be what a kill leaves |
| JsonlRuns.ReopenSafeIff | working/harness/jsonl_stream.py:13-22 | reopening without a rewrite and writing a row keeps everything readable iff the file is empty or ends in a newline, that is iff no kill left a tail |
| Discovery.Index | working/harness/collector.py:315-322 | the loop's index maps every ppid to its children in scan order |
| Discovery.WalkRole | working/harness/collector.py:324-344 | the explicit-stack walk ends on every table, cycles included, with the old pids and exactly those reachable from the roots through tracked or resolvable pids |
| Discovery.TreeCollector.Discover | working/harness/collector.py:300-344 | a cycle refreshes every role so and leaves a role whose pid source raised alone; within the interval of an earlier cycle, and only then, nothing changes |
| Collector.RoleAggregate.ObserveTracked | working/harness/collector.py:377-390 | the first loop records every successful sample, sums the gauges, and tells the dead from the kept in tracking order |
| Collector.RoleAggregate.RetireDead | working/harness/collector.py:391-399 | the second loop moves the last counters of every dead pid with a live entry to the retired ones |
| Collector.RoleAggregate.SampleTick | working/harness/collector.py:363-417 | a tick is those two, then the six gauges' peaks, the process peak, the RSS series, and an event iff a ceiling is set and the sum is above it |
| Collector.NextIsTicked | working/harness/collector.py:363-412 | the aggregate in a run of ticks is what that method makes of it |
| CollectorRecord.PeaksMean | working/harness/collector.py:369-411 | over every run of ticks each of the six peaks is at least the sum of its gauge over the samples of every tick, and is one of those sums, or 0 |
| CollectorRecord.ProcessPeakMeans | working/harness/collector.py:369-411 | and the process peak is the greatest number of tracked processes sampled in one tick |
| CollectorRecord.LiveMeans | working/harness/collector.py:374-399 | the live entries are exactly the last tick's samples of the pids found or alive before |
| CollectorRecord.SeenMeans | working/harness/collector.py:383 | a pid was seen iff it was alive in some tick |
| CollectorRecord.SeriesMeans | working/harness/collector.py:402-412 | every tick counts as a sample and appends its instant and RSS sum |
| CollectorRecord.EventsMean | working/harness/collector.py:414-418 | the ceiling events are those of the ticks with a ceiling and an RSS sum above it, in order |
| Collector.RunBalances | working/harness/collector.py:171-178 | over every run of ticks: reported total plus counters lost to pid reuse equals the last counters of every process ever sampled plus what came back after a failed sample |
| Collector.CpuIsUserAndSystem | working/harness/collector.py:171-173 | the CPU total is the user total and the system total, which balance each on their own |
| Collector.ConservedIff | working/harness/collector.py:171-178 | the total is the sum of last counters iff as much came back as was lost |
| Collector.ConservedApartIff | working/harness/collector.py:377-399 | where no pid passed from a process that had used anything, the total is exact iff no such process came back after a failed sample; where none came back, iff no pid passed so |
| Collector.LossesAre | working/harness/collector.py:377-399 | nothing is lost, or counted twice, iff in no tick a pid passed, or a process came back, that had used anything |
| Collector.CpuIsConserved | working/harness/collector.py:363-399 | it is, when a failed sample means an exit and no pid is reused unobserved, for CPU and both context-switch totals |
| Collector.OneSampleTracks | working/harness/collector.py:377-390 | the worlds the next two rows start from are reachable |
| Collector.FailedSampleCountsTwice | working/harness/collector.py:391-399 | one failed sample of a living process counts its CPU twice |
| Collector.ReuseLosesCpu | working/harness/collector.py:377-399 | a pid taken over unobserved loses its former process's CPU, and the total can fall |
| Collector.TotalRises | working/harness/collector.py:171-178 | without such reuse the reported total never decreases from tick to tick |
| Collector.CollectedCostIsNotNegative | working/harness/metrics_shared.py:191-252 | a cost window fed by the collector's ticks is never negative |
| CollectorProc.StartMeansReady | working/harness/collector_proc.py:68-169 | in every interleaving start returns only after its own child armed its handlers, began sampling and published readiness |
| CollectorProc.ArmedSurvivesTerm | working/harness/collector_proc.py:68-82 | SIGTERM ends a living child iff it is still booting; once its handlers are armed it tells the child to stop and nothing else |
| CollectorProc.LeavesOnlyWhenTold | working/harness/collector_proc.py:70-89 | in every interleaving a child past its loop was told to stop, and nothing but a SIGTERM tells it |
| CollectorProc.RaisedMeansDead | working/harness/collector_proc.py:159-169 | in every interleaving a start that got its child and raised left it dead |
| CollectorProc.StartNoticesDeath | working/harness/collector_proc.py:159-166 | a start whose child died before it was ready raises at its next look |
| CollectorProc.StopTellsTheTruth | working/harness/collector_proc.py:171-194 | in every run in which the last child's start found the earlier children settled: stop's data is the complete summary of the last child spawned; when the latest start spawned it, data is returned iff that child wrote it all, "unparseable" iff it had only opened it, "no summary" iff it had not, and an error means it was killed outright or by SIGTERM while booting |
| CollectorProc.SessionEnds | working/harness/collector_proc.py:123-194 | after such a start returned, whatever SIGTERMs come, stop returns this child's summary or an error because it was killed outright |
| CollectorProc.UndisturbedSession | working/harness/collector_proc.py:68-194 | after start returned with its child in its loop, stop can return its data without anything being killed or timing out |
| CollectorProc.FailedStartReplays | working/harness/collector_proc.py:171-173 | after any stop, a start that fails before spawning and another stop give the same answer again |
| CollectorProc.UnspawnedStopReplays | working/harness/collector_proc.py:171-173 | with the handle empty, every later stop of a start that never spawns repeats the cached answer, however the run goes on |
| CollectorProc.EarlierDataIff | working/harness/collector_proc.py:130-194 | from every reachable state between calls: some continuation of a start called now ends in a stop with an earlier run's data iff a living earlier child has not opened its summary, or data is left over: cached with the handle empty, else in the summary file or still to be completed there |
| CollectorProc.OverlapReturnsForeignData | working/harness/collector_proc.py:130-194 | from every reachable state between calls with an earlier child in its loop or leaving it, start can return and stop then return that child's data as this run's |
| CollectorProc.OverlapIsReachable | working/harness/collector_proc.py:130-169 | such a state is there as soon as a first start has returned |
| CollectorProc.StopIsTrueIff | working/harness/collector_proc.py:130-194 | whatever happened before, every continuation of a start called now in which it gets its child tells the truth about that child iff every earlier child still alive has opened its summary |
| UploadTime.ClassifyUploadTime | working/scripts/exp_batched_blast.py:145-193 | the two-step loop answers with the first scale that fits a reading, and divides by zero iff a value is left to classify and the wall time is zero |
| UploadTime.VerdictMeans | working/scripts/exp_batched_blast.py:164-193 | the verdict told from the greatest and the total of the values not negative: within a tenth of the wall and the pool they are durations, between half and 1.1 of the wall offsets; seconds first, then thousandths of them |
| UploadTime.WorkIsBounded | working/scripts/exp_batched_blast.py:145-193 | intervals never more than n deep have total length at most n times the stretch (double counting over interval ends) |
| UploadTime.DurationsAreRecognised | working/scripts/exp_batched_blast.py:145-193 | the durations of a real batch are answered "duration", or "ambiguous" iff some file ran at least half of it |
| UploadTime.OffsetsAreNotDurations | working/scripts/exp_batched_blast.py:145-193 | completion offsets whose last is the wall time are answered "offset" iff they sum to more than the pool could be busy, else "ambiguous" |
| UploadTime.PublishedConcurrencyIsPossible | working/scripts/exp_batched_blast.py:426-431 | any published concurrency is at most 1.1 times the threads |
| UploadTime.RealConcurrencyFitsThePool | working/scripts/exp_batched_blast.py:426-431 | for a real batch it is at most the threads, and is published iff no file ran half of the batch |
| PoolWidth.MeasureWidth | working/handoff/pool_width.py:54-109 | after any number of rounds the loop has returned, raised or is still running as stated, with its trace, spread and settings |
| PoolWidth.MeasureToTheEnd | working/handoff/pool_width.py:54-109 | with e <= 3/43 the source's own loop, without a bound on the rounds, ends with the outcome of every long enough run |
| PoolWidth.MedianIsDetermined | working/handoff/pool_width.py:74-97 | a number is the median iff it is the mean of two readings, of which at least half of all are at most the lower and at least half at least the upper, and more than half at least the lower and at most the upper |
| PoolWidth.TraceMeans | working/handoff/pool_width.py:68-109 | in every run each row of the trace holds the measurements taken next and their median, spread, tracking or drift by those definitions; each level is the first, twice a level that tracks, or what an unstable confirmation offered; a returned width is the mean of a level that does not track and its stable confirmation at twice the offer, or at the maximum; it raises only for a short hold, for want of readings, or past the maximum |
| PoolWidth.ReturnedWidthIsTrue | working/handoff/pool_width.py:54-101 | with measurements within e <= 0.15 a returned width is within e of the pool's and below the offered value, which exceeded the pool |
| PoolWidth.EscapeReturns | working/handoff/pool_width.py:82-101 | with e <= 3/43 the first escape from tracking returns |
| PoolWidth.MeasurementEnds | working/handoff/pool_width.py:72-109 | then the loop has ended after max_offered + 1 rounds |
| PoolWidth.NarrowPoolIsMeasured | working/handoff/pool_width.py:72-109 | and a pool clearly narrower than half of max_offered is measured, never refused |
| PoolWidth.NeverFinishes | working/handoff/pool_width.py:85-96 | for every e above 3/43, however large, some pool measured within e keeps the loop running for ever |
| Dispatch.EveryMoment | matched_layers_sweep.py:153-349 | in every interleaving, in-flight is at most C and at most the documents not done, no index is sent twice or out of range, and the rows are cleared once the warm-up ends |
| Dispatch.AtTheEnd | matched_layers_sweep.py:274-307 | when the workers have returned every index was sent exactly once, done is docs, the next index docs + C, in-flight 0, and the clear happened iff docs reached the warm-up |
| Dispatch.SuccessesCounted | matched_layers_sweep.py:286-299 | at every moment the success counter is the number of sends that succeeded |
| Dispatch.CellLength | matched_layers_sweep.py:278-299 | worker steps taken and left are 4 * docs + C at every moment, and a finished cell is exactly that long |
| Dispatch.SomeoneCanStep | matched_layers_sweep.py:278-299 | there is no deadlock |
| Dispatch.AchievedMeansExactly | matched_layers_sweep.py:234-422 | a cell is reported as achieved iff on both arms the sampler read exactly C in flight; it then had at least C documents, and if it had the warm-up's documents C behind them, unless on both arms the clear fell between the sampler's read and its append |
| Dispatch.AchievedWhateverBehind | matched_layers_sweep.py:218-422 | every cell with at least C documents has a run that sees C in flight before any is done |
| Dispatch.AchievedMeansBehindIff | matched_layers_sweep.py:218-422 | all achieved cells of a size had C documents behind the warm-up iff the size is below C or at least WARMUP + C |
| Dispatch.ClearBetweenLeavesReading | matched_layers_sweep.py:218-227 | an instance with one worker: a cell of WARMUP documents reports a reading of the warm-up |
| RunBlock.Block.Run | matched_replication.py:169-248 | one call continues the file's counts over the remaining documents, writes the due checkpoints in order and then the result, and leaves a trustworthy file trustworthy |
| RunBlock.SavesAreDue | matched_replication.py:228-231 | continuing an exact account, the checkpoints written are exactly the due ones, each an exact account of its prefix |
| RunBlock.KillsDoNotShow | matched_replication.py:169-248 | killed and resumed any number of times, torn writes included, a block that returns has the counts of one uninterrupted pass, and every readable checkpoint accounts for exactly the documents before next |
| RunBlock.RunsCanFinish | matched_replication.py:169-248 | and however it was killed, it can be resumed and run to its end |
| RunBlock.UnfinishedCheckpointsAreDue | matched_replication.py:198-231 | an unfinished checkpoint stands behind a processed document whose number is a multiple of the interval |
| RunBlock.LostSinceLastDue | matched_replication.py:190-231 | in every run a kill in the loop re-runs exactly the documents since the last due checkpoint, or none once the block is finished |
| RunBlock.LossIsBoundedIff | matched_replication.py:198-231 | that is less than one interval in every run iff every document at a multiple of the interval is processed |
| RunBlock.SkippedCheckpointLoses | matched_replication.py:198-231 | each such document that is not processed gives a run that loses at least one interval |
| RunBlock.EmptiesLoseEverything | matched_replication.py:206-209 | on n empty extractions a kill can lose all n |
| RunBlock.TornRestartsFromZero | matched_replication.py:176-181 | a kill during a write restarts the block from zero |
| RunBlock.PassBalances | matched_replication.py:198-223 | goodput and all faults together count every document once |
| RunBlock.CountersMean | matched_replication.py:198-223 | goodput is the number of good documents, chunks the sum of their chunk counts, content_suspect the number of suspects among the processed |
| RunBlock.FaultsMean | matched_replication.py:198-223 | a fault is a key iff some document ended in it (a parse fault under its "parse:" kind, a blank text under "empty_extraction", else its attempt's kind), and counts those documents |

## Left out

- Display rounding everywhere, the lists cut to fifteen names, and the order in which reports list names.
- The structure, vector and norm checks of the gates, parity of configurations, provenance and content checks.
- `latency`, `derive_side`, `stamp_convention` and the printing of reports.
- Percentiles for a fractional p; the code is called with whole ones.
- RocketRide, HTTP clients, asyncio transport, docker, psutil and cgroup reads, wall clocks: only what they return or when they act.
- The cgroup readings of a tick, and the terminating of a role above an enforced ceiling beyond the failed samples it leads to.
- The system sampler, the heartbeats, and the tick file itself.
- The rows of other roles and kinds that `series_from_role_ticks` skips, and lines of the tick file that do not parse.
- CollectorProc.StopTellsTheTruth: assumes that the last child's start found the earlier children settled, because otherwise it is false (CollectorProc.StopIsTrueIff). SIGKILL takes effect at once, and the parent never fails to reap.
- `Inflight`, the workers' shared dicts, the writer's lock and the handle's `_proc` and `_summary` are fields of step machines, one step for each change another party can see.
- The samples file of the collector process, its stderr text, and how long start and stop wait.
- JsonlRuns.ReadIsExact: a file that another process writes is not modelled, nor power loss beyond what `synced` says.
- Of JSON, `NaN` and infinities, lone surrogates outside escapes, and the grammar inside a number literal; the reader accepts any run of number characters, and duplicate keys are kept as pairs.
- That Python holds `1`, `1.0` and `True` equal as keys: completed keys are told apart as JSON values.
- Decoding errors of the log's bytes: its text is printable ASCII (Json.WritePrints).
- PoolWidth.MeasureWidth: takes a bound on the rounds, because without a bound on the error the source's loop need not end; the theorems hold for every bound.
- FifoPool.AdmissionsRecovered: assumes what the docstring states, all jobs enqueued before the first completion at distinct rising instants, and distinct documents.
- Of `run_block`, RSS, elapsed time and the statistics over them; the checkpoint's own I/O errors.
- The ten-minute transport timeouts of the sweep: a failed send counts as done like any other.
- `weekend_worker.py`, the fault score functions, `working/handoff/tree_collector.py` (a near copy of the collector) and everything under `archive/`.
