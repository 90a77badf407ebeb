# Models of the repository's stateful scripts

This project models the parts of the repository whose meaning is fully visible in the source and that carry
state or branch the most, and proves what they are for. It verifies with `dafny verify dfyconfig.toml`
(Dafny 4.11). Nothing was executed: every statement below is a theorem about the model.

How each source file is modelled:

- **Local-first gate** (`scripts/local-first-gate.ts`). `GateSpec` says what the gate reports as one list of
  events; a failure, a known item and a warning are projections of it. `GateRun` is the script's run: loops that
  push into shared lists, each proved to append exactly the specified events. `GateMeaning` proves that the gate
  passes exactly when a declarative policy holds, `GateReport` exactly what a run reports, `GateWording` and
  `GateLiveness` how the policy differs from the script's own words, `GateWaivers` what waivers and dates can change,
  `GateWarnings` when a waiver is reported as no longer needed, and `InstallScan` the line scanner with its comment
  state.
- **Resumable benchmark runs** (`benchmarks/run-store.ts`, `benchmarks/runner.ts`). `RunStore` logs every
  primitive file operation, including the torn state of a file being written, so a crash is any prefix of the log.
  `Runner` is the resume loop, `CrashResume` the safety over every history of runs and crashes, `Scores` the
  aggregation and the whole runner end to end.
- **Framing** (`scripts/test-ws-client.ts`, `scripts/durable-continue-demo.ts`, `bin/debug.ts`): `Mailbox`,
  `LineSplitter` and `FileTail` are state machines over every interleaving, chunking or read pattern.
- **Ledger repair** (`scripts/repair-table-ledger.ts`, judged by `packages/goal/ledger.ts`): `TableLedger`.
- **Nightly training** (`scripts/nightly-train.ts`): `Controller` and `TrainingPairs`.
- **Algorithms**: `WipeDetection` and `GridCompare` (`scripts/permissions-grid.ts`), `BundleVersions`
  (`scripts/check-bundle-versions.ts`), `Sampler` (`scripts/judge-vs-proxy-rater.ts`), `PrefixCache`
  (`scripts/affinity-replay.ts`), `ResearchScraper` (`scripts/research-scraper.ts`).
- `Seqs`, `Text`, `MapSums` and `Dates` hold the shared vocabulary: flat maps, the source language's string
  operations written out, sums over maps, and string order on dates.

Regular expressions, hashing, semver matching, lower-casing of arbitrary text, the benchmark oracle and the
permission policy are function values about which nothing is assumed unless a lemma says so.

## What the code does that its words do not say

- The gate's header lists eight rules. A gate that fails is always right by them, but one that passes need not be:
  only the first entry that claims a host is asked about its `files`; a broken guard of a sink whose patterns are not
  found is let through (with no patterns, when its file is gone); a default install site is not asked for a waiver
  once its file has no install text left, which the gate's own tests expect; only a file's first pin counts.
  `GateWording.GateMeetsHeader` states exactly when the header holds, with an input for each way.
- A comment in the guard rule says a missing guard is "not a pass for a live sink". The code does not look at hosts to
  decide whether a sink is live. `GateLiveness.GateMeetsLiveness` states exactly when the verdict is that reading's,
  for the guard rule alone.
- The ledger repair keeps whatever genesis hash the first entry carries and never checks signatures, while
  `Ledger.verify` starts from the fixed zero hash. `TableLedger.RepairVerifies` states exactly when a repaired
  ledger passes. An empty ledger makes the script throw; the model returns no ledger.
- The log follower counts lines, so a line read half written is never printed in full
  (`FileTail.HalfLineIsLost`); `FileTail.ExactlyOnce` states exactly which read histories are safe.
- A benchmark with the id `_run` saves its result over the header, and no later run can resume
  (`CrashResume.HeaderIdSpoilsResume`). The crash results are stated for lists without it.
- A benchmark list that repeats an id executes it again although its result is already on disk;
  `CrashResume.NoReexecution` states exactly when that happens.
- `resolveDep` is described as Node's resolution; unlike Node it also looks for `node_modules` inside a directory
  that is itself called `node_modules`. `BundleVersions.ResolveIsNodes` states exactly when that matters.

## Model

| member | source | states |
|---|---|---|
| GateMeaning.GateMeansPolicy | scripts/local-first-gate.ts:150-341 | no failures if and only if the policy holds: every host's first matching entry exists and lists the file, every pattern hit is in a listed file, every default sink and broken guard is covered by a waiver, unmarked install text is on a listed file within its pin and waived on default paths, tag readers are filtered or reviewed, no unguarded serve |
| GateWording.GateMeetsHeader | scripts/local-first-gate.ts:5-15 | the eight rules of the header (pins and skipped paths as the list's comments have them, 5 and 6 as coded) hold if and only if the gate passes and none of these is there: a spelled host that a later entry also claims, with `files` that omit the path; an unwaived guard gone from an entry none of whose patterns is found (without patterns: its file gone too); an unwaived default site that is not in use; a second listing of a file with a smaller pin. So a failing gate is always right by the header |
| GateWording.ShadowExample | scripts/local-first-gate.ts:184-199 | two entries claim one host, the second from other files only: the gate passes against rule 2 |
| GateWording.IdleSiteExample | scripts/local-first-gate.ts:272-280 | a default site without a waiver whose files have no install text left passes against rule 8 |
| GateWording.SecondPinExample | scripts/local-first-gate.ts:273-296 | a file listed twice that exceeds only its second pin passes |
| GateLiveness.GateMeetsLiveness | scripts/local-first-gate.ts:216-254 | for the guard rule alone, read by the comment "not a pass for a live sink" (line 223), live meaning a pattern found or a host spelled: a passing gate meets it if and only if no unwaived guard is let through (its sink reached by a host and by no pattern, and its file missing or the sink's patterns listed); verdict and reading agree if and only if another rule fails, or an unwaived guard is broken either way, or guards let through and guards held back (no patterns, no host reached, text gone) occur together or not at all |
| GateLiveness.HeaderIsStricter | scripts/local-first-gate.ts:5-15 | where the header's rules hold, the gate passes and the liveness reading holds |
| GateLiveness.GuardRuleGapExample | scripts/local-first-gate.ts:220-237 | a host-only entry with a deleted guard file and no waiver passes although its host is reached, against the header and the comment |
| GateLiveness.GuardTextGapExample | scripts/local-first-gate.ts:238-246 | an entry whose patterns are not found and whose guard text is gone passes although its host is reached, against both |
| GateLiveness.HeldBackExample | scripts/local-first-gate.ts:238-253 | a host-only entry whose guard text is gone fails although nothing reaches it, as the header says and the liveness reading does not |
| GateMeaning.HostPatternMeaning | scripts/local-first-gate.ts:92-94 | a `*.` pattern claims exactly the hosts ending in its dotted suffix, any other pattern only itself |
| GateMeaning.PathCoversMeaning | scripts/local-first-gate.ts:96-99 | a listed directory covers exactly the files under it, a listed file only itself |
| GateMeaning.HostsOfMember | scripts/local-first-gate.ts:102-109 | a host is listed if and only if some URL token names it after lower-casing and dot stripping and it is not this machine |
| GateMeaning.HostsDistinct | scripts/local-first-gate.ts:102-109 | each host is listed once, and the hosts of any prefix of the URL tokens come first |
| GateMeaning.HostNameMeaning | scripts/local-first-gate.ts:105 | a host's name is its token letter by letter in lower case without its trailing dots, and nothing else is changed |
| GateMeaning.ClaimsMeaning | scripts/local-first-gate.ts:92-94 | an entry claims a host if and only if some listed name equals it or some `*.` pattern's dotted suffix ends it |
| GateMeaning.AllowedMeaning | scripts/local-first-gate.ts:96-99 | without a list every file is allowed; with one, exactly the listed files and those below a listed directory |
| GateMeaning.IssueRefMeaning | scripts/local-first-gate.ts:163 | a waiver's reference counts if and only if a hash sign with a digit after it occurs in it |
| GateReport.EventsExact | scripts/local-first-gate.ts:180-338 | everything a run says, and nothing else: each finding and warning under its condition on the file texts, entries, sites and reviews (unneeded waivers apart) |
| GateReport.FailuresExact | scripts/local-first-gate.ts:160-178 | a finding is on the failing list if and only if it is found and cannot be settled, or is the complaint of a found one whose own waiver does not stand |
| GateReport.WaivedExact | scripts/local-first-gate.ts:160-178 | a finding is known if and only if it is found and its own entry's waiver stands |
| GateReport.WarningsExact | scripts/local-first-gate.ts:216-338 | each warning is given if and only if its condition holds: guard file gone or guard not needed on an unreached entry, host nowhere spelled, site without or below its pin of install text, review no longer read |
| GateReport.FindingsByRule | scripts/local-first-gate.ts:180-334 | a path is reported for rule 1, 5, 6 or 7 if and only if a file there spells an unclaimed host, reads the model list unfiltered and unreviewed, starts the daemon without turning cloud models off, or has install text beyond its site's pin |
| GateReport.SaidOnce | scripts/local-first-gate.ts:180-338 | nothing is said twice of one host, entry, guard, review or file under one rule |
| GateRun.HostList | scripts/local-first-gate.ts:102-109 | the Set-filling loop yields the distinct non-local hosts in order of first appearance |
| GateRun.Run.Settle | scripts/local-first-gate.ts:160-178 | appends the finding to exactly one list: failing, failing as a waiver complaint, or known |
| GateRun.Run.CheckReach | scripts/local-first-gate.ts:181-213 | hosts and patterns of one file add exactly the specified events and the hosts seen |
| GateRun.Run.CheckGuard | scripts/local-first-gate.ts:220-254 | one guard fails, warns or passes by its file, its match and whether the sink is live |
| GateRun.Run.CheckSink | scripts/local-first-gate.ts:216-267 | default mode, guards, unneeded waiver and unseen hosts of one entry, in order |
| GateRun.Run.CheckInstalls | scripts/local-first-gate.ts:270-308 | one file's unmarked install lines against the first listed site, its pin and its mode |
| GateRun.Run.CheckOllama | scripts/local-first-gate.ts:311-334 | the model-list reader rule and the daemon rule for one file |
| GateRun.Run.Execute | scripts/local-first-gate.ts:150-341 | the three result lists of a whole run are exactly the specified ones |
| GateWaivers.RaisesHeld | scripts/local-first-gate.ts:160-178 | every finding is settled by the waiver of its own entry: the sink it names, or its file's install site; other rules' findings by none |
| GateWaivers.WaiverConservation | scripts/local-first-gate.ts:160-178 | findings without waivers are an order-preserving one-to-one merge of the waived findings and the failing ones with them, where a finding fails as itself or as the complaint about its own entry's waiver; so the counts add up |
| GateWaivers.SameRaises | scripts/local-first-gate.ts:150-341 | neither ignoring waivers nor the date changes what is found, only how it is settled |
| GateWaivers.DateOnlyExpires | scripts/local-first-gate.ts:170-176 | between two days every finding fails on both, is waived on both, or has a waiver that ran out in between and moves, in its place, from the waived list to the failing one as the complaint about its own entry; these fates in order spell out all four lists |
| GateWaivers.LaterDayCounts | scripts/local-first-gate.ts:170-176 | on a later day earlier failures stay, the waived list only shrinks, both keep their order, and the total is unchanged |
| GateWaivers.CoversByCalendar | scripts/local-first-gate.ts:160-178 | a waiver covers if and only if waivers are on, it has an issue reference and a full date, and that date is not earlier than today by the calendar |
| Dates.StringOrderIsCalendarOrder | scripts/local-first-gate.ts:163-170 | comparing two full dates as strings is comparing year, month and day |
| Dates.FullDateMeaning | scripts/local-first-gate.ts:163 | a full date is four, two and two decimal digits with hyphens between them |
| GateWarnings.WaiverReportExact | scripts/local-first-gate.ts:255-262 | with distinct ids, none of them `install:` and a file's path, a waiver, expired or not, is reported as unneeded if and only if waivers are on and no failing or waived finding of the whole run names its entry |
| InstallScan.InstallLines | scripts/local-first-gate.ts:116-147 | the loop with its carried comment state yields exactly the scan of the split text |
| InstallScan.ScanExact | scripts/local-first-gate.ts:116-147 | a line number is reported if and only if that line is unmarked install code under the comment state its prefix leaves |
| InstallScan.TextExact | scripts/local-first-gate.ts:116-147 | the same for a whole text and its 1-based line numbers |
| InstallScan.HitsAreLines | scripts/local-first-gate.ts:144 | reports come in line order, one for a line, each with its line's excerpt |
| InstallScan.ExcerptMeaning | scripts/local-first-gate.ts:144 | an excerpt is the line without its outer white space, cut to 100 characters |
| InstallScan.ScanConcat | scripts/local-first-gate.ts:116-147 | scanning composes over concatenation when comment state and previous line are carried |
| InstallScan.MarkerInsertion | scripts/local-first-gate.ts:141-144 | a marker comment inserted above any line removes exactly that line's report and shifts later numbers by one |
| InstallScan.BlockEnds | scripts/local-first-gate.ts:122-126 | a block ends at its first closing mark and only the text after it is code |
| InstallScan.OutsideForms | scripts/local-first-gate.ts:127-138 | outside a block, whatever the indent: `//` hides the line, an unclosed `/*` opens a block, anything else is code |
| InstallScan.OneLineComment | scripts/local-first-gate.ts:130-136 | a block comment closing on its own line leaves the text after its mark as code and no block open |
| InstallScan.OneLineCommentScan | scripts/local-first-gate.ts:130-144 | such a line is reported if and only if what follows the mark is unmarked install text, and the lines below are scanned outside a comment |
| InstallScan.PlainLineScan | scripts/local-first-gate.ts:139-144 | a line of code is reported if and only if it is install text, not this program's own, with no marker on it or in a comment above it |
| InstallScan.BlockEndScan | scripts/local-first-gate.ts:122-144 | the same for what follows the mark that ends a block |
| InstallScan.BlockIsSilent | scripts/local-first-gate.ts:122-126 | nothing is reported from inside a block comment, over any number of lines |
| InstallScan.BlockCommentIsSilent | scripts/local-first-gate.ts:120-138 | a whole block comment of any length reports at most what follows its closing mark, and leaves the reader outside a comment |
| RunStore.Store.WriteAtomic | benchmarks/run-store.ts:54-58 | performs exactly the three logged operations: torn temp, complete temp, rename |
| RunStore.Store.OpenRun | benchmarks/run-store.ts:22-37 | refuses exactly on a different recorded header, writes the header only when there is none |
| RunStore.Store.LoadDone | benchmarks/run-store.ts:43-52 | reads exactly the item files, keyed by the id inside; fails if and only if one does not parse, and learns nothing from one that parses without being a result |
| RunStore.WriteIsAtomic | benchmarks/run-store.ts:54-58 | after any prefix of an atomic write every name that is read is as before, or the file is complete |
| RunStore.TempNeverRead | benchmarks/run-store.ts:46-48 | no temp name is ever the header or an item name |
| RunStore.TempNamesDiffer | benchmarks/run-store.ts:55 | two processes never use one temp name for a file; it ends in the decimal digits of the process |
| RunStore.ItemNameMeaning | benchmarks/run-store.ts:40-47 | the names read as items are exactly an id other than `_run` with `.json` |
| Runner.RunBenchmarks | benchmarks/runner.ts:384-473 | from any directory: refuses if and only if the header differs, stops if and only if an item file does not parse, and otherwise reports a loaded result or its own for each benchmark in order and performs exactly the specified operations |
| Runner.LoadedIsPersisted | benchmarks/run-store.ts:43-52 | from a tidy directory what is loaded is exactly each id with an item file, and that file's own content |
| Runner.SkippedOrExecuted | benchmarks/runner.ts:427-450 | the skipped list is the persisted benchmarks and the executed ones are the others, both in benchmark order |
| CrashResume.RunGrows | benchmarks/run-store.ts:22-58 | at every crash point of a run, whatever it produces, the directory is sound and nothing read from it has changed |
| CrashResume.EveryCutIsAHistory | benchmarks/run-store.ts:54-58 | every prefix of a run's operations is the outcome of some crash |
| CrashResume.EveryDiskIsSound | benchmarks/run-store.ts:22-58 | after any history of cut runs, under any headers, lists and outcomes, items exist only beside the header, are complete, match their names and were produced by a run of that history under that header |
| CrashResume.FirstResultStays | benchmarks/runner.ts:414-450 | every persisted result is the one produced by the only attempt that first persisted it; no later attempt changed it |
| CrashResume.HeaderIdSpoilsResume | benchmarks/run-store.ts:39-41 | after an accepted run that is not cut the directory can be resumed if and only if no benchmark has the id `_run`, whose result replaces the header; otherwise every resume is refused |
| CrashResume.CrashResumeEquivalence | benchmarks/runner.ts:384-473 | after any crashes at any operations under one header, a run is accepted and reports for each id what the first attempt to persist it produced, or its own; when the runs are alike, that is the uninterrupted result |
| CrashResume.NoReexecution | benchmarks/runner.ts:414-450 | a run executes only what is not persisted at that moment if and only if repeated ids were all persisted before |
| CrashResume.HistoryNeverReexecutes | benchmarks/runner.ts:414-450 | over a whole history of runs with distinct ids nothing persisted is executed again |
| CrashResume.SecondRunIsIdle | benchmarks/runner.ts:427-435 | repeating a finished run writes nothing and executes nothing, whatever it would now produce |
| Scores.Aggregate | benchmarks/runner.ts:476-505 | the index-based loop tallies results[i] under benchmarks[i]'s category and difficulty |
| Scores.TallyExact | benchmarks/runner.ts:482-498 | a group's tally is the sum and count of exactly the scores under its key |
| Scores.GroupsAddUp | benchmarks/runner.ts:476-505 | however results are grouped, sums add up to the overall sum and counts to the number of results |
| Scores.GroupMeaning | benchmarks/runner.ts:482-498 | a group counts how many results stand under its key, and sums the scores with all others struck out |
| Scores.SumMeaning | benchmarks/runner.ts:506-508 | sums of like scores and of concatenated lists, which fix every sum |
| Scores.RunAndReport | benchmarks/runner.ts:384-509 | end to end, after any history of crashed attempts under its header: the run completes, each result is the one first persisted or its own and is what the directory then holds, the list is the uninterrupted one when the runs are alike, and the category and difficulty groups add up to the sums of that very list |
| Mailbox.Client.OnMessage | scripts/test-ws-client.ts:94-107 | an arrival wakes the waiter and clears its timer, or is queued |
| Mailbox.Client.Wait | scripts/test-ws-client.ts:63-78 | takes the head of the queue at once, or fills the slot and arms one timer |
| Mailbox.Client.LoopTurn | scripts/test-ws-client.ts:81-92 | one turn of the wait for a type: the deadline test, then one wait |
| Mailbox.Client.OnTimer | scripts/test-ws-client.ts:68-71 | a timer empties the slot and rejects its own waiter |
| Mailbox.WaitTakesTheHead | scripts/test-ws-client.ts:63-78 | after any run, a call for a message takes the head of a nonempty queue at once, and otherwise leaves one waiter with one new timer |
| Mailbox.TurnTakesTheHead | scripts/test-ws-client.ts:83-91 | after any run, a loop turn times out past its deadline; before it, it takes a queued head and ends exactly on the awaited type, or leaves one waiter |
| Mailbox.ArrivalIsHandedOn | scripts/test-ws-client.ts:94-107 | after any run, an arrival is handed to the waiter, ending its call exactly when awaited, or is queued |
| Mailbox.TimeoutsExact | scripts/test-ws-client.ts:68-91 | a call times out if and only if the pending timer fires or a loop turn finds its deadline past |
| Mailbox.TimersAreNew | scripts/test-ws-client.ts:68 | no timer is ever armed twice |
| Mailbox.AlwaysSafe | scripts/test-ws-client.ts:60-107 | over every interleaving: delivered then queued messages are the received ones in order; a waiter means an empty queue and only its own timer; finished calls tile what was consumed, and a successful wait for a type ends at the first match |
| LineSplitter.Daemon.Feed | scripts/durable-continue-demo.ts:96-126 | after every chunk of either stream the shared log is the specified one and each buffer is its own stream's unterminated rest |
| LineSplitter.StreamInLog | scripts/durable-continue-demo.ts:108-126 | over every interleaving of chunks, one stream's lines in the shared log are exactly its terminated lines, in order |
| LineSplitter.LogsAreMerges | scripts/durable-continue-demo.ts:108-126 | a log arises from two streams if and only if it is an order-preserving merge of their terminated lines |
| LineSplitter.ChunkIndependence | scripts/durable-continue-demo.ts:108-123 | two runs leave the same lines and buffer for a stream if and only if they gave it the same characters, however cut and interleaved |
| LineSplitter.EndedLines | scripts/durable-continue-demo.ts:108-123 | lines written with a newline each, and a rest without one, are cut back into exactly these |
| FileTail.Follower.PrintNewLines | bin/debug.ts:566-583 | a read hands out exactly the nonempty lines past the last count |
| FileTail.LinesMeaning | bin/debug.ts:571 | a newline ends a line, and empty lines are dropped |
| FileTail.ReadHandsOut | bin/debug.ts:571-573 | a read adds exactly the lines from the last count on, and none when the file has no more lines than that |
| FileTail.ExactlyOnce | bin/debug.ts:566-583 | every line is handed out once and in order at every moment if and only if each read extends the one before by whole lines |
| FileTail.AppendExtends | bin/debug.ts:566-583 | an append extends the lines if and only if the earlier read saw no unfinished line or the append leaves it as it was |
| FileTail.WholeLineAppends | bin/debug.ts:564-598 | whole-line appends read at any moments, any number of times, are handed out exactly once |
| FileTail.AppendOnlyExact | bin/debug.ts:564-598 | for a file that is only appended to, every line is handed out once and in order at every moment if and only if every append is whole-line |
| FileTail.HalfLineIsLost | bin/debug.ts:571-573 | a line read half written is never completed |
| TableLedger.Repair | scripts/repair-table-ledger.ts:14-27 | the pass with its running hash yields exactly the rechained ledger; nothing for an empty one |
| TableLedger.RepairIsValid | scripts/repair-table-ledger.ts:19-26 | the output is numbered from 1 and chained from the genesis, and keeps times, kinds, payloads, signatures and order |
| TableLedger.ChainMeaning | packages/goal/ledger.ts:257-300 | a chain is valid if and only if each entry is numbered by its place, carries the hash before it, and hashes that with the canonical form of its payload, or of the empty object without one; signatures are over the same text |
| TableLedger.ValidChainUnique | scripts/repair-table-ledger.ts:19-26 | a valid chain is determined by its genesis and records, so the repair has one possible outcome |
| TableLedger.RepairIdentity | scripts/repair-table-ledger.ts:14-26 | the repair changes nothing if and only if the ledger was valid, and repairing twice changes nothing more |
| TableLedger.RepairVerifies | scripts/repair-table-ledger.ts:14-26 | the repaired ledger passes the ledger's own check if and only if the first entry carried the zero hash and every signature was good |
| TableLedger.Verify | packages/goal/ledger.ts:257-300 | the walk accepts if and only if the chain is valid from the zero hash and signed; otherwise it names the first entry whose prefix does not pass, and the first of number, previous hash, hash and signature that is wrong there |
| TableLedger.HeadHashCommits | scripts/repair-table-ledger.ts:19-26 | with no collision among what was hashed, one head hash fixes all payloads, and the length too when the genesis is no entry's hash |
| Controller.Harness.SelfImprove | scripts/nightly-train.ts:737-782 | one iteration adds its results to the tracked history and moves temperature and steps by the specified rules |
| Controller.OneIteration | scripts/nightly-train.ts:740-782 | one iteration by the number of results that passed: the thresholds, steps and bounds of both knobs |
| Controller.ExtremeIterations | scripts/nightly-train.ts:756-782 | when every result passes neither knob goes up, when every one fails neither goes down |
| Controller.BestMeaning | scripts/nightly-train.ts:744-758 | after any history bestScore is the maximum score seen for the task |
| Controller.FailMeaning | scripts/nightly-train.ts:744-758 | failCount is the number of failures since the last result that passed and beat all earlier ones |
| Controller.FailsAreCounted | scripts/nightly-train.ts:744-758 | the failures since a position are the results of the task there that did not pass |
| Controller.AlwaysInRange | scripts/nightly-train.ts:760-782 | from any in-range state temperature and steps stay in range over every run |
| Controller.LowStreak | scripts/nightly-train.ts:760-778 | closed form of a streak below 40% passes; nine iterations force 0.95 and 30 |
| Controller.HighStreak | scripts/nightly-train.ts:766-782 | closed form of a streak above 80% passes; nine iterations force 0.5 and 15 |
| Controller.SteadyStreak | scripts/nightly-train.ts:763-782 | any number of iterations with rates from 40% to 60%, or with no results, leaves both knobs where they were |
| Controller.CoolingStreak | scripts/nightly-train.ts:763-782 | a streak above 60% and at most 80% lowers the temperature to its floor in closed form and leaves the steps alone |
| Controller.EightIsNotEnough | scripts/nightly-train.ts:760-765 | eight low iterations from the floor do not reach the cap |
| TrainingPairs.Collect | scripts/nightly-train.ts:818-855 | the event loop yields exactly the pairs of the segment specification |
| TrainingPairs.PairsExact | scripts/nightly-train.ts:818-855 | a pair is emitted if and only if it is a turn between two consecutive nonempty user messages with a nonempty last text and no error |
| TrainingPairs.PairsGrow | scripts/nightly-train.ts:818-855 | pairs come in the order of the turns that they close, one for each good turn |
| TrainingPairs.ResponseMeaning | scripts/nightly-train.ts:840-848 | a response is the nonempty content, or the text parts joined by newlines with all other parts skipped |
| TrainingPairs.LastTextMeaning | scripts/nightly-train.ts:840-848 | a turn's text is what its last responding entry sets, and empty without one |
| TrainingPairs.FinalTurnNeverEmitted | scripts/nightly-train.ts:825-839 | entries after the last user message change nothing: the open turn is never emitted |
| WipeDetection.OperandIsPathPrefix | scripts/permissions-grid.ts:130-134 | a glob-free operand is a wipe if and only if it is absolute and its normalized segments are empty or a prefix of some home's |
| WipeDetection.OperandExact | scripts/permissions-grid.ts:130-143 | any operand is a wipe if and only if it is the root, a home or a parent of one, everything below the root, or a pattern that hits a home |
| WipeDetection.LineExact | scripts/permissions-grid.ts:128-150 | a line is a wipe if and only if it is a `find` that deletes with a wipe operand first, or after its first `rm` some word is `--recursive` or a dash, letters and an r or R, and some plain word is a wipe operand or two are children of the home |
| WipeDetection.BasenameMeaning | scripts/permissions-grid.ts:144-145 | a command's base name is what stands after its last slash, trailing slashes aside |
| WipeDetection.RemovingTheRoot | scripts/permissions-grid.ts:145-149 | `rm -rf /` is a wipe under every policy |
| WipeDetection.ResolveRewrites | scripts/permissions-grid.ts:131 | the rewrites that define lexical normalization: empty and "." parts vanish, a name cancels with "..", ".." vanishes at the root |
| WipeDetection.ResolveNormal | scripts/permissions-grid.ts:131 | a path with none of these is already normal |
| WipeDetection.LineVerdict | scripts/permissions-grid.ts:144-149 | permuting the words after the command keeps the verdict, and inserting words never loses a wipe |
| WipeDetection.RmVerdictMonotone | scripts/permissions-grid.ts:146-149 | a larger multiset of arguments keeps a wipe verdict |
| GridCompare.DecideOne | scripts/permissions-grid.ts:110-122 | a row is blocked if and only if some vector is ruled out or anything throws, and counts as throwing if and only if the first thing that is not clear is a throw |
| GridCompare.DecideAll | scripts/permissions-grid.ts:108-124 | fills the decision map, later rows overwriting, and the set of rows that threw |
| GridCompare.LastRowDecides | scripts/permissions-grid.ts:122 | of several rows with one id the last decides |
| GridCompare.Compare | scripts/permissions-grid.ts:231-250 | the flipped rows in row order and the blocked counts of both trees |
| GridCompare.FlipsBalance | scripts/permissions-grid.ts:244-250 | with distinct ids, head blocked minus base blocked is newly blocked minus newly allowed |
| GridCompare.ReportMeaning | scripts/permissions-grid.ts:247-250 | the lists are the rows whose decisions differ, and nothing is newly allowed if and only if the head refuses all the base refuses |
| BundleVersions.ResolveDep | scripts/check-bundle-versions.ts:57-68 | the walk up the directories terminates with the specified resolution |
| BundleVersions.ResolveIsNearest | scripts/check-bundle-versions.ts:57-68 | the match at the longest prefix of the starting directory, the root included; none if and only if no prefix has one |
| BundleVersions.ResolveIsNodes | scripts/check-bundle-versions.ts:56-68 | the walk finds what Node's does if and only if every match inside a directory called `node_modules` is hidden by a nearer match that is not inside one |
| BundleVersions.StrayModulesDir | scripts/check-bundle-versions.ts:56-68 | a folder present only in `node_modules/node_modules` is found, though Node's walk finds nothing |
| BundleVersions.CheckBundle | scripts/check-bundle-versions.ts:72-99 | the scan yields exactly the specified problems in order |
| BundleVersions.ReportedIffViolating | scripts/check-bundle-versions.ts:81-97 | a problem is reported if and only if some bundled package has a bundled dependency with a semver range whose nearest folder is missing or states a version, or none, that the range does not accept |
| BundleVersions.OneProblemPerPair | scripts/check-bundle-versions.ts:81-97 | at most one problem for each package and dependency |
| BundleVersions.MoreBundledMoreProblems | scripts/check-bundle-versions.ts:72-99 | on one disk, bundling more packages never removes a problem |
| Sampler.Mulberry32.Next | scripts/judge-vs-proxy-rater.ts:83-89 | adds the constant modulo 2^32 and mixes in 32-bit arithmetic |
| Sampler.FirstOutputs | scripts/judge-vs-proxy-rater.ts:85-88 | the mix of the first two states from seeds 0, 1 and 42 |
| Sampler.StateRepeats | scripts/judge-vs-proxy-rater.ts:82-84 | two moments of a run share a state if and only if they are a multiple of 2^32 steps apart |
| Sampler.EveryStateReached | scripts/judge-vs-proxy-rater.ts:82-84 | every 32-bit state is reached from every seed within 2^32 steps |
| Sampler.IndexInRange | scripts/judge-vs-proxy-rater.ts:97 | the computed index is always inside the remaining list |
| Sampler.IndexIsFloor | scripts/judge-vs-proxy-rater.ts:97 | the index is the floor of the generator's fraction of the length |
| Sampler.Sample | scripts/judge-vs-proxy-rater.ts:92-101 | the splicing loop yields the picks determined by list, size and generator state |
| Sampler.SamplePartitions | scripts/judge-vs-proxy-rater.ts:92-101 | the sample has the asked length and with the remainder is the input as a multiset |
| PrefixCache.Stubs.Request | scripts/affinity-replay.ts:52-66 | a request fails while the warm backend's burst lasts, and otherwise prefills what is not cached and holds the prompt |
| PrefixCache.HeldIsLast | scripts/affinity-replay.ts:64-65 | a backend holds the prompt of the last request it served, and nothing before its first |
| PrefixCache.PrefillIsSumOfLast | scripts/affinity-replay.ts:63-65 | total prefill is at least the sum of each backend's last prompt, with equality if and only if no backend's prompts shrink |
| PrefixCache.FinalPromptBound | scripts/affinity-replay.ts:63-65 | with nondecreasing prompts it is at least the final prompt, with equality if and only if no other backend holds a nonzero prompt |
| PrefixCache.ExcursionCost | scripts/affinity-replay.ts:128-131 | one excursion at turn k that returns costs exactly k prompt steps extra |
| ResearchScraper.IsTooSimilar | scripts/research-scraper.ts:161-177 | similar if and only if some known description overlaps by more than 60% of the candidate's long words |
| ResearchScraper.OverlapMeaning | scripts/research-scraper.ts:161-169 | texts overlap if and only if repeats of the one's words of more than three letters are over 60% of their number |
| ResearchScraper.Run.FilterAndAdd | scripts/research-scraper.ts:487-504 | one candidate is added, skipped by name or skipped by description |
| ResearchScraper.OneCandidate | scripts/research-scraper.ts:487-504 | a candidate is skipped under a known or added name, else skipped and marked on an overlapping description, else added with its description cut to 200 characters |
| ResearchScraper.LoadMeaning | scripts/research-scraper.ts:131-159 | a run knows the queue's and the tools' names and the queue's descriptions |
| ResearchScraper.FilterInvariant | scripts/research-scraper.ts:487-509 | additions have pairwise distinct lower-cased names disjoint from the known ones, and added plus skipped is candidates |
| ResearchScraper.RerunAddsNothing | scripts/research-scraper.ts:470-522 | once the additions are queued, a new run over the same candidates adds nothing |

## Left out

- Message texts of findings, warnings and problems; the model keeps rule, sink, file and line instead.
- The regular expressions of the gate and of install text, URL tokenizing, and `inScope`; they are opaque tests or filter the input.
- File maps, sink lists and reviewed lists as JavaScript objects: inherited keys such as `constructor` are not modelled.
- `INSTALL_SITES` pins below zero, for which the script would throw; every shipped pin is positive.
- Benchmark ids that contain a path separator, file systems that fold case, and two runs in one directory at the same time.
- Rounding of the aggregated averages in the runner, and everything it prints.
- Two executions of one repeated id within one run that turn out differently; a run's outcomes are a function of header and id.
- Overlapping waiters in the WebSocket client; the model has the one sequential consumer the script has.
- UTF-8 decoding of stream chunks: the splitter decodes each chunk on its own, so a character cut in two is decoded wrongly; the model starts from the decoded text.
- Legacy `.json` sessions in the log follower, and reads that fail part way.
- Ledger fields beyond those the script writes back, the backup copy and JSON encoding.
- Rounding of the temperature in binary floating point; the model uses exact reals.
- Writing the training file, its length filter, and the choice of the last twenty sessions.
- Glob operands of `isWipe` are an opaque test, as are the shell probe and process isolation.
- Absolute or `..`-relative package folders in the bundle check, marker parsing, and the Ink patch check.
- Rounding of the sampler's index for lists of two million entries or more, where the product no longer fits a double exactly.
- Scraping, `toKebab`, and descriptions' tokenizing; lower-casing and word splitting are opaque functions.
- Network, child processes, WebSocket transport, model calls, grading and terminal output everywhere.
