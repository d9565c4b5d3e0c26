# AlpineJudge: models and proofs

AlpineJudge is a code judge. A submission is run inside a container by an agent
(`ajagent`), which compares outputs and streams events over a socket; a runner keeps warm
containers, hands one to each delivery, scans the agent's socket and publishes a reduced
event per line to a direct exchange; a dispatcher forwards a client's queue as server-sent
events; the Python SDK turns that stream into `JudgeEvent`s and stops at a RESULT. Testsets
live in an object store.

The project models four parts and proves properties of each over every input, every
schedule or every reachable state:

- **The judge in the container.** `LimitWriter` (the truncating output buffer, a class),
  `TestFiles` (the padded file lookup), `SignalHandler` (from exit cause to verdict),
  `Whitespace` (`strings.TrimSpace` on UTF-8 bytes), `RunTest` (the race between deadline,
  output limit and process exit, as a step relation), `Agent` (the judge loop, imperative,
  proved against a declarative stream of events). `Agent.AcceptedIsSound` joins all of them:
  an Accepted result means every test's process exited with status 0 and its complete,
  untruncated stdout is the expected text up to surrounding whitespace, under every
  schedule of every test; `Agent.JudgedToTheEnd` gives the whole stream for tests really run.
- **The runner engine.** `Engine`: producer, main loop, any number of workers,
  cancellation and failed creations as a step relation; inductive invariants over every run.
  `EngineFaults`: exactly which runs crash, and how a delivery that does not parse is settled.
  `EngineProgress`: from every reachable live state the queue can be filled, a delivery can get a
  warm container and be ended, and shutdown can complete.
- **The event pipeline.** `Json`, `Wire` (records), `Scanner` (the socket scanner), `Sse`
  (frames and their reader), `Hearing` (what a client makes of a whole or cut stream),
  `Pipeline` (any number of agents and clients, with losses, as a step relation),
  `PipelineFaults` (lines cut short, events lost, clients gone), `Delivery` (runs in which nothing on one path fails) and
  `Socket` (the agent's text as bytes, tied to the steps of the pipeline).
  `Pipeline.ClientHearsSubsequence` is the safety result, `Delivery.CompletedRunYieldsAll` and
  `Delivery.EveryRunCompletes` the delivery results; `Delivery.WatcherSeesJudging` joins judge
  and pipeline end to end, and `Delivery.HeardAcceptedIsSound` reads them backwards: a client that
  hears Accepted, whatever was lost on the way, can rely on every test having been solved.
- **Testset storage.** `Paths` (`filepath.Join` and `Clean`) and `Storage` (directory upload
  and paginated download): they invert each other exactly for clean prefixes, and
  distinct testset ids are isolated. `Containment`: which keys are written inside the download directory.
  `Testsets`: the judge finds the same tests among the files a download restored as in the
  directory that was uploaded.

`Text` holds sequence and numeral helpers, `Verdicts` the texts and records of
`ajagent/internal/utils.go`.

To check everything: `dafny verify dfyconfig.toml`.

## Where the code differs from its evident intent

The model follows the code. Each of these is stated as a lemma:

- The memory check compares bytes with a number of megabytes
  (ajagent/internal/sighandler.go:48-50). `SignalHandler.ThresholdMeetsIntent` says exactly
  when that matters; for limits up to 1077 MB every SIGKILL of a process that used
  memory reads as MLE (`SignalHandler.KillIsAlwaysMle`), so a process killed by its deadline
  may end as TLE or as MLE depending on the schedule (`RunTest.DeadlineMayReadAsMle`).
- The deadline branch reads the flags after it was entered, so a limit reached only then
  still turns TLE into OLE (`RunTest.LateFlagIsOle`; `RunTest.OleIsExact` has all sources of OLE).
- A stream whose length reaches the limit counts as too long, so a test whose expected output
  is that long cannot be passed by any program (`RunTest.PassablePreciselyBelowLimit`, exact).
- With a limit of 0 an empty write raises the flag, so chunking becomes visible
  (`LimitWriter.ChunkingIsIrrelevant`, exact); the copiers of a process never make an empty
  write, so the race never meets the exception (`RunTest.WritersSeeOnlyBytes`).
- A failed read of the execution spec emits no RESULT (ajagent/internal/ajagent.go:47-55), so
  in no reachable state has a client's generator ended (`Agent.ResultOnceAndLast`,
  `Delivery.FailedReadNeverEnds`).
- A job spec that does not parse is nacked twice and then still acked, and is orchestrated
  all the same (`Engine.DeliveryIsSettled`; `EngineFaults.RunWithUnparsed` is a run that does it).
- A failed on-demand creation leaves a nil container, and the runner crashes exactly if the
  orchestration of that delivery gets as far as using it (`EngineFaults.CrashIffNilUsed`;
  `EngineFaults.RunThatCrashes` is such a run). The parameter `usesContainer` of the step that ends an
  orchestration stands for reaching the first use, at runner/pkg/orchestrator.go:91.
- Slot ids wrap at 2^32 (`Engine.SlotIdsAreDistinctIff`).
- The runner ignores the error of decoding a line, so a line cut short by a lost
  connection is published as a blank event (`Wire.ProjectCut`, `Pipeline.ClientHearsSubsequence`;
  `PipelineFaults.TornLineIsHeardBlank` gives the runs, `PipelineFaults.UntornIsHeardExactly` the rest).
- One line over the scanner's cap ends the stream: everything from it on is lost, the RESULT
  included, although nothing fails (`Delivery.CompletedRunEndsIff`, exact;
  `Delivery.NeverPastMisfit`). JSON escaping makes this reachable with logs inside their limit: with
  the shipped MAX_LOG_CAP_KB of 1024 for every log limit above 87 KB, the SDK's default of 256
  included, by a judged program that floods both its streams (`Scanner.CapSufficesIff`, exact;
  `Delivery.VerdictIsLost`).
- A download looks at nothing behind a key's prefix, so a key whose rest leads up is written
  outside the download directory unless the rest comes back into it by name
  (`Containment.FetchedInsideIff`, exact per call; `Containment.KeyBesideEscapes` has a key of each kind).
- Go's encoder leaves U+0085 raw, and the SDK's line reader cuts lines there: a payload with
  one makes the generator raise (`Hearing.StreamIsHeard`, exact; `Delivery.NelReachesClient` is a
  submission that does it).
- Waiting for a process that exited with status 0 may still fail, and then the right answer is a
  runtime error (`RunTest.CleanExitMayFail`).
- A client that binds late hears only what was accepted after its binding
  (`Pipeline.WrittenIsStretchOfLog`, `Delivery.CompletedRunYieldsAll`).
- The download counter counts keys the suffix filter rejected, so a download may succeed
  having fetched nothing (`Storage.SuccessMayFetchNothing`, exact; `Storage.ReadmeCountsAsFetched`).
- Uploads clean the key prefix and listings do not, so under "" or any unclean prefix a
  directory is not restored (`Storage.RestoredIffClean`, exact).

## Environment assumed

- `cmd.Wait` returns after the process has ended and both pipes were copied to their end; an
  exit status other than 0 wins over a context or copy error. Timers are events that may
  fire at any step, buffers are read in one step.
- The broker keeps order per queue and channel (AMQP 0-9-1, section 4.7) and a direct exchange
  routes by equality of keys (section 3.1.3.1). A write, a publish, or a frame write may
  fail at any step. Server-sent events are framed as in section 9.2 of the WHATWG HTML
  Living Standard; JSON strings hold no raw control characters (RFC 8259, section 7).
- `httpx`'s `aiter_lines` cuts lines where Python's `str.splitlines` does. Go writes `\b` and
  `\f` as short escapes, as encoding/json does since Go 1.22.
- The testset directory does not change while a submission is judged; a name is in it exactly
  if `os.Stat` succeeds on it.

## Model

| member | source | states |
|---|---|---|
| LimitWriter.LimitExceededWriter.constructor | ajagent/internal/limitwriter.go:28-35 | a fresh writer is valid and has seen nothing |
| LimitWriter.LimitExceededWriter.Write | ajagent/internal/limitwriter.go:37-66 | reports the whole write as accepted, keeps the invariant, and moves to the specified next state; the slice up to `allowed` is in bounds in int64 arithmetic |
| LimitWriter.LimitExceededWriter.LimitReached | ajagent/internal/limitwriter.go:68-72 | the flag, which tells that the total reached the limit |
| LimitWriter.StepHolds | ajagent/internal/limitwriter.go:41-65 | one write keeps: buffer = first min(total, limit) bytes, flag iff total >= limit, cancel called once iff flagged |
| LimitWriter.AfterHolds | ajagent/internal/limitwriter.go:37-66 | the same for every sequence of writes |
| LimitWriter.ChunkingIsIrrelevant | ajagent/internal/limitwriter.go:37-66 | two chunkings of the same bytes leave the same state iff the limit is above 0 or both or neither make no write at all |
| LimitWriter.OnlyBytesMatter | ajagent/internal/limitwriter.go:37-66 | writes that are never empty leave the state of one write of all their bytes, whatever the limit |
| LimitWriter.ZeroLimitSeesEmptyWrites | ajagent/internal/limitwriter.go:43-46 | with limit 0 an empty write is visible: the concrete input for which chunking matters |
| LimitWriter.FlagIsSticky | ajagent/internal/limitwriter.go:43-61 | after the flag is up no further write changes anything |
| LimitWriter.NothingLostBelowLimit | ajagent/internal/limitwriter.go:64-65 | while the flag is down the buffer is everything written |
| TestFiles.FindsFirst | ajagent/internal/findtestfiles.go:13-34 | the result is the first of the six spellings whose two files both exist, and None exactly if there is none |
| TestFiles.FindsShortestNumeral | ajagent/internal/findtestfiles.go:13-34 | test i exists iff some digit string for i, of at most six digits or without leading zeros, names a `.in` and a `.out` file; what is found is the pair of the shortest such string |
| TestFiles.SpellingsNeverCoincide | ajagent/internal/findtestfiles.go:13-20 | spellings of distinct indices never coincide, for any indices and widths |
| TestFiles.FoundNamesIndex | ajagent/internal/findtestfiles.go:22-31 | a found pair exists and its name denotes its index |
| TestFiles.UsingOneShrinks | ajagent/internal/ajagent.go:99-103 | each found pair uses up an input file that no later index can use: the measure of the loop |
| TestFiles.RunEnd | ajagent/internal/ajagent.go:99-103 | where the maximal contiguous run of existing pairs ends; it is finite |
| TestFiles.RunIsBoundedByInputs | ajagent/internal/ajagent.go:99-103 | the run is no longer than the number of `.in` names |
| SignalHandler.VerdictTellsCause | ajagent/internal/sighandler.go:15-66 | which exit cause gives OLE, MLE, TLE and RE, each in both directions |
| SignalHandler.CauseOfExit | ajagent/internal/sighandler.go:15-66 | verdict and explanation of every exit, by the numbers of status and signal and in full text |
| SignalHandler.UnrecordedPeak | ajagent/internal/sighandler.go:43-53 | a SIGKILL without a usage record is MLE iff the limit is 0 |
| SignalHandler.ThresholdMeetsIntent | ajagent/internal/sighandler.go:43-56 | the memory check agrees with "95% of the limit" exactly outside a stated interval of peaks |
| SignalHandler.KilledIsMleIff | ajagent/internal/sighandler.go:43-56 | a SIGKILL at a peak of kb kilobytes is MLE iff 20480*kb >= 19*limitMB |
| SignalHandler.SmallProcessReadsAsMle | ajagent/internal/sighandler.go:43-53 | a concrete input in that interval: 2 MB under a 512 MB limit is MLE |
| SignalHandler.KillIsAlwaysMle | ajagent/internal/sighandler.go:43-56 | every SIGKILL of a process that used memory is MLE iff the limit is at most 1077 MB |
| Verdicts.FatalIsNoPass | ajagent/internal/utils.go:12-22 | the fatal verdicts neither begin with the passing text nor equal Accepted or Wrong answer |
| Verdicts.IndexedTexts | ajagent/internal/runtest.go:153-164 | the texts "Running test n" and "Wrong answer in test n" are recognised as pass and no pass, and never as fatal |
| Whitespace.SpaceAfter | ajagent/internal/runtest.go:150-151 | a whitespace code point appended does not change the trimmed bytes, even if the text ends inside a code point |
| Whitespace.SpaceIsWhiteSpace | ajagent/internal/runtest.go:150-151 | the byte patterns trimmed are exactly the UTF-8 encodings of the 25 White_Space code points, listed one by one |
| Whitespace.AsciiSpaceTrims | ajagent/internal/runtest.go:150-151 | each of the six ASCII whitespace bytes, at either end of any text, changes nothing |
| Whitespace.VisibleStays | ajagent/internal/runtest.go:150-151 | a text that begins and ends with visible ASCII trims to itself |
| Whitespace.TrimIsWrapped | ajagent/internal/runtest.go:150-151 | a text is its trimmed form with whitespace before and after |
| Whitespace.TrimComparesUpToSpace | ajagent/internal/runtest.go:150-153 | trimmed texts are equal iff the texts are equal up to surrounding whitespace |
| RunTest.CopyFlags | ajagent/internal/limitwriter.go:43-61 | handing over more output never lowers a flag, and calls cancel exactly when it raises it |
| RunTest.StepKeepsInv | ajagent/internal/runtest.go:92-166 | every step of process, copiers, timer and select keeps the invariant |
| RunTest.RunKeepsInv | ajagent/internal/runtest.go:92-166 | so it holds over every schedule |
| RunTest.WritersSeeOnlyBytes | ajagent/internal/runtest.go:69-72 | in every run no write is empty, and each writer is in the state of one write of the copied bytes |
| RunTest.SelectsOnce | ajagent/internal/runtest.go:92-147 | the select is resolved once in every run, and the branch it took is the one that ends the test |
| RunTest.EndsOnce | ajagent/internal/runtest.go:83-97 | the process ends once and waiting returns once, and what they gave stays |
| RunTest.PassIsSound | ajagent/internal/runtest.go:120-165 | a pass means exit status 0, no stream at its limit, the compared buffer is the complete stdout and equals the expected text up to surrounding whitespace; conversely those give a pass |
| RunTest.LineBreakPasses | ajagent/internal/runtest.go:150-165 | a clean run that printed the expected bytes and a line break, \n or \r\n, is a pass of its test |
| RunTest.OtherAnswerIsWrong | ajagent/internal/runtest.go:150-158 | a clean run whose output and answer differ and both end in visible characters is a wrong answer |
| RunTest.OleIsExact | ajagent/internal/runtest.go:98-146 | if the wait won, OLE iff a flag is up or SIGPIPE ended the process; if the deadline won, OLE iff one of its two reads found its flag up; a limit hit before the select was resolved is OLE whichever won |
| RunTest.KillVerdictsAreJustified | ajagent/internal/runtest.go:98-146 | TLE iff the deadline won and found its flags down, or the wait won without a flag and read a SIGKILL under the threshold; MLE and RE exactly likewise; the logs respect the limit |
| RunTest.LateFlagIsOle | ajagent/internal/runtest.go:99-118 | a schedule that ends in OLE though no flag was up when the deadline branch was entered and the process has not ended |
| RunTest.VerdictIsOneOfSix | ajagent/internal/runtest.go:98-166 | a started process gets one of six verdict texts |
| RunTest.ReportIsExplained | ajagent/internal/runtest.go:98-166 | the explanation in every report, for each way to end |
| RunTest.DeadlineKillAsTle | ajagent/internal/runtest.go:99-118 | a schedule of a killed process that ends in TLE |
| RunTest.DeadlineKillAsMle | ajagent/internal/runtest.go:120-138 | the same process read through the wait branch, ending in MLE |
| RunTest.DeadlineMayReadAsMle | ajagent/internal/runtest.go:98-147 | both for one exit status and one configuration: the race is visible |
| RunTest.PassablePreciselyBelowLimit | ajagent/internal/runtest.go:120-165 | some program passes a test under some schedule iff its trimmed expected output is blank or shorter than the log limit |
| RunTest.ReportedPassIsSound | ajagent/internal/runtest.go:19-166 | for all of runTestCase: a pass means the process started and solved the test |
| RunTest.NeverStartedIsIE | ajagent/internal/runtest.go:22-88 | a process that was never started is reported as Internal error with empty logs and the reason |
| RunTest.CleanExitMayFail | ajagent/internal/runtest.go:120-146 | a run that exits with status 0 and is reported as a runtime error because waiting failed |
| RunTest.ReportedLogsAreBounded | ajagent/internal/runtest.go:69-70 | every reported log has at most LogLimitKB*1000 bytes |
| RunTest.FloodIsReported | ajagent/internal/runtest.go:99-118 | a program that fills both streams to the limit may be reported OLE with both buffers full |
| Agent.StreamConn.SendEvent | ajagent/internal/utils.go:54-72 | appends exactly one event to the connection |
| Agent.StreamConn.SendResult | ajagent/internal/utils.go:80-84 | appends exactly one RESULT with empty logs |
| Agent.RunnerAgent | ajagent/internal/ajagent.go:46-159 | emits exactly the specified events; at most one lookup more than there are `.in` files; never judges a file twice |
| Agent.Judge | ajagent/internal/ajagent.go:93-159 | loop and conclusion together emit exactly the judging events |
| Agent.JudgeLoop | ajagent/internal/ajagent.go:96-137 | the loop judges a contiguous run in order, stops at the first stopping verdict, and terminates |
| Agent.Conclude | ajagent/internal/ajagent.go:139-158 | no test gives ERROR and IE, a wrong one WA, otherwise AC |
| Agent.NeverTwice | ajagent/internal/ajagent.go:99-107 | pairs found for distinct indices share no file |
| Agent.ResultOnceAndLast | ajagent/internal/ajagent.go:47-158 | after the spec was read exactly one RESULT is emitted, and it is last; on a failed read there is none |
| Agent.ResultsAreBare | ajagent/internal/utils.go:80-84 | every RESULT among the emitted events is its status and nothing else |
| Agent.AcceptedIff | ajagent/internal/ajagent.go:139-158 | Accepted iff there is a test and all pass, halting or not |
| Agent.FullRunVerdict | ajagent/internal/ajagent.go:114-158 | without halting: the first fatal verdict, else WA if any test fails, else AC |
| Agent.HaltingVerdict | ajagent/internal/ajagent.go:114-130 | with halting: the first test that does not pass decides |
| Agent.HaltingAgainstFull | ajagent/internal/ajagent.go:114-158 | two runs on equal reports: INFO events are a prefix, Accepted in both or neither, results differ iff a wrong answer precedes the first fatal verdict |
| Agent.GoesOnIffNamed | ajagent/internal/ajagent.go:114-130 | of all reports runTestCase may make, the loop goes on past exactly "Running test i" and "Wrong answer in test i", halting past the former only; a process never started ends it |
| Agent.JudgedToTheEnd | ajagent/internal/ajagent.go:98-158 | the whole stream for tests really run, in full text: INFO events up to the first report that ends judging, and its RESULT; else Accepted or Wrong answer |
| Agent.DeadlineEndsJudging | ajagent/internal/ajagent.go:114-122 | a test ended by the deadline after passes is the last one judged, and the result is "Time limit exceeded" |
| Agent.UnjudgedStreams | ajagent/internal/ajagent.go:58-148 | a malformed spec, a failed compilation and a directory without tests: two events, with status and RESULT in full text |
| Agent.AcceptedIsSound | ajagent/internal/ajagent.go:99-158 | Accepted under any schedules: at least one test, and every test was really solved |
| Agent.AcceptedIsPossibleIff | ajagent/internal/ajagent.go:99-158 | some program is Accepted under some schedules iff there is a test and every trimmed answer is blank or below the log limit |
| Engine.StepPlaced | runner/pkg/engine.go:70-134 | every step keeps each container in exactly the place its last move put it |
| Engine.StepSlotsApart | runner/pkg/engine.go:79-81 | every step keeps slots in creation issued, unused and unshared |
| Engine.StepWarmOrdered | runner/pkg/engine.go:79-123 | every step keeps taken, queued and held warm containers in increasing order of issue |
| Engine.StepCounts | runner/pkg/engine.go:67-134 | every step keeps the wait group and the slot balance |
| Engine.StepDeliveries | runner/pkg/engine.go:117-149 | every step keeps the calls on each delivery what its worker's program point says |
| Engine.RunKeepsInv | runner/pkg/engine.go:65-152 | the invariant holds over every interleaving |
| Engine.EachContainerInOnePlace | runner/pkg/engine.go:65-98 | each created container is in the producer's hand, the queue, one worker or deleted, and nowhere else; the queue never exceeds its capacity |
| Engine.WorkersShareNothing | runner/pkg/engine.go:116-134 | no two workers own one container |
| Engine.HistoryOf | runner/pkg/engine.go:67-86 | issued, failed and created counts are those of the run's own steps |
| Engine.SlotsAreAccountedFor | runner/pkg/engine.go:67-86 | slots issued = in creation + failures + containers created |
| Engine.SlotIdsAreDistinctIff | runner/pkg/engine.go:67 | uint32 slot ids are distinct iff at most 2^32 were issued |
| Engine.SlotIdsAreUnique | runner/pkg/engine.go:79-130 | no two containers of a run share a slot id while at most 2^32 were issued |
| Engine.WarmSlotIdsIncrease | runner/pkg/engine.go:79-123 | ids leaving the warm queue are strictly increasing |
| Engine.WaitGroupCountsLiveWorkers | runner/pkg/engine.go:101-118 | the wait group is the number of live workers, and a return by cancellation leaves none |
| Engine.DeliveryIsSettled | runner/utils/validator.go:17-27 | a finished delivery that parsed got exactly one Ack; an unparsed one Nack, Nack, Ack; never two Acks |
| Engine.AckFollowsOrchestration | runner/pkg/engine.go:142-146 | an Ack comes only after the delivery's orchestration returned |
| EngineFaults.NilIffOwnCreationFailed | runner/pkg/engine.go:120-134 | a worker's container is nil iff its own on-demand creation failed |
| EngineFaults.CrashIffNilUsed | runner/pkg/engine.go:127-142 | the runner has crashed iff some worker whose own creation failed got its orchestration as far as using the container |
| EngineFaults.CrashNeedsFailedCreation | runner/pkg/engine.go:127-142 | in particular a crash needs a failed on-demand creation; failed warm ones never lead to it |
| EngineFaults.CrashStaysPossible | runner/pkg/engine.go:127-142 | from every live run with such a worker whose orchestration has not returned, a crash can be reached |
| EngineFaults.RunThatCrashes | runner/pkg/engine.go:125-142 | a concrete run that crashes, for every queue capacity |
| EngineFaults.UnparsedIsAckedToo | runner/pkg/engine.go:136-146 | from every live run, a delivery about to be parsed can end in Nack, Nack and Ack |
| EngineFaults.RunWithUnparsed | runner/pkg/engine.go:136-146 | a concrete run that ends so |
| EngineProgress.StoppedOnlyAfterCancel | runner/pkg/engine.go:70-108 | the context is done iff it was cancelled; only then has the producer stopped or the main loop begun to wait |
| EngineProgress.AtMostOneMoreIssue | runner/pkg/engine.go:70-79 | after a cancellation the producer takes at most one more slot, and only if it had passed its check |
| EngineProgress.QueueCanBeFilled | runner/pkg/engine.go:70-93 | from every live state not cancelled, steps of the producer alone fill the queue to its capacity, append only and change nothing else |
| EngineProgress.GetsWarmContainer | runner/pkg/engine.go:126-128 | a waiting delivery can get the first queued container, or the next one made even without a queue |
| EngineProgress.DeliveryCanEnd | runner/pkg/engine.go:122-149 | from every live state each delivery can be brought to its end, acked once if not yet parsed, without moving any other |
| EngineProgress.ShutdownCanComplete | runner/pkg/engine.go:97-108 | from every live state a cancellation can be followed to the return of the main loop, with the producer stopped and every delivery ended |
| Engine.LiveWorkerCanStep | runner/pkg/engine.go:122-149 | a live worker is never stuck waiting for another goroutine |
| Engine.ShutdownEnds | runner/pkg/engine.go:105-108 | after cancellation a measure falls with every worker step, never rises, and is 0 exactly when the loop can return |
| Json.EscapeDecodes | ajagent/internal/utils.go:58-69 | every escape the encoder writes decodes to its code point |
| Json.DecodeRuneIff | ajagent/internal/utils.go:63-64 | a code point is decoded iff the bytes begin with its RFC 3629 encoding |
| Json.TailDecodes | ajagent/internal/utils.go:58-69 | every encoded string literal decodes to its text, invalid bytes replaced |
| Json.CutTailFails | runner/internal/exesubmission.go:78-79 | a literal cut anywhere does not decode |
| Json.ObjectRoundTrip | runner/internal/exesubmission.go:78-86 | decoding an encoded record gives its members back |
| Json.CutObjectFails | runner/internal/exesubmission.go:78-79 | a record cut anywhere is a syntax error |
| Json.EscapeSize | ajagent/internal/utils.go:58-69 | escaping takes at most six bytes per byte |
| Json.EscapeSizeIs | ajagent/internal/utils.go:58-69 | the exact number of bytes each character takes in a literal |
| Json.RunesTakeAllBytes | ajagent/internal/utils.go:63-64 | decoding a Go string rune by rune consumes exactly its bytes |
| Json.ObjectIsSafe | dispatcher/internal/endpoints.go:191 | an encoded record has no control character and no line break except a raw U+0085, and that iff the text has one |
| Wire.ProjectEvent | runner/internal/exesubmission.go:78-85 | the runner recovers type, status and details of an event line exactly |
| Wire.LogsDecode | runner/internal/exesubmission.go:93-110 | the two logs the runner stores are those of the event, invalid bytes replaced |
| Wire.TextLogsDecode | runner/internal/exesubmission.go:93-110 | logs that are UTF-8 text arrive as that text |
| Wire.ProjectCut | runner/internal/exesubmission.go:78-85 | a line cut short becomes the blank payload |
| Wire.PayloadDecodes | sdk/src/alpinejudge/client.py:141-142 | the SDK reads back exactly the published payload |
| Wire.EventReadsBack | sdk/src/alpinejudge/models.py:26-34 | read as an SDK record an event line gives all five fields |
| Wire.PayloadIsSafe | dispatcher/internal/endpoints.go:191 | a payload fits a frame: braces at both ends, no break but a raw U+0085 |
| Wire.EventLineExactly | ajagent/internal/utils.go:58-69 | the exact size of an event line |
| Wire.EventLineSize | runner/internal/exesubmission.go:54-67 | an event line has at most 60 bytes and six times its fields' bytes |
| Scanner.LineScanner.Next | runner/internal/exesubmission.go:75-76 | the next line if it fits, otherwise failure for good |
| Scanner.ForwardEvents | runner/internal/exesubmission.go:75-116 | publishes the projection of every scanned line whose publish succeeds, in order, and tells whether a line was too long |
| Scanner.ScannerSeesLines | runner/internal/exesubmission.go:60-75 | of any part of the stream the scanner sees whole lines in order, and at most one cut line after them |
| Scanner.ScanStopsAtMisfit | runner/internal/exesubmission.go:67-75 | it returns the lines before the first over the cap, unchanged, and fails iff there is one |
| Scanner.ScanRoundTrip | runner/internal/exesubmission.go:60-75 | writing lines and scanning them gives them back up to that point |
| Scanner.ReturnIsDropped | runner/internal/exesubmission.go:75-76 | a line ended by carriage return and newline is returned without either |
| Scanner.FitsIff | runner/internal/exesubmission.go:54-67 | in bytes: a line fits iff with its newline it is within 1024 times MAX_LOG_CAP_KB, or within 61440 if that is larger |
| Scanner.EventFits | runner/internal/exesubmission.go:54-67 | 60 + 12000*LogLimitKB + six times the other fields bounds a line, and a cap above it never stops the scanner |
| Scanner.CapSufficesIff | runner/internal/exesubmission.go:54-67 | for given texts every event with logs within the limit fits iff 60 + 12000*LogLimitKB + their encoded size is below the cap |
| Scanner.ShippedCapIsTooSmall | runner/internal/exesubmission.go:49-67 | with MAX_LOG_CAP_KB at 1024 and any limit above 87 KB, an event within the limit that does not fit |
| Sse.ListenEvents | sdk/src/alpinejudge/client.py:129-148 | the loop yields exactly what the specification of the stream says, in order, and ends as it says |
| Sse.FrameLines | dispatcher/internal/endpoints.go:191 | a frame splits into its data line and a blank line, whatever follows |
| Sse.DataLine | sdk/src/alpinejudge/client.py:133-139 | a data line gives its data back, stripped |
| Sse.CutsExactlyAt | sdk/src/alpinejudge/client.py:129-131 | one character between printable texts cuts them iff it is one of ten, listed one by one; a CRLF cuts once |
| Sse.StripsExactly | sdk/src/alpinejudge/client.py:133-137 | a character at an end of a text is stripped iff it is White_Space or one of four separators |
| Sse.EndsOnResult | sdk/src/alpinejudge/client.py:144-148 | the generator stops by itself iff the last event it yielded is a RESULT |
| Sse.FramingRoundTrip | sdk/src/alpinejudge/client.py:129-141 | reading the frames of any bodies without breaks and outer whitespace gives exactly the bodies |
| Hearing.PartRaises | sdk/src/alpinejudge/client.py:136-142 | a proper part of a payload makes the generator raise, whatever follows |
| Hearing.StreamIsHeard | sdk/src/alpinejudge/client.py:129-148 | a whole stream: all payloads up to the first RESULT iff none before has a raw U+0085; otherwise those before it, and an exception |
| Hearing.CutStreamIsHeard | sdk/src/alpinejudge/client.py:129-148 | a stream cut anywhere: a prefix of the payloads up to the first RESULT, each as published |
| Pipeline.EmitKeeps | ajagent/internal/utils.go:54-72 | an event written, lost or torn keeps the invariant |
| Pipeline.ScanKeeps | runner/internal/exesubmission.go:75-91 | scanning a line and publishing or dropping it keeps the invariant |
| Pipeline.PublishKeeps | shared/rmqmanager.go:236-262 | a publish reaches exactly the queues bound with its key and keeps the invariant |
| Pipeline.ClientKept | shared/rmqmanager.go:193-209 | moving messages from queue to hand to frame loses, adds and reorders none |
| Pipeline.BindKeeps | shared/rmqmanager.go:143-166 | a new binding starts after what was already accepted |
| Pipeline.RunKeepsInv | runner/internal/router.go:13-31 | the pipeline invariant holds in every reachable state |
| Pipeline.WrittenIsStretchOfLog | dispatcher/internal/endpoints.go:179-200 | what was written to a client is a contiguous stretch of the accepted messages, from its binding on |
| Pipeline.StretchFollows | runner/internal/exesubmission.go:75-91 | a stretch of the log is an order-preserving selection of the agent's events, projected |
| Pipeline.ClientHearsSubsequence | sdk/src/alpinejudge/client.py:129-148 | in every reachable state, for any received part: the SDK yields an order-preserving subsequence of the emitted events (a last one may be blank after a cut line) and nothing after a RESULT |
| PipelineFaults.UntornIsHeardExactly | runner/internal/exesubmission.go:75-91 | without a torn line every heard event is a projected event of the script, in order |
| PipelineFaults.TornLineIsHeardBlank | runner/internal/exesubmission.go:78-91 | for every script and every cut of its first line, a run in which the client hears one blank event |
| PipelineFaults.AnySelectionCanBeHeard | runner/internal/exesubmission.go:75-116 | whichever events are lost on the socket or in a publish, a run in which a client hears exactly the others |
| PipelineFaults.GoneIsFinal | dispatcher/internal/endpoints.go:179-200 | after a client left or a write failed nothing more is written to it, in any continuation |
| Socket.EventIsLine | ajagent/internal/utils.go:58-69 | an encoded event is one line: no newline, ending in a brace |
| Socket.ScriptIsScannedBack | runner/internal/exesubmission.go:60-75 | the text of a script is scanned back line by line, up to the first that does not fit |
| Socket.TextIsLink | runner/internal/exesubmission.go:60-75 | of any part of the text the scanner sees whole events in order and at most one torn one, as the pipeline assumes |
| Socket.ScanOnPublishes | runner/internal/exesubmission.go:75-116 | the pipeline's scan steps publish what the loop over the text publishes, and stop when it does |
| Socket.SocketMeetsPipeline | runner/internal/exesubmission.go:60-116 | together, for any part of any script's text and any failing publishes, with the run of the pipeline that leads there |
| Delivery.CleanRun | runner/internal/exesubmission.go:60-118 | along a faultless path every line before the first over the cap is scanned and accepted once, in order, and the scanner stops at that one |
| Delivery.QuietMeansDelivered | dispatcher/internal/endpoints.go:179-200 | when nothing is under way the client was written exactly the stream between its binding and the first line over the cap |
| Delivery.CompletedRunYieldsAll | sdk/src/alpinejudge/client.py:129-148 | a completed faultless run lets the client hear exactly what there is to hear of that stretch, for any script and any cap |
| Delivery.CompletedRunEndsIff | sdk/src/alpinejudge/client.py:147-148 | for a script ending in its RESULT: all projected events of that stretch, and the end iff every line fits and the binding came in time |
| Delivery.NeverPastMisfit | runner/internal/exesubmission.go:113-116 | if some line does not fit, in no state of a faultless path has any client's generator ended |
| Delivery.PathCanAdvance | shared/rmqmanager.go:193-209 | while the path is not quiet one of its own steps is enabled and brings the end nearer |
| Delivery.NoStepDelays | dispatcher/internal/endpoints.go:179-200 | no step of anyone ever sends the path back |
| Delivery.EveryRunCompletes | runner/internal/exesubmission.go:60-111 | every faultless run can be continued until all is delivered |
| Delivery.RealLogsAreBounded | ajagent/internal/ajagent.go:75-76 | whatever the schedules, no log of a test or of the compiler exceeds the limit |
| Delivery.LinesFit | runner/internal/exesubmission.go:54-67 | logs within the limit and a cap above the size bound make every line of the agent fit |
| Delivery.WatcherSeesJudging | ajagent/internal/ajagent.go:99-158 | a client bound in time hears the agent's event stream up to the first line over the cap, and stops at the RESULT iff there is none |
| Delivery.JudgingCanBeWatched | dispatcher/internal/endpoints.go:166-200 | for everything judged there is a run in which a client bound first hears all of that |
| Delivery.VerdictIsLost | runner/internal/exesubmission.go:49-67 | with the shipped cap and any log limit above 87 KB, on any testset with a first test: a judged program that floods both streams, whose watcher hears nothing of a completed faultless run, not even the RESULT |
| Delivery.FailedReadNeverEnds | ajagent/internal/ajagent.go:47-55 | after a failed spec read, in every reachable state with any losses, cuts and late bindings, the client's generator has not ended |
| Delivery.HeardAcceptedIsSound | sdk/src/alpinejudge/client.py:129-148 | in every reachable state, with any losses, cuts and late bindings: a client that hears RESULT Accepted implies that there is a test and that every test was solved |
| Delivery.NelReachesClient | ajagent/internal/ajagent.go:139-149 | a testset without tests whose path has a raw U+0085 makes the client's generator raise at once, in a completed faultless run |
| Paths.JoinForm | shared/s3manager.go:144 | joining a prefix and a relative path puts the prefix's cleaned base in front of the path |
| Paths.JoinIsInjective | shared/s3manager.go:144 | different files get different keys and different local names |
| Paths.ResolveAgain | shared/s3manager.go:224 | cleaning what is clean changes nothing |
| Containment.CleanTwice | shared/s3manager.go:144 | cleaning is idempotent and never empty |
| Storage.Bucket.Put | shared/s3manager.go:103-115 | stores the object, or fails and leaves the bucket as it was |
| Storage.UploadOne | shared/s3manager.go:119-157 | one path of the walk: what reaching, opening, putting and closing do to the bucket and the outcome |
| Storage.UploadTree | shared/s3manager.go:119-157 | the walk below a directory: succeeds iff nothing fails, and then exactly the regular files are stored; otherwise it ends at the first failure |
| Storage.UploadDir | shared/s3manager.go:117-164 | of a directory: succeeds iff nothing fails, and then exactly the regular files are stored beside what was there; otherwise what was walked before the first failure, and that file only if just its closing failed; a root that is a file is stored under the cleaned prefix, any other root passed over, an unreachable one an error |
| Storage.LocalFiles.Download | shared/s3manager.go:166-193 | writes the whole object, nothing, or a part of it when the copy breaks off |
| Storage.DownloadDir | shared/s3manager.go:195-242 | without a fault fetches the wanted keys of all pages and succeeds iff a key was counted; the first failed listing or fetch ends it there, leaving what came before and possibly a part of one file |
| Storage.DownloadPage | shared/s3manager.go:215-234 | one page: markers skipped, wanted keys fetched, all others only counted, a failed fetch ends it there |
| Containment.StaysInside | shared/s3manager.go:220-224 | a relative part that does not lead up is put below the directory, at the path it amounts to |
| Containment.FetchedInsideIff | shared/s3manager.go:220-231 | for each directory and listed key: the key is written inside the directory iff its part behind the prefix does not lead up, or comes back down through the names it left (all of them, if the root stopped it) |
| Containment.FetchedInsideEverywhereIff | shared/s3manager.go:220-231 | a listed key is written inside whichever directory it is downloaded to iff that part does not lead up |
| Containment.KeyBesideEscapes | shared/s3manager.go:220-231 | for any prefix and any directory that ends in a name: a key behind the prefix that is written outside, and one that leads up and is written inside |
| Containment.UploadedStaysInside | shared/s3manager.go:144-224 | every key an upload under a clean prefix stored is written inside |
| Storage.KeyIsListedIff | shared/s3manager.go:199-206 | an uploaded file's key is listed under the prefix iff the prefix is clean |
| Storage.UploadDownloadRoundTrip | shared/s3manager.go:117-235 | under a clean, unused prefix, download into an empty directory restores exactly the `.in` and `.out` files, for any pagination |
| Storage.UncleanPrefixLosesAll | shared/s3manager.go:117-235 | under any other prefix nothing is listed and nothing is restored |
| Storage.RestoredIffClean | shared/s3manager.go:117-235 | together: a directory with test files is restored iff the prefix is clean |
| Testsets.RestoredByName | shared/s3manager.go:220-235 | a round trip restores a regular file, with its contents, iff its name ends in `.in` or `.out`, and nothing else |
| Testsets.JudgeFindsUploaded | shared/s3manager.go:117-235 | among the restored files the judge finds, for every index, the pair it would find in the uploaded directory, with the same contents |
| Testsets.JudgeCountsUploaded | ajagent/internal/ajagent.go:99-103 | so the number of tests is the same |
| Storage.NamesAreCleanPrefixes | shared/s3manager.go:199-201 | testset ids, with or without a slash, are clean prefixes; the empty prefix is not |
| Storage.SuccessMayFetchNothing | shared/s3manager.go:227-239 | success with nothing fetched iff some key does not end in a slash and none ends in `.in` or `.out` |
| Storage.ReadmeCountsAsFetched | shared/s3manager.go:227-239 | a testset holding one readme: the counter is above 0 and nothing is fetched |
| Storage.SharedKeyIff | shared/s3manager.go:199-206 | two prefixes can see a common key iff one listing prefix begins with the other |
| Storage.TestsetsAreIsolated | shared/s3manager.go:199-224 | slash-free ids see a common key iff they are equal |
| Storage.CheckIgnoresOthers | shared/s3manager.go:247-262 | objects of one testset do not change the existence check of another |
| Storage.CheckSeesUpload | shared/s3manager.go:247-262 | on an unused prefix the existence check is false before an upload, and true after it iff the prefix is clean and some file was uploaded |

## Left out

- Pipeline.ClientHearsSubsequence: assumes no second agent runs under the same submission id, which a redelivered job could bring about; loss of the broker connection is a failed publish or a client that leaves.
- Delivery.EveryRunCompletes: shows that a faultless continuation exists and that no other step delays the path; that the goroutines are scheduled fairly is not modelled.
- Storage.UploadDir: the walk is any order of the tree's paths; that the code's is lexical is not used.
- Storage.LocalFiles.Download: directories made on the way are not modelled; a name needed both as a file and as a directory is a refused fetch.
- SignalHandler.VerdictTellsCause: the threshold is computed with reals rather than float64, and a signal without a text of its own is printed as its number.
- RunTest, Engine, Pipeline: goroutines and endless `select` loops are step relations, because they have no end state to prove a loop against; their interleavings are what is proved.
- RunTest: unsynchronised reads of a buffer that a killed process's copier still fills are one step each; the choice is the code's own at each read of a flag.
- Json: the decoder is for objects of string members as these encoders write them: no white space, no surrogate escapes, and Go's case-insensitive key match is not needed.
- Wire: status and details are valid Unicode; only the logs are raw bytes.
- containerd, OCI specs, image pulls, sockets, the HTTP mux, environment lookup, request contexts: outside code, replaced by steps that succeed or fail.
- Containers left in the warm queue at shutdown: the code does not reclaim them, so nothing is claimed.
- The retry loop of `NewRMQManager`, the asynchronous uploads of stdout and stderr, the orchestrator's testset check: they change nothing the properties speak of, or overwrite one key in no fixed order. The language tables accept different names on the two sides, and nothing calls the monitor and scheduler stubs; the SDK's upload calls only build requests.
