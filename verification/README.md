# paceq: a verified model

paceq runs jobs: a job is frozen into a run with steps and dependency edges, an executor takes the run
under a lease, starts its steps one by one, retries the failed ones and closes the run. This project models
that system in Dafny 4.11 and proves what its documentation and comments promise of it, or shows exactly
where the code falls short. `dafny verify dfyconfig.toml` checks everything.

## How the model is built

The core is in four layers.

- `Machine` holds the run machine, the step machine and the aggregate as functions; `Tables` the rows of a
  run and every store transaction as a function from the rows it reads to the rows and events it commits.
- `Store` and `Engine` are the code's own form: classes whose methods change the tables step by step. Each
  store method is proved to perform its transaction; `ExecuteRun` is proved to take the steps of one
  executor of the protocol while cancellation requests and the clock interfere between any two accesses.
- `Protocol` is the transition system: creation, clock, requests, any number of executors and crashes
  interleaved freely, one action for one transaction or read. `Graph`, `History`, `Invariant` and `Safety`
  build the inductive invariant.
- `Results`, `Futures`, `Gates` and `Witness` are the theorems: over reachable states, over every
  continuation, over the lease, and concrete reachable runs. `Answers` is what the runner's answers make of the
  steps, `Upstream` what the `needs` of a job decide and `Journal` what rows and events say of why and by whom,
  each over every history. The rows named `Exactly` in `Gates` for a claim,
  a start, a record, a finish and an observed cancellation, `Gates.LeaseOfClaim`, `Gates.RequestIsSeen` and
  `Futures.SecondRequest` are readings of one transaction each: they pin the conditions the theorems rest on. `Fsck` is the sweep and what it
  says about reachable states.

Around it stand the self-contained parts: `LogLines`, `LogSink`, `LogTail` and `LogCodec` (one attempt's log,
from the bytes of the job to the records of a reader), `Json`, `JobDoc`, `JobKeys`, `JobWalk` and `JobSpelling`
(the canonical document and back), `JsonText` and `JsonGrammar` (what both encoders put on the page, and what the decoder accepts), `Migrate` (bringing a database
up to date with many processes at once), `Signals` (the TERM and KILL sequence), `Survey` (the measured
syntax tree and its aliases), `Duration`, `Prefix`, `Suggest`, `Backoff` and `Ledger` (the versions of jobs).
`Text`, `Utf8`, `Numerals` and `Wrappers` hold what several of them share.

## Where the code and its promises differ

Each of these is a theorem below, with the exact condition.

- A dependency cycle is not refused: its steps are skipped and the run succeeds (`Graph.SkipClosure`,
  `Witness.CycleEndsAsSuccess`).
- A run timed out by its own deadline can end as succeeded: a killed step with attempts left goes back to
  pending and is then skipped (`Futures.DeadlineVerdict`, `Witness.TimeoutEndsAsSuccess`).
- Nothing renews a lease, so an execution that outlives it is refused at the end; nothing takes over a run
  whose executor crashed or was refused, so it stays running for ever (`Gates.FinishEndsExactly`,
  `Gates.LateFinishOrphans`, `Witness.LeaseRunsOut`, `Futures.OrphanForever`). A step chosen after the run's deadline ends the same way (`Engine.Engine.RunStep`).
- `FinishRun` counts a cancelled step as failed, `RunAggregate` does not, and fsck's I10 flags healthy runs
  (`Results.FinishAgainstAggregate`, `Results.I10Exactly`).
- The first cancellation request does not fully stand when it named nobody (`Futures.SecondRequest`).
- A log that stops exactly at its head limit carries a marker that reports nothing, which sink.go:310-313
  says cannot be (`LogTail.MarkerExactlyWhen`).
- Output that is not UTF-8 does not survive its log, and two texts can leave one record
  (`LogCodec.TextSurvivesExactlyWhen`, `LogCodec.TwoTextsOneRecord`).
- A number with a fraction or an exponent in a stored document is neither honoured nor refused, although
  `wholeNumber` says it wants a whole one: 1.5 and 1e3 are read as 1 (`JobSpelling.WholeNumberExactly`,
  `JobSpelling.FractionsAreCut`).
- Applying a batch again moves `updated_at`, where apply.go:24-26 says byte for byte the same
  (`Ledger.ApplyAgain`).
- A migration file numbered 0000 makes 0001 be called missing although it is there (`Migrate.LoadMigrations`).
- An older build can put `user_version` back below the ledger (`Migrate.FenceExactlyWhen`).
- A step ceiling below a millisecond is written as zero, so two jobs with one normal form can have two
  documents (`JobDoc.SameBytesExactly`, `JobDoc.TinyCeilingShows`); no job file can ask for one, because
  `ParseDuration` reads nothing finer, so it reaches `Canonical` only through the `Job` type; bytes after a stored document are not refused (`JobDoc.TrailingBytesIgnored`).
- Zeros after a decimal point can push a duration out of range (`Duration.TrailingZerosCost`), and a back-off
  without a positive cap shrinks (`Backoff.GrowsExactlyWhen`).

## Model

| member | source | states |
|---|---|---|
| Machine.RunMoveObeys | internal/model/run_fsm.go:23-116 | Every accepted run move emits exactly one event; only an operator's retry leaves a terminal state; an end needs a reason code and stamps its time; a lease is taken exactly on entry to running, and released only by its valid holder |
| Machine.StepMoveObeys | internal/model/step_fsm.go:12-53 | Every accepted step move emits exactly one event and leaves an open state; an end needs a reason; the attempt is counted exactly on entry to running; a step goes back to pending exactly on a failure with attempts left |
| Machine.RunMovesWhen | internal/model/run_fsm.go:23-106 | For every state, event and set of guards, whether the run moves and to which state |
| Machine.RunEffects | internal/model/run_fsm.go:23-106 | The epoch, the start, the end, the lease and the kill are demanded exactly on the moves that need them |
| Machine.RequeueEffects | internal/model/run_fsm.go:41-106 | So are the crash count, the new due time and the reason of a deferral |
| Machine.StepMovesWhen | internal/model/step_fsm.go:12-53 | For every state, event and set of guards, whether the step moves and to which state |
| Machine.StepEffects | internal/model/step_fsm.go:12-53 | Each effect of a step is demanded exactly on the moves that need it |
| History.RunMovesExact | internal/model/run_fsm.go:23-106 | The drawn table of run moves (from, to, event name) is exactly what the machine does under some event and some guards, both directions |
| History.StepMovesExact | internal/model/step_fsm.go:12-53 | The same for the step machine |
| Machine.ApplyRun | internal/model/apply.go:18-29 | The loop over a history is the fold of the machine: last state, all effects in order, and the first refusal |
| Machine.ApplyStep | internal/model/apply.go:32-43 | The same for the step machine |
| Results.FoldRunAppend | internal/model/apply.go:18-29 | One more input after an accepted history moves on from its last state, with its effects after those before, or is the refusal that stands |
| Results.FoldRunStops | internal/model/apply.go:18-29 | After a refusal no input changes anything |
| Results.FoldStepStops | internal/model/apply.go:32-43 | The same for a step |
| Machine.RunAggregate | internal/model/aggregate.go:15-37 | The one-pass loop is the aggregate by rank: open, then failed, then cancelled, then succeeded; skipped counts as succeeded and queued is never the answer |
| Gates.ClaimExactly | internal/store/transitions.go:66-144 | A claim is let through exactly on a queued run that is due or carries a request, and which of the two decides between running under a new lease epoch and an end with no pending step; otherwise the reason refused |
| Gates.LeaseOfClaim | internal/store/transitions.go:84-101 | After a claim the lease is valid for its owner alone and for exactly the asked time, five minutes when none is asked |
| Gates.StartExactly | internal/store/transitions.go:214-255 | A step starts exactly when its run runs and it is pending, with one more attempt; each refusal characterised |
| Gates.RecordExactly | internal/store/transitions.go:331-419 | An outcome is recorded exactly on a step that expects it and with a reason; a failure parks the step exactly when attempts are left, at the planned time, else its end, else now; nothing else parks |
| Gates.FinishExactly | internal/store/transitions.go:434-507 | A run finishes exactly when running, leased by the caller, all steps ended and a reason given; the obstacle reported is the first in that order |
| Gates.ObserveExactly | internal/store/transitions.go:518-560 | A cancellation is observed exactly on a requested, running, leased run, and ends every pending step with it |
| Gates.LeaseIsNeverRenewed | internal/store/transitions.go:66-144 | Over every continuation a running run keeps the owner, epoch and expiry its claim gave it |
| Gates.LateFinishOrphans | internal/store/transitions.go:434-481 | An execution that reaches FinishRun after its lease expired is refused, and its run stays running for ever with all steps ended |
| History.ClaimFollows | internal/store/transitions.go:66-144 | What a claim writes to the rows and what it writes to the log tell one story: one event a changed step and one for the run, each from the old state to the new |
| History.StartFollows | internal/store/transitions.go:214-255 | The same for StartStep |
| History.RecordFollows | internal/store/transitions.go:331-419 | The same for RecordStepOutcome, park included |
| History.FinishFollows | internal/store/transitions.go:434-507 | The same for FinishRun |
| History.ObserveFollows | internal/store/transitions.go:518-560 | The same for ObserveRunCancel and the steps it skips |
| Journal.PendingInOrder | internal/store/transitions.go:623-643 | The pending steps are read once each, from the first to the last |
| Journal.ClaimWrites | internal/store/transitions.go:66-144 | The events of a claim word for word: the start by its owner, or one skip for every pending step in order and then the end by whoever asked, with the rows they speak of |
| Journal.ObserveWrites | internal/store/transitions.go:518-560 | The same for an observed cancellation, which gives the lease back |
| Journal.StartWrites | internal/store/transitions.go:214-255 | The one event of a start |
| Journal.RecordWrites | internal/store/transitions.go:331-419 | The event of an outcome names the states before and after and the reason the row has; a gate stands in the row exactly while the step is pending |
| Journal.FinishWrites | internal/store/transitions.go:434-507 | The event of an end, and the row it leaves |
| Journal.FreshReasoned | internal/store/materialize.go:53-156 | The event a new run starts its history with, by whoever asked or the system |
| Journal.FinishCodeExactly | internal/engine/execute.go:352-373 | The reason a run is finished with: its deadline, else what the first failed or cancelled step says, else success |
| Journal.ReasonsStand | internal/store/transitions.go:66-560 | In every reachable state each run has a reason and a lease its state allows and each skipped step the reason of its skip, and every event of the log says one of the things it may say, by somebody |
| Store.Store.ClaimRun | internal/store/transitions.go:66-144 | The method performs the claim transaction: whole on its run and the log, or nothing |
| Store.Store.SkipPendingSteps | internal/store/transitions.go:645-688 | The loop moves every pending step, and no other, through the machine, one event each in index order |
| Store.Store.RequestCancel | internal/store/transitions.go:151-189 | Column by column the first request stands |
| Gates.RequestIsSeen | internal/store/transitions.go:151-208 | After a request the executor's read sees one, by the name that was there before or else by the one who asked now |
| Gates.FirstRequest | internal/store/transitions.go:151-189 | What the first request leaves in its three columns, an empty name as none; every other column stays |
| Store.Store.StartStep | internal/store/transitions.go:214-255 | The method performs the start transaction |
| Store.Store.RecordStepOutcome | internal/store/transitions.go:331-419 | The method performs the record transaction, retry plan and park time included |
| Store.Store.JudgeSteps | internal/store/transitions.go:446-466 | The loop decides whether all steps ended and whether one failed or was cancelled |
| Store.Store.FinishRun | internal/store/transitions.go:434-507 | The method performs the finish transaction on the steps as they stand |
| Store.Store.ObserveRunCancel | internal/store/transitions.go:518-560 | The method performs the cancellation transaction |
| Store.Store.InsertSteps | internal/store/materialize.go:162-181 | The nested loops write one pending row with its attempt budget a step and every edge, and are refused exactly when a name or a need repeats |
| Store.Store.Materialize | internal/store/materialize.go:53-156 | Run, steps, edges and the queued event land together, or nothing does, exactly when a key repeats |
| Graph.SkipClosure | internal/store/transitions.go:566-573 | In rows where nothing is runnable any more, a step is skipped exactly when it transitively depends on a failed step or stands on or below a cycle; which edges these are `Upstream.NeedsAre` says |
| Graph.SkipClosureAcyclic | internal/store/transitions.go:566-573 | With a rank for the edges, exactly when it transitively depends on a failed step |
| Upstream.FreshIsMade | internal/store/materialize.go:162-181 | The rows of a new run: every step of the specification, pending, with as many attempts as its retries allow |
| Upstream.InsertableExactly | internal/store/materialize.go:162-181 | The keys of the two tables take a specification exactly when no two steps have one name and no step names a need twice |
| Upstream.NeedsAre | internal/store/materialize.go:162-181 | One step depends on another exactly when its `needs` name it |
| Upstream.NextIsFirstReady | internal/store/transitions.go:566-573 | The step taken next is the first that is pending, past its gate and has all its `needs` succeeded, and none is taken exactly when there is none |
| Upstream.RunsAreMade | internal/store/materialize.go:53-156 | In every history every run keeps the names, budgets and edges of the specification it was created from |
| Upstream.NeedsComeFirst | internal/store/transitions.go:566-573 | In every history no step of a run has started before each of the steps its `needs` name had succeeded |
| Upstream.TriesAreBudgeted | internal/store/materialize.go:162-181 | In every history no step is launched more often than once and its retries |
| Upstream.SkippedExactly | internal/engine/execute.go:63-146 | In every history a run that ended by running out of work skipped exactly the steps above which, along the `needs`, a step failed or a cycle lies, and failed exactly when a step did |
| Safety.Access | internal/engine/execute.go:31-127 | Every access an executor makes to the store keeps the row invariant, writes events that match, and leaves the facts its next program point relies on |
| Safety.StepKeeps | internal/engine/execute.go:31-127 | Every action of the system (creation, clock, requests, calls, accesses, crashes) keeps the invariant of all runs and executors |
| Safety.RunKeeps | internal/engine/execute.go:31-127 | So does every sequence of actions |
| Safety.ReachableOk | internal/engine/execute.go:31-127 | So the invariant holds in every reachable state, under any interleaving |
| Results.NothingOpenUnderAnEnd | internal/engine/execute.go:52-112 | In every reachable state no finished run has an open step, no step runs while its executor is at the loop head, and no run has two executors past their claim |
| Results.FinishedRunClosure | internal/engine/execute.go:63-146 | In every reachable run that ended other than by its deadline or a cancellation, the skipped steps are exactly the dependents of failed ones or of a cycle, the others ended by themselves, and the run failed exactly when a step did; without cycles, exactly the transitive dependents |
| Results.AttemptsAreBudgeted | internal/store/transitions.go:331-387 | Attempts equal the step.started events, a pending step has one left, and all launches of a run stay within the sum of the budgets |
| Results.WakingFindsWork | internal/store/transitions.go:596-620 | A parked step has all upstreams succeeded, so when the awaited time has come some step is runnable |
| Results.EventChainHolds | internal/store/transitions.go:645-698 | In every partition of the log each event starts where the one before ended |
| Results.ReplayRebuildsTheRows | internal/model/apply.go:18-43 | For every run and step of every reachable state there is a history the pure machine accepts, whose emissions are the stored events and whose last state is the stored one |
| Results.EveryRunHasOneStory | internal/model/run_fsm.go:23-106 | A run's events are queued, or queued and started at most once, then at most one end; a cancelled run has a recorded request |
| Results.FinishAgainstAggregate | internal/store/transitions.go:446-466 | FinishRun's verdict is the aggregate exactly unless a step was cancelled and none failed; then it says failed where the aggregate says cancelled |
| Answers.RecordedAsAnswered | internal/engine/execute.go:270-335 | Recording what the engine makes of an answer is never refused; it leaves the step succeeded exactly on a success, cancelled exactly on a kill that was asked for, else parked until its end and the delay while attempts are left and failed when none is, with the reason of that answer, and nothing else changed |
| Answers.StandsByItsAnswer | internal/engine/execute.go:168-335 | In every history each step that was launched and does not run stands by the answer of its last launch, with its reason and the time of its next attempt |
| Answers.AnswerIsRecorded | internal/engine/execute.go:331-335 | In every history an executor that has an answer gets it recorded, and leaves its loop exactly when the run's own deadline killed the step |
| Results.I10Exactly | internal/store/fsck.go:74-120 | When the sweep's I10 is silent about a reachable run: never about a queued one, about a running one exactly while a step is open, about a cancelled one exactly when a step was cancelled and none failed |
| Futures.AloneWithTheRun | internal/engine/execute.go:52-112 | Whatever all others do, a claimed run changes only by its own executor, but for the request columns |
| Futures.RequestTimeStands | internal/store/transitions.go:151-189 | Once set, the time of a cancellation request never changes in any continuation, and neither do the steps and edges of a run |
| Futures.SecondRequest | internal/store/transitions.go:151-189 | A second request changes nothing exactly when the first named somebody or the second names nobody: an empty name is stored as NULL, which COALESCE fills later |
| Futures.CrashOrphans | internal/engine/execute.go:52-112 | A crash at any point past the claim leaves the run running with nobody to execute it |
| Futures.OrphanForever | internal/store/transitions.go:66-144 | Such a run never moves again in any continuation: no store method takes it back, and a request does not end it |
| Futures.DeadlineVerdict | internal/engine/execute.go:63-126 | A run whose deadline killed a step ends failed exactly when that step had no attempt left or another had failed; otherwise it succeeds under the timeout's reason code |
| Witness.CycleEndsAsSuccess | internal/engine/execute.go:63-146 | A reachable run of one step that needs itself: skipped though nothing failed, the run succeeded |
| Gates.FinishEndsExactly | internal/store/transitions.go:434-481 | In every reachable state an executor before FinishRun ends its run exactly when its lease has not run out: owner, reason and steps never stand in the way |
| Witness.LeaseRunsOut | internal/store/transitions.go:434-481 | A reachable state whose executor stands before FinishRun with every step ended and the lease past, and which its next access leaves orphaned |
| Witness.TimeoutEndsAsSuccess | internal/engine/execute.go:168-335 | A reachable run timed out by its own deadline that ended as succeeded |
| Engine.Engine.ExecuteRun | internal/engine/execute.go:31-127 | With cancellation requests and the clock interfering between any two accesses, the method takes the steps of one executor, its loop terminates, its verdict is the stored state, a run finished by running out of work is closed as FinishedRunClosure says, and an error after the claim leaves an orphan |
| Engine.Engine.Loop | internal/engine/execute.go:52-112 | The loop ends because every round spends an attempt of the budget or waits for a retry that is due when it wakes |
| Engine.Engine.RunStep | internal/engine/execute.go:168-335 | The method opens the attempt, runs the process and records its verdict: what the runner answered, with whose deadline, decides the state, reason and gate of the stored step (`Engine.Judged`), whether the run's time is spent and how long it waits; each attempt lowers the budget left |
| Engine.Engine.OutcomeOf | internal/engine/execute.go:265-335 | The event is a success, a cancellation or a failure exactly as the runner says; a retry is planned exactly for a failure with attempts left that is not the run's own deadline, after a delay its policy allows, and the answer is refused only when the back-off panics |
| Engine.PolicyDefaults | internal/engine/retry.go:13-42 | Every field a retry block leaves out has its default: exponential, thirty seconds, ten minutes, full jitter |
| Engine.Engine.FinishReason | internal/engine/execute.go:352-372 | The loop names a spent run budget first, then the first failed or cancelled step, then success |
| Engine.Engine.SkipPending | internal/engine/execute.go:130-147 | Every step still pending leaves through its own transaction in index order, after which none is open |
| Fsck.SweepLog | internal/store/fsck.go:182-216 | One walk over the log reports exactly the runs with a partition whose chain breaks |
| Fsck.Sweep | internal/store/fsck.go:43-216 | The sweep reports exactly the rows that break I2, I10 or I15 |
| Fsck.SweepOfReachable | internal/store/fsck.go:43-216 | On every reachable state the sweep reports no I2 and no I15 violation, and I10 exactly where I10Exactly says |
| Backoff.Delay | internal/retry/backoff.go:46-79 | Despite int64 wrap the delay without jitter is the initial delay doubled, capped; with jitter it lies between zero and that, and the draw panics exactly at the largest int64 |
| Backoff.GrowsExactlyWhen | internal/retry/backoff.go:46-79 | The delay is monotone in the attempt exactly for a fixed policy, a positive cap or an initial delay of zero |
| Backoff.EachDoubles | internal/retry/backoff.go:46-79 | With a cap, the first delay is the initial one and each later one twice the one before, never beyond the cap |
| LogLines.FeedLosesNothing | internal/logsink/sink.go:165-204 | The pieces of one Write with their newlines restored, then the partial line, are the bytes that came in |
| LogLines.FeedKeepsWindows | internal/logsink/sink.go:165-204 | A Write keeps back less than a window and hard-splits only a full one |
| LogLines.StreamLosesNothing | internal/logsink/sink.go:165-204 | The same for any slicing of a stream into writes |
| LogLines.ChunksDoNotMatter | internal/logsink/sink.go:165-204 | When every line is shorter than a window the pieces are the newline split of the stream, however it was sliced |
| LogLines.SliceMattersExactlyWhen | internal/logsink/sink.go:165-204 | Handing over a line with its newline, or the newline after it, gives the same pieces exactly when the line is shorter than a window |
| LogSink.Ring.Push | internal/logsink/quota.go:31-48 | The loop keeps the longest suffix that fits, and returns how many bytes of the job's own the lines that went held |
| LogSink.LongestFitOfAll | internal/logsink/quota.go:31-48 | Doing so line by line keeps the longest suffix that fits of all lines, and the evicted bytes add up |
| LogSink.TextTail.Add | internal/logsink/quota.go:76-81 | The buffer is the newest cap bytes of everything said |
| LogSink.Assembler.Write | internal/logsink/sink.go:165-204 | The two loops give the sink exactly the pieces of the recursive cut, on this stream, and keep the rest |
| LogSink.Assembler.FlushPartial | internal/logsink/sink.go:215-222 | An unterminated line goes out as one split piece, an empty one not at all |
| LogSink.Sink.Writer | internal/logsink/sink.go:143-149 | Every writer is a new assembler of its own stream with nothing waiting, after those handed out before |
| LogSink.Sink.WriteLine | internal/logsink/sink.go:269-296 | A line is numbered, shown to the error tails and kept by head or ring; the pieces taken are the old ones and this one |
| LogSink.Sink.Write | internal/logsink/sink.go:299-318 | One line more, and the books of head, ring, dropped bytes and phase still describe all lines taken |
| LogSink.Sink.Emit | internal/logsink/sink.go:227-248 | A mark of the system takes a number and no job bytes |
| LogSink.Sink.Finish | internal/logsink/sink.go:326-367 | The remainders go out in writer order; the file is then the head, and once the head limit was reached the marker and the longest suffix that fits; the text returned is the newest 4 KiB of the error stream, or of everything when that is silent |
| LogTail.QuotaHolds | internal/logsink/sink.go:299-389 | The finished file is at most the quota, the line that filled the head, and the marker |
| LogTail.NothingVanishes | internal/logsink/sink.go:372-389 | With the lines' texts strung together: what was taken is what stands in the file before the marker, what was lost and what stands after it, the marker counts the bytes lost, and file and marker make up all |
| LogSink.ErrorTextIs | internal/logsink/quota.go:69-93 | The text Finish returns is the newest 4096 bytes of what was said to stderr, of everything when nothing was |
| LogSink.SaidInOrder | internal/logsink/sink.go:261-289 | What was said is every piece with a newline after it in the order they came, and to stderr only those of stderr |
| LogTail.LinesLostExactlyWhen | internal/logsink/quota.go:31-48 | No line is missing exactly when everything after the head fits the ring |
| LogTail.MarkerExactlyWhen | internal/logsink/sink.go:299-368 | The marker is there exactly when the head limit was reached, and the truncated flag exactly when it was reached before the last line: a log that stops at its limit carries an empty marker, which the comment at sink.go:310-313 denies |
| LogTail.SeqCheck.Next | internal/logsink/tail.go:30-43 | The gap before a number, against the last one seen, and the new baseline |
| LogTail.Walk | internal/logsink/tail.go:13-43 | Walking a whole file through the checker reports before each line the gap its number and the one before it make |
| LogTail.GapIsBetween | internal/logsink/tail.go:30-45 | The gap counts the numbers between the last one and this one |
| LogTail.GapOnlyAtTheMarker | internal/logsink/tail.go:30-43 | Over a finished file the checker reports one gap, before the marker, of as many numbers as there were lines after the head, and none anywhere else |
| LogTail.ReadFrom | internal/logsink/tail.go:53-96 | The loop hands over the lines of the recursive read, resumes after the last complete one, and adds the trailing fragment only when asked |
| LogTail.PollAgain | internal/logsink/tail.go:53-96 | A poll after the file grew continues the one before: together they are one read |
| LogTail.FollowIsOneRead | internal/logsink/tail.go:53-96 | Any number of polls of an append-only file hand over what one read of its last state does, each complete line once and in order |
| LogTail.SealedPlaces | internal/logsink/sink.go:326-389 | A finished file is lines 1 to h as they were taken, the marker with N + 1 exactly when the head limit was reached, and a contiguous suffix up to N, each line in its own bytes |
| LogTail.FileReadsBack | internal/logsink/tail.go:53-105 | A reader whose decoder recovers every record of a file gets each of them once, in order, and stops drained at the file's end |
| LogTail.FragmentExactly | internal/logsink/tail.go:80-88 | After a torn last line every whole line is read once and in order, and the rest is handed over exactly when asked for, not blank and not refused |
| LogCodec.TextBack | internal/logsink/sink.go:269-296 | A string of any bytes, written with the escapes of json.Marshal, reads back as its repair, whatever follows its closing quote |
| LogCodec.LineBack | internal/logsink/tail.go:97-105 | Every record of int64 numbers is one line, and json.Unmarshal of it gives every field back, the text repaired |
| JsonText.RecordWritten | internal/logsink/sink.go:38-48 | The text of a record: its keys in order, the last four left out when empty, nothing between the tokens |
| JsonText.MarshalledExactly | internal/logsink/sink.go:38-48 | Which bytes of a log's text are escaped, and how |
| JsonText.WideExactly | internal/logsink/sink.go:38-48 | Every character past ASCII stands as it is, but for U+2028 and U+2029 |
| JsonText.KeysSet | internal/logsink/tail.go:98-105 | Which field each key sets, and that any other sets none |
| JsonText.RecordsRead | internal/logsink/tail.go:98-105 | Bytes that hold no value, a value and more, or neither an object nor null are refused; an empty object and null are a record of nothing |
| LogCodec.TextSurvivesExactlyWhen | internal/logsink/sink.go:269-296 | The text of a line comes back byte for byte exactly when it was UTF-8 |
| LogCodec.TwoTextsOneRecord | internal/logsink/sink.go:277-289 | Two different texts leave the same bytes in the log |
| LogCodec.SealedReadsBack | internal/logsink/tail.go:53-105 | Whatever bytes the job wrote, a reader of its finished log gets lines 1 to h, the marker with N + 1, and a contiguous suffix up to N, each as it was taken but for the repair of its text, and is then at the end |
| Utf8.FirstOfOne | internal/logsink/sink.go:277-289 | Every character is read back from its own bytes, whatever follows: no shorter, longer or surrogate form is taken for it |
| Utf8.FirstExactly | internal/logsink/sink.go:277-289 | What is read first is a character exactly when the text starts with one's bytes, and then that one; otherwise U+FFFD and one byte |
| Utf8.KnownBytes | internal/logsink/sink.go:277-289 | The examples of section 7 of RFC 3629 |
| Utf8.RepairOf | internal/logsink/sink.go:277-289 | The repair of valid UTF-8 is the text it encodes |
| Suggest.Distance | internal/diag/suggest.go:61-90 | The two-row loop is the edit distance |
| Suggest.DistIsLeastCost | internal/diag/suggest.go:61-90 | That distance is the least number of inserts, deletes and substitutions of any script turning one text into the other, and some script costs just that |
| Suggest.DistSymmetric | internal/diag/suggest.go:61-90 | It is symmetric |
| Suggest.Triangle | internal/diag/suggest.go:61-90 | It satisfies the triangle inequality, by composing scripts |
| Suggest.DistZeroExactlyWhenEqual | internal/diag/suggest.go:61-90 | It is zero exactly between equal texts |
| Suggest.Closest | internal/diag/suggest.go:23-57 | The answer is empty for an exact match or when nothing is near, otherwise the first by distance, length in bytes and alphabet among those near |
| Suggest.AwayExactly | internal/diag/suggest.go:23-57 | A name that extends what was written is no distance away, any other its edits |
| Suggest.BytesOf | internal/diag/suggest.go:23-57 | The length that breaks ties is that of the UTF-8 |
| Suggest.OrderDoesNotMatter | internal/diag/suggest.go:13-22 | The answer is the same for any order and repetition of the known names |
| Prefix.NormalizePrefix | internal/id/prefix.go:25-54 | Trimmed and upper-cased text over the alphabet, or the first character outside it, or the excess length, in that order |
| Prefix.UpperIs | internal/id/prefix.go:26-56 | A letter typed in either case is that letter, and anything else stays |
| Prefix.IdsAre | internal/id/id.go:16-20 | What an id is: twenty-six characters of the alphabet |
| Prefix.Successor | internal/id/prefix.go:87-98 | The carry over the byte slice is the recursive successor |
| Prefix.NextIsNext | internal/id/prefix.go:87-98 | No text of the same length lies between a prefix and its successor, and none above a prefix without one |
| Prefix.RangeIsPrefix | internal/id/prefix.go:58-77 | For every prefix and id, the id lies in the range exactly when it starts with the prefix, the carry off the left end included |
| Prefix.PrefixRange | internal/id/prefix.go:58-77 | From raw input: the range of exactly the ids that start with what was typed, or the complaint about it |
| Duration.MulChecked | internal/spec/duration.go:187-196 | On int64 with wrap-around the product, or a refusal exactly when it is out of range |
| Duration.AddChecked | internal/spec/duration.go:198-204 | The sum, or a refusal exactly when it is out of range |
| Duration.DigitsValue | internal/spec/duration.go:173-185 | The value of a run of digits, or a refusal exactly when it is out of range |
| Duration.ParseDurationPart | internal/spec/duration.go:85-122 | One number and unit, read and weighed as the specification function says |
| Duration.ParseDuration | internal/spec/duration.go:53-80 | The loop is the specification parser, and what it returns is an int64 |
| Duration.ParsesExactly | internal/spec/duration.go:53-122 | A text is accepted exactly when it is written from number and unit pairs that fit the range and are no finer than a millisecond, and the result is their sum |
| Duration.TotalIsExact | internal/spec/duration.go:107-121 | That sum is the exact rational sum of what was written: no rounding |
| Duration.OuterExactly | internal/spec/duration.go:53-63 | A text is refused as empty, for outer spaces, for a sign or for inner spaces exactly when it has them, in this order |
| Duration.InnerExactly | internal/spec/duration.go:65-149 | Any other refusal is about what stands after the parts that could be read: no number, a point without digits or with too many, no unit or another, out of range, finer than a millisecond, or nothing but zeros |
| Duration.TrailingZerosCost | internal/spec/duration.go:103-121 | One duration, read as 10000000s and refused as out of range with zeros after the point |
| Duration.OneOfEach | internal/spec/duration.go:25-30 | What one of each unit is in nanoseconds |
| Duration.FormatDuration | internal/spec/duration.go:208-226 | The loop over the units writes the parts of the specification function |
| Duration.FormatExactly | internal/spec/duration.go:208-226 | What is written are the hours, the minutes below an hour, the seconds below a minute and the milliseconds left, without the zeros |
| Duration.FormatParsesBack | internal/spec/duration.go:208-226 | For every int64 duration, what is written parses back to its whole milliseconds, and is refused when it has none |
| Migrate.LoadMigrations | internal/store/migrate.go:394-453 | The set is accepted exactly when the files are a numbering from one; otherwise a number two files claim is named, or the first number no file has; with a file numbered 0000 that is always 0001, whether it is there or not |
| Migrate.CheckOf | internal/store/migrate.go:338-365 | Against a ledger 1..m a build of k migrations passes exactly when m <= k, and otherwise misses k + 1 |
| Migrate.CheckExactly | internal/store/migrate.go:338-365 | Whatever the ledger and the files, the check passes exactly when every row is carried with its checksum and no file that waits is numbered below what has run; a refusal names the first row that does not fit or, when all do, the first file that came too late |
| Migrate.LedgerStands | internal/store/migrate.go:97-156 | With any number of processes of any builds of one set, started, interleaved and crashed at any point and whatever the lock does, the ledger is 1..m and each migration above the start ran once, in order |
| Migrate.DoneMeansApplied | internal/store/migrate.go:97-156 | A process that ends well leaves its whole set applied |
| Migrate.FenceExactlyWhen | internal/store/migrate.go:317-321 | user_version equals the height of the ledger in every run exactly when no two builds with something to apply differ; a newer build overtaking an older one's repair leaves it too low |
| Migrate.FenceFalls | internal/store/migrate.go:122-131 | For any two such builds, a run that ends with user_version below the ledger |
| Migrate.Database.Migrate | internal/store/migrate.go:97-156 | With others applying and repairing in between: success leaves the set applied, a refusal leaves nothing written, and only a build older than the ledger is refused for what it holds |
| Migrate.Database.Apply | internal/store/migrate.go:541-599 | One transaction: applied and recorded with the fence, or nothing; an applied migration is not run again |
| Signals.AtMostOneOfEach | internal/runner/signal.go:79-107 | Over every interleaving at most one TERM and one KILL are sent, to the command's group, the KILL after the TERM and the grace |
| Signals.NothingAfterReturn | internal/runner/runner.go:150-191 | Over every continuation of a returned Run only the world acts and no signal follows |
| Signals.SilentExactlyWhen | internal/runner/signal.go:79-93 | A returned Run sent no signal exactly when nothing fired or it fired before the group was known, which only a cancelled context can do |
| Signals.EarlyIsSpent | internal/runner/signal.go:79-93 | Once it fired that early no continuation sends a signal, not even by the deadline |
| Signals.FailedStartIsQuiet | internal/runner/runner.go:150-191 | Once the command could not be started nothing is ever sent, whatever the context and the clock do |
| Signals.FlagsExactly | internal/runner/signal.go:79-119 | Over every interleaving each flag is up exactly when the action that raises it has happened |
| Signals.StubbornIsKilled | internal/runner/signal.go:98-107 | While Run waits for a command whose group got the TERM, the KILL was sent or is held up by nothing but the grace |
| Signals.OwnStepsRunOut | internal/runner/runner.go:150-191 | In every reachable state every step of Run and its helpers lowers a measure the outside world cannot raise |
| Signals.NeverStuck | internal/runner/runner.go:150-191 | Once the command has ended, a step of its own is always possible until Run returns: stopping waits out no grace |
| Survey.SurveyTree | internal/spec/survey.go:28-86 | The stack loop accepts exactly the trees whose recursive measures fit, which no order of visiting changes, with their table of anchors, and otherwise names a limit the whole tree does break |
| Survey.AcceptedExactly | internal/spec/survey.go:28-86 | A tree is accepted exactly when it has at most 20000 nodes, 100 aliases and 32 levels of mappings and sequences, no tag, and anchors that each have a name of their own |
| Survey.OneAnchorTable | internal/spec/survey.go:93-110 | One tree declares one table of anchors |
| Survey.Resolver.Resolve | internal/spec/survey.go:156-198 | The loop and its call of itself answer as the recursion on the budget does, leave the open names as they were, and end |
| Survey.ResolvesExactly | internal/spec/survey.go:156-198 | A value is answered exactly when the chain of aliases comes to one within the budget; an undefined name or a chain that meets itself means no budget would have done |
| Json.UnquotesBack | internal/spec/canonical.go:101-143 | Every string reads back as it was, whatever follows its closing quote (RFC 8259 section 7) |
| Json.EscapesEverything | internal/spec/canonical.go:101-143 | No control character is left bare; every quote follows an odd run of backslashes, and every backslash that starts an escape is followed by a letter the format knows |
| JsonText.EscapedExactly | internal/spec/canonical.go:101-143 | Each character has its own escape or stands as it is |
| JsonText.EscapedInOrder | internal/spec/canonical.go:101-143 | A string is escaped character by character |
| JsonText.WrittenExactly | internal/spec/canonical.go:50-86 | Every kind of value is written by the grammar of RFC 8259 with commas and colons and nothing else between its parts, a number without leading zeros |
| JsonText.NormIsSorted | internal/spec/canonical.go:50-64 | At every depth the members of an object stand in the order of their keys |
| JsonText.LessExactly | internal/spec/canonical.go:50-64 | That order is decided by the first character that differs, a prefix coming first |
| Json.ReadsBack | internal/spec/canonical.go:50-86 | Every value reads back as it was written, whatever follows it; after a number only what can follow one |
| Json.SpacesDoNotMatter | internal/spec/ir.go:19-29 | With any white space between its tokens, every value reads back as it was |
| JsonGrammar.ReadsExactly | internal/spec/ir.go:19-29 | A value is read off a text exactly when the text starts with one of its spellings by the grammar of RFC 8259, in any white space and with any escapes; a spelling has one value |
| JsonGrammar.DecodesExactly | internal/spec/ir.go:19-29 | A text decodes to an object exactly when it is white space, a spelling of it and anything after |
| JsonGrammar.UnescapeIs | internal/spec/ir.go:19-29 | What each letter after a backslash stands for, and that no other may stand there |
| JsonGrammar.UnicodeIs | internal/spec/ir.go:19-29 | What four digits stand for: a character, two halves that make one, or U+FFFD for a half alone |
| JsonGrammar.HexReads | internal/spec/ir.go:19-29 | Which characters are digits of an escape, in either case, and their worth |
| JsonGrammar.UnitReads | internal/spec/ir.go:19-29 | Four of them are one number, the first the highest |
| Json.DecodesBack | internal/spec/canonical.go:50-86 | A canonical document reads back as the value with the members of every object sorted |
| Json.EncodesInjectively | internal/spec/canonical.go:50-86 | Two values have one text exactly when they differ in nothing but the order of members |
| Json.OrderDoesNotMatter | internal/spec/canonical.go:50-64 | Whatever order the members of an object are listed in, its text is the same |
| Json.Buffer.EncodeString | internal/spec/canonical.go:101-143 | The loop appends the quoted string |
| Json.Buffer.EncodeValue | internal/spec/canonical.go:50-86 | The encode methods append the canonical text of the value |
| JobWalk.StringMap | internal/spec/canonical.go:283-291 | The environment, ranged over in any order, normalises to the same object |
| JobWalk.CanonicalText | internal/spec/canonical.go:149-291 | Building the document and encoding it gives the one canonical text of the job |
| JobKeys.RetryWritten | internal/spec/canonical.go:225-233 | Under which key each field of a retry block stands, in whole milliseconds where it is a time |
| JobKeys.StepWritten | internal/spec/canonical.go:198-223 | The same for a step, and when a key is absent |
| JobKeys.ScheduleWritten | internal/spec/canonical.go:235-245 | The same for a schedule |
| JobKeys.SensorWritten | internal/spec/canonical.go:247-257 | The same for a sensor |
| JobKeys.JobWritten | internal/spec/canonical.go:169-196 | The same for the job |
| JobWalk.EachMember | internal/spec/ir.go:269-276 | The walk visits every member once, in some order, and stops at the first refusal |
| JobWalk.RetryInEveryOrder | internal/spec/ir.go:159-193 | In every order of its members a retry block reads as the same record, or is refused |
| JobWalk.StepInEveryOrder | internal/spec/ir.go:114-157 | The same for a step |
| JobWalk.JobInEveryOrder | internal/spec/ir.go:19-110 | The same for the whole document |
| JobWalk.ReadDocument | internal/spec/ir.go:19-110 | FromIR with the walk answers as the specification function does |
| JobKeys.RetryExactly | internal/spec/ir.go:159-193 | A retry block is read as a record exactly when its members, key by key, say that record and no other key stands in it |
| JobKeys.StepExactly | internal/spec/ir.go:114-157 | The same for a step |
| JobKeys.ScheduleExactly | internal/spec/ir.go:195-228 | The same for a schedule |
| JobKeys.SensorExactly | internal/spec/ir.go:230-265 | The same for a sensor |
| JobKeys.JobExactly | internal/spec/ir.go:19-110 | The same for the whole document, schema and name included |
| JobKeys.DocumentExactly | internal/spec/ir.go:19-110 | A text is accepted as a job exactly when it is white space, a spelling of an object whose members say that job, and anything after |
| JobKeys.LastCounts | internal/spec/ir.go:19-29 | Of two members with one key the later counts |
| JobKeys.RefusalsTell | internal/spec/ir.go:19-110 | Which refusal a value that is no job gets: no object, another schema or another defect of its members, no schema, no name |
| JobSpelling.WholeNumberExactly | internal/spec/ir.go:294-304 | A literal of a whole part and anything a number may go on with is read as that whole part, and refused exactly when no int64 holds it; it is cut short exactly when it has a fraction or an exponent |
| JobSpelling.FractionsAreCut | internal/spec/ir.go:294-304 | Two documents whose values agree once every number is cut to its whole part are answered alike by FromIR |
| JobSpelling.AnySpellingReadsBack | internal/spec/ir.go:19-265 | Every spelling of a job's canonical document, with any white space between tokens and any fraction after its numbers, is read as its normal form |
| JobDoc.ReadsBackNormal | internal/spec/ir.go:19-265 | For every job of int64 numbers, FromIR of its canonical text is its normal form |
| JobDoc.SameBytesExactly | internal/spec/canonical.go:169-291 | The bytes of two jobs agree exactly when their normal forms do and the same steps have a ceiling: one below a millisecond is written as zero, none is not written |
| JobDoc.TinyCeilingShows | internal/spec/canonical.go:207-213 | Two jobs with one normal form and different bytes: a step ceiling of a nanosecond, which no job file can ask for, and none |
| JobDoc.SameBytesWholeCeilings | internal/spec/canonical.go:169-291 | Where no step asks for less than a millisecond, exactly when the normal forms agree |
| Json.TailIsIgnored | internal/spec/ir.go:19-29 | What follows an object is not looked at by the decoder |
| JobDoc.TrailingBytesIgnored | internal/spec/ir.go:19-29 | Bytes after the document are not refused: FromIR answers as if they were not there |
| Ledger.WriteKeeps | internal/store/jobs.go:91-144 | One spec keeps every version row, the numbering and the uniqueness of hashes, makes a version exactly for a new hash, and points the job at it |
| Ledger.WriteExactly | internal/store/jobs.go:91-144 | When a write is refused and when it makes a version: the new row holds the id, job, hash, document, path and time of the call, a known hash answers with the row there is |
| Ledger.UpsertExactly | internal/store/jobs.go:119-144 | The row of the job after a write, column by column |
| Ledger.HistoryTells | internal/store/apply.go:44-80 | Over any sequence of batches a job's versions are numbered from one, one for each distinct hash in the order first seen, and the job points at the last hash given |
| Ledger.RowsAreKept | internal/store/jobs.go:109-118 | A version row, once written, stays in the table as it was |
| Ledger.HistoryFreezes | internal/store/apply.go:44-80 | Over any sequence of batches every version holds the document and the path its job and hash were first given with |
| Ledger.ApplyAnswers | internal/store/apply.go:44-80 | Each spec of a batch is answered, in order, with the version that now stands for it |
| Ledger.ApplyAgain | internal/store/apply.go:23-80 | Applying a batch again is never refused and makes no version; the tables are the same byte for byte, as the comment says, exactly when no time has passed or the batch is empty, because updated_at moves |
| Ledger.Shelf.WriteJobVersion | internal/store/jobs.go:91-144 | The method performs the write, or refuses and writes nothing |
| Ledger.Shelf.ApplyJobs | internal/store/apply.go:44-80 | The whole batch or none of it |

## Left out

- SQLite itself, its pragmas, connection pools and busy retries: a transaction is one atomic step, a statement a function on rows; a database error is not modelled.
- Row columns no decision reads: timestamps of start and end, durations, exit codes, log metadata, detail objects and error texts; so fsck's I13, I14 and the reason sweep are not modelled either.
- Effects of the machines other than the emitted event are demanded by the machines and written by the store as the code writes them; no interpreter of effects exists in the code or here.
- Machine events that no store method fires (deferral, lease expiry, operator retry) exist in `Machine` only; the exported `AppendRunEvent` is not an action of the protocol, because it can break any chain.
- `CreateRunWithSteps`: no caller outside tests; it inserts the rows `Store.Materialize` inserts, with concurrency keys and other origins beside them.
- Pausing a job, triggers, ticks and the current version lookup of `MaterializeManualTrigger`; ids are assumed fresh.
- Safety.Access: assumes a clock that does not run backwards, timers that fire no earlier than asked, and that the runner reports a cancelled kill only after the poll saw a request, because with the caller's own context ended the verdict could not be recorded.
- Engine.Engine.ExecuteRun: the runner, the log sink and the frozen specification are taken as arbitrary answers; another executor of the same run is covered by `Futures.AloneWithTheRun`, not by interference inside the method.
- Backoff.Delay: a negative initial delay is not modelled; the parser never yields one. The random draw is a parameter.
- LogSink.Sink.Write: disk errors and the clock are not modelled; the encoder of a line is a parameter that returns its bytes, and `LogCodec.Marshal` is the program's.
- LogSink.Sink.Emit: a mark is encoded like a line, as it is for a name that `%q` quotes as JSON does; other names and optional fields, which nothing outside the tests gives it, are not modelled.
- LogSink.Sink.Finish: the text is given as raw bytes; the repair of a rune cut in half is not modelled.
- LogTail.ReadFrom: decoding a record, the blank test, the record of a trailing fragment and the caller's handler are parameters, of which `LogCodec.Unmarshal` is the first; a read error of the file is not modelled.
- LogCodec.SealedReadsBack: the caller takes every record; a caller that refuses one ends the read there (`LogTail.PollStop`).
- LogCodec.Unmarshal: keys are matched letter for letter, although the decoder also takes them in another case, which the encoder never writes.
- Suggest.Closest: lower-casing is a parameter, and texts are sequences of Unicode characters, so invalid UTF-8 is not modelled.
- Duration.Parse: error texts are kinds; the unit quoted in a message is not modelled.
- Migrate.LedgerStands: a migration's statements are one atomic effect that commits or fails whole; the lock decides nothing and is therefore not modelled, and neither are the two bookkeeping tables, file names, directives and foreign key checks.
- Signals.AtMostOneOfEach: `exec` is assumed to call its hook at most once and not after `Wait` returns; its own WaitDelay kill of the leader is not modelled, and neither is signal delivery failing.
- Survey.SurveyTree: positions and messages are not modelled; a tree is a datatype of the node kinds the walk distinguishes.
- Json.Decode: the limit of ten thousand nested values is not modelled; the bytes are valid UTF-8.
- JobDoc.ReadsBackNormal: texts are valid UTF-8, as job files must be; the replacement of invalid bytes in `encodeCanonicalString` is not modelled. An empty list and a missing one are one value.
- JobDoc.SameBytesExactly: about the bytes; the hash over them is not modelled.
- JobWalk.ReadDocument: all refusals of a member are one kind, because which member is met first depends on the order of the map.
- Ledger.HistoryTells: version ids are given with the batch; the order in which two constraints of one insert are checked is not modelled beyond the hash coming first.
- Parsing and validating job files, schedules, sensors, the command line, doctor, reason texts and rendering.
