/**
 * The whole system as a transition system: the tables, the clock and any number of executors, each a
 * program counter between two accesses of internal/engine to the store. Executors, people asking for a
 * cancellation, the clock and crashes interleave freely; one action is one transaction or one read.
 */
module Protocol {
  import opened Wrappers
  import opened Machine
  import opened Tables
  import opened Graph
  import opened History
  import opened Invariant

  // ----- what the runner reports and what the engine makes of it -----

  datatype RunnerResult =
    | Succeeded | Failed(exitCode: int) | TimedOut | SpawnFailed | Signalled(cancelled: bool)

  function VerdictFor(res: RunnerResult, finishedAt: Option<int>): Outcome {
    match res
    case Succeeded => Outcome(EvStepSucceeded, StepCodeSucceeded, finishedAt, None)
    case Failed(_) => Outcome(EvStepFailed, StepCodeFailedExit, finishedAt, None)
    case TimedOut => Outcome(EvStepFailed, StepCodeFailedTimeout, finishedAt, None)
    case Signalled(cancelled) =>
      if cancelled then Outcome(EvCancelObserved, StepCodeCancelled, finishedAt, None)
      else Outcome(EvStepFailed, StepCodeFailedSignal, finishedAt, None)
    case SpawnFailed => Outcome(EvStepFailed, StepCodeFailedSpawn, finishedAt, None)
  }

  /** Everything about one attempt that the model takes from outside. */
  datatype Report = Report(res: RunnerResult, finishedAt: Option<int>, delay: int, byRun: bool)

  /** The retry decision of runStep. attempt is the one that just ended; byRun says the run's own
      deadline was the shorter timeout. */
  function Decide(rep: Report, attempt: nat, maxAttempts: nat, now: int): Outcome {
    var out := VerdictFor(rep.res, rep.finishedAt);
    if !out.event.EvStepFailed? then out
    else if rep.res.TimedOut? && rep.byRun then out
    else if maxAttempts <= 1 then out
    else if attempt < maxAttempts then
      var finished := if rep.finishedAt.Some? then rep.finishedAt.value else now;
      out.(retry := Some(RetryPlan(Some(finished + rep.delay), StepCodeRetryScheduled)))
    else out.(reason := StepCodeRetriesExhausted)
  }

  function FirstBad(steps: seq<StepRow>): Option<StepState> {
    if |steps| == 0 then None
    else if steps[0].state.StepFailed? || steps[0].state.StepCancelled? then Some(steps[0].state)
    else FirstBad(steps[1..])
  }

  /** finishReason: a spent run budget, else the first failed or cancelled step, else success. */
  function FinishCode(row: RunRow, timedOut: bool): Code {
    if timedOut then RunCodeTimedOut
    else match FirstBad(row.steps)
      case Some(st) => if st.StepFailed? then RunCodeFailedStep else RunCodeCancelledManual
      case None => RunCodeSucceeded
  }

  // ----- executors -----

  datatype Pc =
    | Fresh                                                     // before ClaimRun
    | Head                                                      // before CancelRequested
    | Observing(asker: string)                                  // before ObserveRunCancel
    | Seek                                                      // before NextRunnableStep
    | NoneRunnable                                              // before NextRetryWait
    | Sleeping(due: int)                                        // on the timer
    | Chosen(name: string)                                      // before GetRun
    | Starting(name: string, attempt: nat, maxAttempts: nat)    // before StartStep
    | Launched(name: string, attempt: nat, maxAttempts: nat)    // the process runs
    | Recording(name: string, out: Outcome, spent: bool)        // before RecordStepOutcome
    | Closing(timedOut: bool)                                   // before PendingSteps
    | Skipping(names: seq<string>, timedOut: bool)              // before one RecordStepOutcome a name
    | Judging(timedOut: bool)                                   // before finishReason's GetRun
    | Finishing(code: Code)                                     // before FinishRun
    | Done(verdict: RunState)
    | Gone                                                      // returned an error, or crashed

  datatype Exec = Exec(run: string, owner: string, ttl: int, deadline: Option<int>, pc: Pc)

  predicate Active(pc: Pc) { !pc.Fresh? && !pc.Done? && !pc.Gone? }

  datatype StepTo = StepTo(row: RunRow, log: seq<Entry>, pc: Pc)

  function After<T>(row: RunRow, t: Tx<T>, next: Pc): StepTo {
    match t
    case Commit(row', log, _) => StepTo(row', log, next)
    case Abort(_) => StepTo(row, [], Gone)
  }

  /** One access of an executor to the store, as the code of ExecuteRun goes on from it. */
  function Advance(x: Exec, row: RunRow, now: int, rep: Report): StepTo {
    match x.pc
    case Fresh =>
      var t := ClaimTx(x.run, row, x.owner, x.ttl, now);
      After(row, t, if t.Commit? && t.out.RunRunning? then Head else Done(RunCancelled))
    case Head =>
      StepTo(row, [], if row.cancelAt.Some? then Observing(if row.cancelBy.Some? then row.cancelBy.value else "") else Seek)
    case Observing(asker) =>
      After(row, ObserveTx(x.run, row, x.owner, asker, RunCodeCancelledManual, now), Done(RunCancelled))
    case Seek =>
      (match NextRunnable(row, now)
       case Some(i) => StepTo(row, [], Chosen(row.steps[i].name))
       case None => StepTo(row, [], NoneRunnable))
    case NoneRunnable =>
      (match RetryDue(row.steps)
       case Some(due) => StepTo(row, [], Sleeping(due))
       case None => StepTo(row, [], Closing(false)))
    case Sleeping(_) => StepTo(row, [], Head)
    case Chosen(name) =>
      (match Find(row.steps, name)
       case Some(i) => StepTo(row, [], Starting(name, row.steps[i].attempt, row.steps[i].maxAttempts))
       case None => StepTo(row, [], Starting(name, 0, 0)))
    case Starting(name, attempt, maxAttempts) =>
      After(row, StartTx(x.run, row, name), Launched(name, attempt + 1, maxAttempts))
    case Launched(name, attempt, maxAttempts) =>
      StepTo(row, [], Recording(name, Decide(rep, attempt, maxAttempts, now), rep.byRun && rep.res.TimedOut?))
    case Recording(name, out, spent) =>
      After(row, RecordTx(x.run, row, name, out, now), if spent then Closing(true) else Head)
    case Closing(timedOut) => StepTo(row, [], Skipping(PendingNames(row.steps), timedOut))
    case Skipping(names, timedOut) =>
      if |names| == 0 then StepTo(row, [], Judging(timedOut))
      else After(row, RecordTx(x.run, row, names[0], SKIP_OUTCOME, now), Skipping(names[1..], timedOut))
    case Judging(timedOut) => StepTo(row, [], Finishing(FinishCode(row, timedOut)))
    case Finishing(code) =>
      var t := FinishTx(x.run, row, x.owner, code, now);
      After(row, t, Done(if t.Commit? then t.out else RunFailed))
    case Done(_) => StepTo(row, [], x.pc)
    case Gone => StepTo(row, [], x.pc)
  }

  /**
   * The timer fires no earlier than asked, a deadline counts only when the job has one, and the runner
   * blames a cancellation only after the poll saw a request: with the caller's own context dead the
   * verdict could not be recorded.
   */
  predicate CanAdvance(x: Exec, row: RunRow, now: int, rep: Report) {
    && !x.pc.Done? && !x.pc.Gone?
    && (x.pc.Sleeping? ==> now >= x.pc.due)
    && (x.pc.Launched? ==>
          && (rep.res == Signalled(true) ==> row.cancelAt.Some?)
          && (rep.byRun ==> x.deadline.Some?))
  }

  // ----- the system -----

  datatype World = World(runs: map<string, RunRow>, log: seq<Entry>, now: int, execs: map<nat, Exec>)

  datatype Action =
    | Create(id: string, steps: seq<NewStep>, availableAt: int, actor: string)
    | Tick(to: int)
    | AskCancel(run: string, asker: string, why: string)
    | Call(e: nat, x: Exec)
    | Go(e: nat, rep: Report)
    | Crash(e: nat)

  predicate Enabled(w: World, a: Action) {
    match a
    case Create(id, steps, _, _) => id !in w.runs && Insertable(steps)
    case Tick(to) => w.now <= to
    case AskCancel(run, _, _) => run in w.runs
    case Call(e, x) => e !in w.execs && x.pc.Fresh? && x.run in w.runs
    case Go(e, rep) => e in w.execs && w.execs[e].run in w.runs && CanAdvance(w.execs[e], w.runs[w.execs[e].run], w.now, rep)
    case Crash(e) => e in w.execs
  }

  function Step(w: World, a: Action): World
    requires Enabled(w, a)
  {
    match a
    case Create(id, steps, availableAt, actor) =>
      w.(runs := w.runs[id := FreshRun(steps, availableAt)], log := w.log + [QueuedEntry(id, actor)])
    case Tick(to) => w.(now := to)
    case AskCancel(run, asker, why) => w.(runs := w.runs[run := CancelTx(w.runs[run], asker, why, w.now)])
    case Call(e, x) => w.(execs := w.execs[e := x])
    case Go(e, rep) =>
      var x := w.execs[e];
      var s := Advance(x, w.runs[x.run], w.now, rep);
      w.(runs := w.runs[x.run := s.row], log := w.log + s.log, execs := w.execs[e := x.(pc := s.pc)])
    case Crash(e) => w.(execs := w.execs[e := w.execs[e].(pc := Gone)])
  }

  predicate Feasible(w: World, acts: seq<Action>)
    decreases |acts|
  {
    |acts| == 0 || (Enabled(w, acts[0]) && Feasible(Step(w, acts[0]), acts[1..]))
  }

  function Run(w: World, acts: seq<Action>): World
    requires Feasible(w, acts)
    decreases |acts|
  {
    if |acts| == 0 then w else Run(Step(w, acts[0]), acts[1..])
  }

  function Initial(now: int): World { World(map[], [], now, map[]) }

  ghost predicate Reachable(w: World) {
    exists now, acts :: Feasible(Initial(now), acts) && Run(Initial(now), acts) == w
  }

  // ----- the invariant -----

  /** No step runs, none was cancelled and none was skipped: between two steps of an open run. */
  ghost predicate Between(row: RunRow) {
    NoneIs(row, StepRunning) && NoneIs(row, StepSkipped)
  }

  ghost predicate OnlyRunning(row: RunRow, name: string, attempt: nat, maxAttempts: nat) {
    && NoneIs(row, StepSkipped) && NoneIs(row, StepCancelled)
    && forall i: nat :: i < |row.steps| ==>
         (row.steps[i].state.StepRunning? <==> row.steps[i].name == name)
         && (row.steps[i].name == name ==> row.steps[i].attempt == attempt && row.steps[i].maxAttempts == maxAttempts)
  }

  ghost predicate Startable(row: RunRow, name: string) {
    && Between(row) && NoneIs(row, StepCancelled)
    && Find(row.steps, name).Some?
    && var i := Find(row.steps, name).value; row.steps[i].state.StepPending? && UpstreamsSucceeded(row, i)
  }

  /** What an executor may rely on at each of its program points. */
  ghost predicate PcOk(row: RunRow, pc: Pc) {
    && row.state.RunRunning?
    && match pc
       case Head => Between(row)
       case Observing(_) => NoneIs(row, StepRunning) && row.cancelAt.Some?
       case Seek => Between(row) && NoneIs(row, StepCancelled)
       case NoneRunnable =>
         && Between(row) && NoneIs(row, StepCancelled)
         && forall i: nat :: i < |row.steps| && row.steps[i].state.StepPending? && row.steps[i].nextAttemptAt.None? ==>
              !UpstreamsSucceeded(row, i)
       case Sleeping(due) =>
         && Between(row) && NoneIs(row, StepCancelled)
         && exists i: nat :: i < |row.steps| && Parked(row.steps[i]) && row.steps[i].nextAttemptAt == Some(due)
       case Chosen(name) => Startable(row, name)
       case Starting(name, attempt, maxAttempts) =>
         && Startable(row, name)
         && var i := Find(row.steps, name).value; row.steps[i].attempt == attempt && row.steps[i].maxAttempts == maxAttempts
       case Launched(name, attempt, maxAttempts) => OnlyRunning(row, name, attempt, maxAttempts)
       case Recording(name, out, spent) =>
         && (exists attempt, maxAttempts :: OnlyRunning(row, name, attempt, maxAttempts))
         && !out.event.EvStepStarted?
         && (out.event.EvCancelObserved? ==> row.cancelAt.Some?)
         && (spent ==> out.event.EvStepFailed?)
       case Closing(timedOut) => Between(row) && NoneIs(row, StepCancelled) && (!timedOut ==> Stuck(row))
       case Skipping(names, timedOut) =>
         && NoneIs(row, StepRunning) && NoneIs(row, StepCancelled)
         && names == PendingNames(row.steps) && (!timedOut ==> Stuck(row))
       case Judging(timedOut) => AllTerminal(row.steps) && NoneIs(row, StepCancelled) && (!timedOut ==> Stuck(row))
       case Finishing(code) =>
         && AllTerminal(row.steps) && NoneIs(row, StepCancelled)
         && (!code.RunCodeTimedOut? ==> Stuck(row))
         && (code.RunCodeFailedStep? ==> SomeFailed(row)) && (code.RunCodeSucceeded? ==> !SomeFailed(row))
       case _ => true
  }

  ghost predicate RunsOk(w: World) {
    && (forall id :: id in w.runs ==> RowOk(w.runs[id]) && LogOk(id, w.runs[id], w.log))
    && (forall e :: e in w.log ==> e.run in w.runs)
  }

  /** Two executors past their claim on one run. */
  predicate Rivals(x: Exec, y: Exec) { x.run == y.run && Active(x.pc) && Active(y.pc) }

  ghost predicate ExecsOk(w: World) {
    && (forall e :: e in w.execs ==> w.execs[e].run in w.runs)
    && (forall e :: e in w.execs && Active(w.execs[e].pc) ==> PcOk(w.runs[w.execs[e].run], w.execs[e].pc))
    && (forall e, f :: e in w.execs && f in w.execs && Rivals(w.execs[e], w.execs[f]) ==> e == f)
  }

  ghost predicate WorldOk(w: World) { RunsOk(w) && ExecsOk(w) }
}
