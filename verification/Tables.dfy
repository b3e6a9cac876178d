/**
 * The rows of a run and the transactions of internal/store over them. A transaction is a function from
 * the rows it reads to the rows and the events it commits, or to the error that rolls it back.
 */
module Tables {
  import opened Wrappers
  import opened Machine

  datatype StepRow = StepRow(
    name: string, state: StepState, attempt: nat, maxAttempts: nat,
    nextAttemptAt: Option<int>, reason: Code)

  /** One row of runs with its rows of steps, in idx order, and of step_deps, as (step, upstream). */
  datatype RunRow = RunRow(
    state: RunState, availableAt: int,
    cancelAt: Option<int>, cancelBy: Option<string>, cancelWhy: Option<string>,
    leaseOwner: string, leaseEpoch: nat, leaseExpiresAt: Option<int>,
    reason: Code,
    steps: seq<StepRow>, deps: set<(string, string)>)

  datatype State = OfRun(run: RunState) | OfStep(step: StepState)

  /** One row of run_events. */
  datatype Entry = Entry(
    run: string, step: Option<string>, kind: Kind,
    from: Option<State>, to: State, reason: Code, actor: string)

  datatype TxError =
    | RunNotFound | StepNotFound | NotClaimable(why: Refusal) | RunNotRunning | StepNotPending
    | NobodyRequested | Denied(refusal: Refusal)

  datatype Tx<+T> = Commit(row: RunRow, log: seq<Entry>, out: T) | Abort(err: TxError)

  const SYSTEM := "system"
  const DEFAULT_LEASE_TTL := 300_000

  // ----- reading rows -----

  function Find(steps: seq<StepRow>, name: string): (i: Option<nat>)
    ensures i.Some? ==> i.value < |steps| && steps[i.value].name == name
    ensures i.None? ==> forall j :: 0 <= j < |steps| ==> steps[j].name != name
  {
    if |steps| == 0 then None
    else if steps[0].name == name then Some(0)
    else match Find(steps[1..], name)
      case None =>
        assert forall j :: 1 <= j < |steps| ==> steps[j] == steps[1..][j - 1];
        None
      case Some(i) => Some(i + 1)
  }

  ghost predicate UniqueNames(steps: seq<StepRow>) {
    forall i, j :: 0 <= i < j < |steps| ==> steps[i].name != steps[j].name
  }

  /** Step i has a frozen edge to step j. Edges naming no step of the run join with nothing. */
  predicate Needs(row: RunRow, i: nat, j: nat)
    requires i < |row.steps| && j < |row.steps|
  {
    (row.steps[i].name, row.steps[j].name) in row.deps
  }

  predicate UpstreamsSucceeded(row: RunRow, i: nat)
    requires i < |row.steps|
  {
    forall j: nat | j < |row.steps| :: Needs(row, i, j) ==> row.steps[j].state.StepSucceeded?
  }

  /** The claim predicate: pending, past its retry gate, and every upstream succeeded. */
  predicate Runnable(row: RunRow, now: int, i: nat)
    requires i < |row.steps|
  {
    var s := row.steps[i];
    && s.state.StepPending?
    && (s.nextAttemptAt.Some? ==> s.nextAttemptAt.value <= now)
    && UpstreamsSucceeded(row, i)
  }

  /** nextRunnableStepSQL: the lowest index the claim predicate holds of. */
  function NextRunnable(row: RunRow, now: int, lo: nat := 0): (r: Option<nat>)
    requires lo <= |row.steps|
    ensures r.None? ==> forall i :: lo <= i < |row.steps| ==> !Runnable(row, now, i)
    ensures r.Some? ==> lo <= r.value < |row.steps| && Runnable(row, now, r.value)
    ensures r.Some? ==> forall i :: lo <= i < r.value ==> !Runnable(row, now, i)
    decreases |row.steps| - lo
  {
    if lo == |row.steps| then None
    else if Runnable(row, now, lo) then Some(lo)
    else NextRunnable(row, now, lo + 1)
  }

  predicate Parked(s: StepRow) { s.state.StepPending? && s.nextAttemptAt.Some? }

  /** nextRetryWaitSQL: the earliest next_attempt_at among the pending steps. */
  function RetryDue(steps: seq<StepRow>): (due: Option<int>)
    ensures due.None? <==> forall i :: 0 <= i < |steps| ==> !Parked(steps[i])
    ensures due.Some? ==> exists i :: 0 <= i < |steps| && Parked(steps[i]) && steps[i].nextAttemptAt == due
    ensures due.Some? ==> forall i :: 0 <= i < |steps| && Parked(steps[i]) ==> due.value <= steps[i].nextAttemptAt.value
  {
    if |steps| == 0 then None
    else
      var rest := RetryDue(steps[1..]);
      assert forall i :: 1 <= i < |steps| ==> steps[i] == steps[1..][i - 1];
      if !Parked(steps[0]) then
        assert forall i :: 0 <= i < |steps[1..]| ==> steps[1..][i] == steps[i + 1];
        rest
      else if rest.Some? && rest.value < steps[0].nextAttemptAt.value then
        assert forall i :: 0 <= i < |steps[1..]| ==> steps[1..][i] == steps[i + 1];
        rest
      else steps[0].nextAttemptAt
  }

  function PendingNames(steps: seq<StepRow>): seq<string> {
    if |steps| == 0 then []
    else (if steps[0].state.StepPending? then [steps[0].name] else []) + PendingNames(steps[1..])
  }

  function States(steps: seq<StepRow>): seq<StepState> {
    seq(|steps|, i requires 0 <= i < |steps| => steps[i].state)
  }

  predicate LeaseValid(row: RunRow, owner: string, now: int) {
    row.leaseOwner == owner && (row.leaseExpiresAt.Some? ==> row.leaseExpiresAt.value > now)
  }

  // ----- transactions -----

  function KindOf(fx: seq<Effect>): Kind {
    match EmitKind(fx) case Some(k) => k case None => KRunQueued
  }

  function SkipRow(s: StepRow, code: Code): StepRow {
    if s.state.StepPending? then s.(state := StepSkipped, reason := code) else s
  }

  function SkipRows(steps: seq<StepRow>, code: Code): seq<StepRow> {
    seq(|steps|, i requires 0 <= i < |steps| => SkipRow(steps[i], code))
  }

  function SkipEntry(id: string, name: string, code: Code): Entry {
    Entry(id, Some(name), KStepSkipped, Some(OfStep(StepPending)), OfStep(StepSkipped), code, SYSTEM)
  }

  function SkipEntries(id: string, names: seq<string>, code: Code): seq<Entry> {
    if |names| == 0 then []
    else SkipEntries(id, names[..|names| - 1], code) + [SkipEntry(id, names[|names| - 1], code)]
  }

  function ClaimGuards(row: RunRow, now: int): Guards {
    NO_GUARDS.(now := now, availableAt := row.availableAt, cancelRequested := row.cancelAt.Some?,
               reasonCode := if row.cancelAt.Some? then RunCodeCancelledManual else NoCode)
  }

  function ActorOf(who: Option<string>): string {
    if who.Some? && who.value != "" then who.value else SYSTEM
  }

  function ClaimTx(id: string, row: RunRow, owner: string, ttl: int, now: int): Tx<RunState> {
    match NextRunState(row.state, EvClaim, ClaimGuards(row, now))
    case Refused(why) => Abort(NotClaimable(why))
    case Moved(next, fx) =>
      if next.RunRunning? then
        Commit(row.(state := next, leaseOwner := owner, leaseEpoch := row.leaseEpoch + 1,
                    leaseExpiresAt := Some(now + if ttl <= 0 then DEFAULT_LEASE_TTL else ttl)),
               [Entry(id, None, KindOf(fx), Some(OfRun(row.state)), OfRun(next), NoCode, ActorOf(Some(owner)))],
               next)
      else
        Commit(row.(state := next, reason := RunCodeCancelledManual, steps := SkipRows(row.steps, StepCodeCancelled)),
               SkipEntries(id, PendingNames(row.steps), StepCodeCancelled)
               + [Entry(id, None, KindOf(fx), Some(OfRun(row.state)), OfRun(next),
                        RunCodeCancelledManual, ActorOf(row.cancelBy))],
               next)
  }

  /** The COALESCE update of RequestCancel. It is no transition and writes no event. */
  function CancelTx(row: RunRow, asker: string, why: string, now: int): RunRow {
    row.(cancelAt := if row.cancelAt.Some? then row.cancelAt else Some(now),
         cancelBy := if row.cancelBy.Some? then row.cancelBy else if asker == "" then None else Some(asker),
         cancelWhy := if row.cancelWhy.Some? then row.cancelWhy else Some(why))
  }

  /** What the executor's read of a request sees: whether there is one, and who asked. */
  function Asked(row: RunRow): (bool, string) {
    (row.cancelAt.Some?, if row.cancelBy.Some? then row.cancelBy.value else "")
  }

  function StartTx(id: string, row: RunRow, name: string): Tx<()> {
    if !row.state.RunRunning? then Abort(RunNotRunning)
    else match Find(row.steps, name)
      case None => Abort(StepNotFound)
      case Some(i) =>
        var s := row.steps[i];
        if !s.state.StepPending? then Abort(StepNotPending)
        else match NextStepState(s.state, EvStepStarted, NO_GUARDS)
          case Refused(why) => Abort(Denied(why))
          case Moved(next, fx) =>
            Commit(row.(steps := row.steps[i := s.(state := next, attempt := s.attempt + 1)]),
                   [Entry(id, Some(name), KindOf(fx), Some(OfStep(s.state)), OfStep(next), NoCode, SYSTEM)], ())
  }

  datatype RetryPlan = RetryPlan(nextAttemptAt: Option<int>, reason: Code)
  datatype Outcome = Outcome(event: Event, reason: Code, finishedAt: Option<int>, retry: Option<RetryPlan>)

  const SKIP_OUTCOME := Outcome(EvUpstreamFailed, StepCodeSkippedUpstream, None, None)

  /** The retry gate a step that goes back to pending is parked at. */
  function GateOf(out: Outcome, now: int): int {
    if out.retry.Some? && out.retry.value.nextAttemptAt.Some? then out.retry.value.nextAttemptAt.value
    else if out.finishedAt.Some? then out.finishedAt.value
    else now
  }

  function RowReason(out: Outcome, next: StepState): Code {
    if next.StepPending? && out.retry.Some? && !out.retry.value.reason.NoCode? then out.retry.value.reason
    else out.reason
  }

  function RecordTx(id: string, row: RunRow, name: string, out: Outcome, now: int): Tx<StepState> {
    match Find(row.steps, name)
    case None => Abort(StepNotFound)
    case Some(i) =>
      var s := row.steps[i];
      match NextStepState(s.state, out.event, NO_GUARDS.(reasonCode := out.reason, attemptsLeft := s.attempt < s.maxAttempts))
      case Refused(why) => Abort(Denied(why))
      case Moved(next, fx) =>
        var s' := s.(state := next, reason := RowReason(out, next),
                     nextAttemptAt := if next.StepPending? then Some(GateOf(out, now)) else None);
        Commit(row.(steps := row.steps[i := s']),
               [Entry(id, Some(name), KindOf(fx), Some(OfStep(s.state)), OfStep(next), RowReason(out, next), SYSTEM)], next)
  }

  predicate AllTerminal(steps: seq<StepRow>) {
    forall i :: 0 <= i < |steps| ==> steps[i].state.IsTerminal()
  }

  /** FinishRun's own reading of "any step failed": it counts a cancelled step too. */
  predicate AnyFailedOrCancelled(steps: seq<StepRow>) {
    exists i :: 0 <= i < |steps| && (steps[i].state.StepFailed? || steps[i].state.StepCancelled?)
  }

  function FinishGuards(row: RunRow, owner: string, code: Code, now: int): Guards {
    NO_GUARDS.(leaseValid := LeaseValid(row, owner, now), allStepsTerminal := AllTerminal(row.steps),
               anyStepFailed := AnyFailedOrCancelled(row.steps), reasonCode := code,
               now := now, availableAt := row.availableAt)
  }

  function FinishTx(id: string, row: RunRow, owner: string, code: Code, now: int): Tx<RunState> {
    match NextRunState(row.state, EvAllStepsDone, FinishGuards(row, owner, code, now))
    case Refused(why) => Abort(Denied(why))
    case Moved(next, fx) =>
      Commit(row.(state := next, reason := code, leaseOwner := "", leaseExpiresAt := None),
             [Entry(id, None, KindOf(fx), Some(OfRun(row.state)), OfRun(next), code, SYSTEM)], next)
  }

  function ObserveTx(id: string, row: RunRow, owner: string, actor: string, code: Code, now: int): Tx<()> {
    if row.cancelAt.None? then Abort(NobodyRequested)
    else match NextRunState(row.state, EvCancelObserved,
                            NO_GUARDS.(leaseValid := LeaseValid(row, owner, now), reasonCode := code))
      case Refused(why) => Abort(Denied(why))
      case Moved(next, fx) =>
        Commit(row.(state := next, reason := code, leaseOwner := "", leaseExpiresAt := None,
                    steps := SkipRows(row.steps, StepCodeCancelled)),
               SkipEntries(id, PendingNames(row.steps), StepCodeCancelled)
               + [Entry(id, None, KindOf(fx), Some(OfRun(row.state)), OfRun(next), code, ActorOf(Some(actor)))], ())
  }

  // ----- materialisation -----

  /** One step of the frozen spec as materialisation reads it: retryMax is None without a retry block. */
  datatype NewStep = NewStep(name: string, needs: seq<string>, retryMax: Option<int>)

  function Budget(n: NewStep): nat {
    if n.retryMax.Some? && n.retryMax.value >= 0 then n.retryMax.value + 1 else 1
  }

  function FreshStep(n: NewStep): StepRow {
    StepRow(n.name, StepPending, 0, Budget(n), None, NoCode)
  }

  function FreshRun(steps: seq<NewStep>, availableAt: int): RunRow {
    RunRow(RunQueued, availableAt, None, None, None, "", 0, None, NoCode,
           seq(|steps|, i requires 0 <= i < |steps| => FreshStep(steps[i])), EdgesOf(steps))
  }

  function EdgesOf(steps: seq<NewStep>): set<(string, string)> {
    set i, k | 0 <= i < |steps| && 0 <= k < |steps[i].needs| :: (steps[i].name, steps[i].needs[k])
  }

  /** The primary keys of steps and step_deps accept the spec. */
  predicate Insertable(steps: seq<NewStep>) {
    && (forall i, j :: 0 <= i < j < |steps| ==> steps[i].name != steps[j].name)
    && (forall i, j, k :: 0 <= i < |steps| && 0 <= j < k < |steps[i].needs| ==> steps[i].needs[j] != steps[i].needs[k])
  }

  function QueuedEntry(id: string, actor: string): Entry {
    Entry(id, None, KRunQueued, None, OfRun(RunQueued), NoCode, ActorOf(Some(actor)))
  }
}
