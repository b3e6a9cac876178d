/** The run machine, the step machine and the aggregate of internal/model. */
module Machine {
  import opened Wrappers

  datatype RunState = RunQueued | RunRunning | RunSucceeded | RunFailed | RunCancelled {
    predicate IsTerminal() { RunSucceeded? || RunFailed? || RunCancelled? }
  }

  datatype StepState =
    | StepPending | StepRunning | StepSucceeded | StepFailed | StepSkipped | StepCancelled
  {
    predicate IsTerminal() { !StepPending? && !StepRunning? }
  }

  datatype Event =
    | EvClaim | EvDeferred | EvStepStarted | EvStepSucceeded | EvStepFailed | EvUpstreamFailed
    | EvAllStepsDone | EvCancelObserved | EvLeaseExpired | EvOperatorRetry

  /** Reason codes; NoCode is the empty string of the source. */
  datatype Code =
    | NoCode
    | RunCodeSucceeded | RunCodeFailedStep | RunCodeTimedOut | RunCodeCancelledManual
    | StepCodeSucceeded | StepCodeFailedExit | StepCodeFailedTimeout | StepCodeFailedSignal
    | StepCodeFailedSpawn | StepCodeCancelled | StepCodeSkippedUpstream
    | StepCodeRetryScheduled | StepCodeRetriesExhausted
    | OtherCode(text: string)

  /** The name an emitted event carries into run_events. */
  datatype Kind =
    | KRunQueued | KRunStarted | KRunDeferred | KRunSucceeded | KRunFailed | KRunCancelled
    | KRunRequeued | KRunPoisoned | KRunReopened
    | KStepStarted | KStepSkipped | KStepSucceeded | KStepRetryScheduled | KStepFailed | KStepCancelled

  datatype Effect =
    | BumpEpoch | TakeLease | ReleaseLease | SetStarted | SetFinished | KillProcessGroup
    | IncCrashCount | IncAttempt | SetNextAttemptAt | SetAvailableAt | SetDeferReason(why: string)
    | Emit(kind: Kind)

  datatype Guards = Guards(
    now: int, availableAt: int, cancelRequested: bool, leaseValid: bool, attemptsLeft: bool,
    anyStepFailed: bool, allStepsTerminal: bool, crashBudgetLeft: bool,
    reasonCode: Code, deferReason: string)

  const NO_GUARDS := Guards(0, 0, false, false, false, false, false, false, NoCode, "")

  datatype Refusal =
    | IllegalTransition | NotAvailable | MissingReasonCode | MissingDeferReason
    | StepsNotTerminal | StaleLease | LeaseStillValid

  /** A machine either moves and demands effects, or refuses and moves nothing. */
  datatype Move<S> = Moved(next: S, effects: seq<Effect>) | Refused(why: Refusal)

  const DEFER_REASON_AFTER_CRASH := "reconciled_after_crash"

  function NextRunState(cur: RunState, ev: Event, g: Guards): Move<RunState> {
    if cur.RunQueued? && ev.EvClaim? then
      if g.cancelRequested then
        if g.reasonCode.NoCode? then Refused(MissingReasonCode)
        else Moved(RunCancelled, [SetFinished, Emit(KRunCancelled)])
      else if !(g.availableAt <= g.now) then Refused(NotAvailable)
      else Moved(RunRunning, [BumpEpoch, TakeLease, SetStarted, Emit(KRunStarted)])
    else if cur.RunQueued? && ev.EvDeferred? then
      if g.deferReason == "" then Refused(MissingDeferReason)
      else Moved(RunQueued, [SetAvailableAt, SetDeferReason(g.deferReason), Emit(KRunDeferred)])
    else if cur.RunRunning? && ev.EvAllStepsDone? then
      if !g.leaseValid then Refused(StaleLease)
      else if !g.allStepsTerminal then Refused(StepsNotTerminal)
      else if g.reasonCode.NoCode? then Refused(MissingReasonCode)
      else if g.anyStepFailed then Moved(RunFailed, [SetFinished, ReleaseLease, Emit(KRunFailed)])
      else Moved(RunSucceeded, [SetFinished, ReleaseLease, Emit(KRunSucceeded)])
    else if cur.RunRunning? && ev.EvCancelObserved? then
      if !g.leaseValid then Refused(StaleLease)
      else if g.reasonCode.NoCode? then Refused(MissingReasonCode)
      else Moved(RunCancelled, [KillProcessGroup, SetFinished, ReleaseLease, Emit(KRunCancelled)])
    else if cur.RunRunning? && ev.EvLeaseExpired? then
      if g.leaseValid then Refused(LeaseStillValid)
      else if !g.crashBudgetLeft then
        if g.reasonCode.NoCode? then Refused(MissingReasonCode)
        else Moved(RunFailed, [SetFinished, Emit(KRunPoisoned)])
      else Moved(RunQueued, [BumpEpoch, IncCrashCount, SetDeferReason(DEFER_REASON_AFTER_CRASH), Emit(KRunRequeued)])
    else if cur.IsTerminal() && ev.EvOperatorRetry? then
      Moved(RunQueued, [BumpEpoch, Emit(KRunReopened)])
    else Refused(IllegalTransition)
  }

  function NextStepState(cur: StepState, ev: Event, g: Guards): Move<StepState> {
    if cur.StepPending? && ev.EvStepStarted? then
      Moved(StepRunning, [IncAttempt, SetStarted, Emit(KStepStarted)])
    else if cur.StepPending? && ev.EvUpstreamFailed? then
      if g.reasonCode.NoCode? then Refused(MissingReasonCode)
      else Moved(StepSkipped, [SetFinished, Emit(KStepSkipped)])
    else if cur.StepRunning? && ev.EvStepSucceeded? then
      if g.reasonCode.NoCode? then Refused(MissingReasonCode)
      else Moved(StepSucceeded, [SetFinished, Emit(KStepSucceeded)])
    else if cur.StepRunning? && ev.EvStepFailed? then
      if g.reasonCode.NoCode? then Refused(MissingReasonCode)
      else if g.attemptsLeft then Moved(StepPending, [SetNextAttemptAt, Emit(KStepRetryScheduled)])
      else Moved(StepFailed, [SetFinished, Emit(KStepFailed)])
    else if cur.StepRunning? && ev.EvCancelObserved? then
      if g.reasonCode.NoCode? then Refused(MissingReasonCode)
      else Moved(StepCancelled, [KillProcessGroup, SetFinished, Emit(KStepCancelled)])
    else Refused(IllegalTransition)
  }

  /** The event name in a move's effects: the first emit effect. */
  function EmitKind(fx: seq<Effect>): Option<Kind> {
    if |fx| == 0 then None
    else if fx[0].Emit? then Some(fx[0].kind)
    else EmitKind(fx[1..])
  }

  /** The effect list ends in the one event it emits. */
  predicate EmitsOnly(fx: seq<Effect>, k: Kind) {
    && |fx| > 0 && fx[|fx| - 1] == Emit(k)
    && forall i :: 0 <= i < |fx| - 1 ==> !fx[i].Emit?
  }

  lemma {:induction false} EmitKindOfEmitsOnly(fx: seq<Effect>, k: Kind)
    requires EmitsOnly(fx, k)
    ensures EmitKind(fx) == Some(k)
  {
    if |fx| > 1 {
      assert EmitsOnly(fx[1..], k);
      EmitKindOfEmitsOnly(fx[1..], k);
    }
  }

  /**
   * What every accepted run move obeys, whatever the guards: exactly one event is emitted, only an
   * operator leaves a terminal state, a terminal state is entered with a reason code and stamps an
   * end, a lease is taken exactly on entry to running and is released only by its valid holder.
   */
  lemma RunMoveObeys(cur: RunState, ev: Event, g: Guards)
    requires NextRunState(cur, ev, g).Moved?
    ensures var m := NextRunState(cur, ev, g);
      && EmitKind(m.effects).Some? && EmitsOnly(m.effects, EmitKind(m.effects).value)
      && (cur.IsTerminal() ==> ev.EvOperatorRetry? && m.next.RunQueued?)
      && (m.next.IsTerminal() ==> !g.reasonCode.NoCode? && SetFinished in m.effects)
      && (TakeLease in m.effects <==> m.next.RunRunning?)
      && (ReleaseLease in m.effects ==> cur.RunRunning? && g.leaseValid)
  {
    var fx := NextRunState(cur, ev, g).effects;
    EmitKindOfEmitsOnly(fx, fx[|fx| - 1].kind);
  }

  lemma StepMoveObeys(cur: StepState, ev: Event, g: Guards)
    requires NextStepState(cur, ev, g).Moved?
    ensures var m := NextStepState(cur, ev, g);
      && EmitKind(m.effects).Some? && EmitsOnly(m.effects, EmitKind(m.effects).value)
      && !cur.IsTerminal()
      && (m.next.IsTerminal() ==> !g.reasonCode.NoCode? && SetFinished in m.effects)
      && (IncAttempt in m.effects <==> m.next.StepRunning?)
      && (m.next.StepPending? <==> ev.EvStepFailed? && g.attemptsLeft)
  {
    var fx := NextStepState(cur, ev, g).effects;
    EmitKindOfEmitsOnly(fx, fx[|fx| - 1].kind);
  }

  function RunTarget(ev: Event, g: Guards): RunState {
    match ev
    case EvClaim => if g.cancelRequested then RunCancelled else RunRunning
    case EvAllStepsDone => if g.anyStepFailed then RunFailed else RunSucceeded
    case EvCancelObserved => RunCancelled
    case EvLeaseExpired => if g.crashBudgetLeft then RunQueued else RunFailed
    case _ => RunQueued
  }

  function StepTarget(ev: Event, g: Guards): StepState {
    match ev
    case EvStepStarted => StepRunning
    case EvUpstreamFailed => StepSkipped
    case EvStepSucceeded => StepSucceeded
    case EvStepFailed => if g.attemptsLeft then StepPending else StepFailed
    case _ => StepCancelled
  }

  /** When the run machine moves, and where to. */
  lemma RunMovesWhen(cur: RunState, ev: Event, g: Guards)
    ensures var m, given := NextRunState(cur, ev, g), g.reasonCode != NoCode;
      && (m.Moved? <==>
            match ev
            case EvClaim => cur == RunQueued && (if g.cancelRequested then given else g.availableAt <= g.now)
            case EvDeferred => cur == RunQueued && g.deferReason != ""
            case EvAllStepsDone => cur == RunRunning && g.leaseValid && g.allStepsTerminal && given
            case EvCancelObserved => cur == RunRunning && g.leaseValid && given
            case EvLeaseExpired => cur == RunRunning && !g.leaseValid && (g.crashBudgetLeft || given)
            case EvOperatorRetry => cur != RunQueued && cur != RunRunning
            case _ => false)
      && (m.Moved? ==> m.next == RunTarget(ev, g))
  {
  }

  /** Each effect of a run's move is demanded exactly on the moves that need it. */
  lemma RunEffects(cur: RunState, ev: Event, g: Guards)
    requires NextRunState(cur, ev, g).Moved?
    ensures var m := NextRunState(cur, ev, g); var fx := m.effects;
      && (BumpEpoch in fx <==> m.next == RunRunning || (m.next == RunQueued && ev != EvDeferred))
      && (SetStarted in fx <==> m.next == RunRunning)
      && (SetFinished in fx <==> m.next.IsTerminal())
      && (ReleaseLease in fx <==> cur == RunRunning && m.next.IsTerminal() && ev != EvLeaseExpired)
      && (KillProcessGroup in fx <==> cur == RunRunning && m.next == RunCancelled)
  {
  }

  lemma RequeueEffects(cur: RunState, ev: Event, g: Guards, why: string)
    requires NextRunState(cur, ev, g).Moved?
    ensures var m := NextRunState(cur, ev, g); var fx := m.effects;
      && (IncCrashCount in fx <==> ev == EvLeaseExpired && m.next == RunQueued)
      && (SetAvailableAt in fx <==> ev == EvDeferred)
      && (SetDeferReason(why) in fx <==>
            (ev == EvDeferred && why == g.deferReason) || (ev == EvLeaseExpired && m.next == RunQueued && why == "reconciled_after_crash"))
  {
  }

  lemma StepMovesWhen(cur: StepState, ev: Event, g: Guards)
    ensures var m, given := NextStepState(cur, ev, g), g.reasonCode != NoCode;
      && (m.Moved? <==>
            match ev
            case EvStepStarted => cur == StepPending
            case EvUpstreamFailed => cur == StepPending && given
            case EvStepSucceeded => cur == StepRunning && given
            case EvStepFailed => cur == StepRunning && given
            case EvCancelObserved => cur == StepRunning && given
            case _ => false)
      && (m.Moved? ==> m.next == StepTarget(ev, g))
  {
  }

  lemma StepEffects(cur: StepState, ev: Event, g: Guards)
    requires NextStepState(cur, ev, g).Moved?
    ensures var m := NextStepState(cur, ev, g); var fx := m.effects;
      && (IncAttempt in fx <==> m.next == StepRunning) && (SetStarted in fx <==> m.next == StepRunning)
      && (SetFinished in fx <==> m.next.IsTerminal())
      && (SetNextAttemptAt in fx <==> m.next == StepPending)
      && (KillProcessGroup in fx <==> m.next == StepCancelled)
      && (forall e :: e in fx && !e.Emit? ==> e.IncAttempt? || e.SetStarted? || e.SetFinished? || e.SetNextAttemptAt? || e.KillProcessGroup?)
  {
  }

  /** One input of a history: an event and the guards it is judged under. */
  datatype Input = Input(event: Event, guards: Guards)

  datatype Fold<S> = Fold(state: S, effects: seq<Effect>, err: Option<Refusal>)

  /** A history folded through the run machine, stopping at the first refusal. */
  function FoldRun(cur: RunState, inputs: seq<Input>): Fold<RunState>
    decreases |inputs|
  {
    if |inputs| == 0 then Fold(cur, [], None)
    else match NextRunState(cur, inputs[0].event, inputs[0].guards)
      case Refused(why) => Fold(cur, [], Some(why))
      case Moved(next, fx) =>
        var rest := FoldRun(next, inputs[1..]);
        Fold(rest.state, fx + rest.effects, rest.err)
  }

  function FoldStep(cur: StepState, inputs: seq<Input>): Fold<StepState>
    decreases |inputs|
  {
    if |inputs| == 0 then Fold(cur, [], None)
    else match NextStepState(cur, inputs[0].event, inputs[0].guards)
      case Refused(why) => Fold(cur, [], Some(why))
      case Moved(next, fx) =>
        var rest := FoldStep(next, inputs[1..]);
        Fold(rest.state, fx + rest.effects, rest.err)
  }

  method ApplyRun(start: RunState, inputs: seq<Input>) returns (cur: RunState, all: seq<Effect>, err: Option<Refusal>)
    ensures Fold(cur, all, err) == FoldRun(start, inputs)
  {
    cur, all, err := start, [], None;
    for i := 0 to |inputs|
      invariant var rest := FoldRun(cur, inputs[i..]);
        FoldRun(start, inputs) == Fold(rest.state, all + rest.effects, rest.err)
      invariant err.None?
    {
      assert inputs[i..][0] == inputs[i] && inputs[i..][1..] == inputs[i + 1..];
      match NextRunState(cur, inputs[i].event, inputs[i].guards)
      case Refused(why) =>
        assert all + [] == all;
        return cur, all, Some(why);
      case Moved(next, fx) =>
        assert all + (fx + FoldRun(next, inputs[i + 1..]).effects) == (all + fx) + FoldRun(next, inputs[i + 1..]).effects;
        cur, all := next, all + fx;
    }
  }

  method ApplyStep(start: StepState, inputs: seq<Input>) returns (cur: StepState, all: seq<Effect>, err: Option<Refusal>)
    ensures Fold(cur, all, err) == FoldStep(start, inputs)
  {
    cur, all, err := start, [], None;
    for i := 0 to |inputs|
      invariant var rest := FoldStep(cur, inputs[i..]);
        FoldStep(start, inputs) == Fold(rest.state, all + rest.effects, rest.err)
      invariant err.None?
    {
      assert inputs[i..][0] == inputs[i] && inputs[i..][1..] == inputs[i + 1..];
      match NextStepState(cur, inputs[i].event, inputs[i].guards)
      case Refused(why) =>
        assert all + [] == all;
        return cur, all, Some(why);
      case Moved(next, fx) =>
        assert all + (fx + FoldStep(next, inputs[i + 1..]).effects) == (all + fx) + FoldStep(next, inputs[i + 1..]).effects;
        cur, all := next, all + fx;
    }
  }

  /**
   * The run state a set of steps implies. The order of the tests is the meaning: an open step outranks
   * everything, a failure outranks a cancellation, and a skip counts as success.
   */
  function AggregateOf(steps: seq<StepState>): RunState {
    if exists j :: 0 <= j < |steps| && !steps[j].IsTerminal() then RunRunning
    else if StepFailed in steps then RunFailed
    else if StepCancelled in steps then RunCancelled
    else RunSucceeded
  }

  method RunAggregate(steps: seq<StepState>) returns (r: RunState)
    ensures r == AggregateOf(steps)
    ensures r.RunSucceeded? <==> forall j :: 0 <= j < |steps| ==> steps[j].StepSucceeded? || steps[j].StepSkipped?
    ensures r != RunQueued
  {
    var anyActive, anyFailed, anyCancelled := false, false, false;
    for i := 0 to |steps|
      invariant anyActive <==> exists j :: 0 <= j < i && !steps[j].IsTerminal()
      invariant anyFailed <==> StepFailed in steps[..i]
      invariant anyCancelled <==> StepCancelled in steps[..i]
    {
      assert steps[..i + 1] == steps[..i] + [steps[i]];
      match steps[i]
      case StepPending => anyActive := true;
      case StepRunning => anyActive := true;
      case StepFailed => anyFailed := true;
      case StepCancelled => anyCancelled := true;
      case _ =>
    }
    assert steps[..|steps|] == steps;
    r := if anyActive then RunRunning
         else if anyFailed then RunFailed
         else if anyCancelled then RunCancelled
         else RunSucceeded;
  }
}
