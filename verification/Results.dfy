/** The main results: what holds of every run in every reachable state, and over every continuation. */
module Results {
  import opened Wrappers
  import opened Machine
  import opened Tables
  import opened Graph
  import opened History
  import opened Invariant
  import opened Protocol
  import opened Safety

  // ----- how a run may stand and how it may have ended -----

  /**
   * I2 and mutual exclusion: nothing is open under a finished run, nothing runs while its executor
   * stands between two steps, and no run has two executors past their claim.
   */
  lemma NothingOpenUnderAnEnd(w: World, id: string)
    requires Reachable(w) && id in w.runs
    ensures w.runs[id].state.IsTerminal() ==> AllTerminal(w.runs[id].steps)
    ensures forall e :: e in w.execs && w.execs[e].run == id && w.execs[e].pc.Head? ==>
      w.runs[id].state.RunRunning? && NoneIs(w.runs[id], StepRunning)
    ensures forall e, f :: e in w.execs && f in w.execs && Rivals(w.execs[e], w.execs[f]) ==> e == f
  {
    hide Reachable, RowOk, PcOk, AllTerminal, NoneIs;
    ReachableOk(w);
    OpenOf(w.runs[id]);
    forall e | e in w.execs && w.execs[e].run == id && w.execs[e].pc.Head?
      ensures w.runs[id].state.RunRunning? && NoneIs(w.runs[id], StepRunning)
    {
      HeadIsIdle(w.runs[id], w.execs[e].pc);
    }
  }

  lemma OpenOf(row: RunRow)
    requires RowOk(row)
    ensures row.state.IsTerminal() ==> AllTerminal(row.steps)
  {
  }

  lemma HeadIsIdle(row: RunRow, pc: Pc)
    requires PcOk(row, pc) && pc.Head?
    ensures row.state.RunRunning? && NoneIs(row, StepRunning)
  {
  }

  lemma RunOutFacts(row: RunRow)
    requires RowOk(row) && AllTerminal(row.steps) && NoneIs(row, StepCancelled)
    ensures StartedProperly(row) && RanMeansStarted(row) && RanOut(row)
  {
    forall i: nat | i < |row.steps| ensures StepOk(row, i) && row.steps[i].state != StepCancelled {}
  }

  /** What a run that ran out of runnable steps looks like, whatever its graph. */
  ghost predicate Closed(row: RunRow) {
    && RanOut(row) && (row.state.RunFailed? <==> SomeFailed(row))
    && forall i: nat :: i < |row.steps| ==>
         (row.steps[i].state.StepSkipped? <==> DependsOnFailed(row, i) || !WellFounded(row, i))
  }

  lemma ClosedFromRow(row: RunRow)
    requires RowOk(row) && (row.state.RunSucceeded? || row.state.RunFailed?) && !row.reason.RunCodeTimedOut?
    ensures Closed(row)
  {
    RunOutFacts(row);
    forall i: nat | i < |row.steps|
      ensures row.steps[i].state.StepSkipped? <==> DependsOnFailed(row, i) || !WellFounded(row, i)
    {
      SkipClosure(row, i);
    }
  }

  /**
   * The closure: in every run that ended by running out of runnable steps, whatever the graph and the
   * interleaving, the skipped steps are exactly those that transitively depend on a failed step or sit
   * on or below a cycle, all others succeeded or failed, and the run failed exactly when a step did. On
   * an acyclic graph the skipped steps are the transitive dependents of the failed ones and no others.
   */
  lemma FinishedRunClosure(w: World, id: string)
    requires Reachable(w) && id in w.runs
    requires var row := w.runs[id]; (row.state.RunSucceeded? || row.state.RunFailed?) && !row.reason.RunCodeTimedOut?
    ensures Closed(w.runs[id])
    ensures var row := w.runs[id]; forall rank, i: nat :: Ranks(row, rank) && i < |row.steps| ==>
      (row.steps[i].state.StepSkipped? <==> DependsOnFailed(row, i))
  {
    ReachableOk(w);
    var row := w.runs[id];
    assert RowOk(row);
    ClosedFromRow(row);
    RunOutFacts(row);
    forall rank, i: nat | Ranks(row, rank) && i < |row.steps|
      ensures row.steps[i].state.StepSkipped? <==> DependsOnFailed(row, i)
    {
      SkipClosureAcyclic(row, rank, i);
    }
  }

  // ----- attempts -----

  function SumMax(steps: seq<StepRow>): nat {
    if |steps| == 0 then 0 else steps[0].maxAttempts + SumMax(steps[1..])
  }

  /** All step.started events of one run. Each process launch follows one. */
  function Launches(log: seq<Entry>, id: string): nat {
    if |log| == 0 then 0
    else
      var e := log[|log| - 1];
      Launches(log[..|log| - 1], id) + if e.run == id && e.kind.KStepStarted? && e.step.Some? then 1 else 0
  }

  function SumStarted(log: seq<Entry>, id: string, steps: seq<StepRow>): nat {
    if |steps| == 0 then 0
    else StartedCount(Part(log, id, Some(steps[0].name))) + SumStarted(log, id, steps[1..])
  }

  lemma {:induction false} SumStartedEmpty(id: string, steps: seq<StepRow>)
    ensures SumStarted([], id, steps) == 0
  {
    if |steps| > 0 { SumStartedEmpty(id, steps[1..]); }
  }

  /** One more entry counts for the one step it names. */
  lemma {:induction false} SumStartedAppend(log: seq<Entry>, e: Entry, id: string, steps: seq<StepRow>)
    requires UniqueNames(steps)
    ensures SumStarted(log + [e], id, steps) == SumStarted(log, id, steps) +
      if e.run == id && e.kind.KStepStarted? && (exists i :: 0 <= i < |steps| && e.step == Some(steps[i].name)) then 1 else 0
  {
    if |steps| > 0 {
      assert UniqueNames(steps[1..]);
      SumStartedAppend(log, e, id, steps[1..]);
      var key := Some(steps[0].name);
      PartAppend(log, [e], id, key);
      PartOne(e, id, key);
      if e.run == id && e.step == key {
        StartedCountAppend(Part(log, id, key), e);
      } else {
        assert Part(log, id, key) + [] == Part(log, id, key);
      }
      assert forall i :: 1 <= i < |steps| ==> steps[i] == steps[1..][i - 1];
      assert forall i :: 0 <= i < |steps[1..]| ==> steps[1..][i] == steps[i + 1];
    }
  }

  lemma {:induction false} LaunchesSplit(log: seq<Entry>, id: string, row: RunRow)
    requires UniqueNames(row.steps)
    requires forall e :: e in log && e.run == id ==> KnownStep(row, e.step)
    ensures Launches(log, id) == SumStarted(log, id, row.steps)
  {
    if |log| == 0 {
      SumStartedEmpty(id, row.steps);
    } else {
      var init, e := log[..|log| - 1], log[|log| - 1];
      LaunchesSplit(init, id, row);
      SumStartedAppend(init, e, id, row.steps);
      assert init + [e] == log;
      assert e.run == id ==> KnownStep(row, e.step);
    }
  }

  lemma {:induction false} SumStartedBound(log: seq<Entry>, id: string, steps: seq<StepRow>)
    requires forall i :: 0 <= i < |steps| ==> StartedCount(Part(log, id, Some(steps[i].name))) <= steps[i].maxAttempts
    ensures SumStarted(log, id, steps) <= SumMax(steps)
  {
    if |steps| > 0 {
      forall i | 0 <= i < |steps[1..]|
        ensures StartedCount(Part(log, id, Some(steps[1..][i].name))) <= steps[1..][i].maxAttempts
      {
        assert steps[1..][i] == steps[i + 1];
      }
      SumStartedBound(log, id, steps[1..]);
    }
  }

  /**
   * The retry budget: attempts equal the number of step.started events, a pending step always has one
   * left, and over the whole run no more processes are launched than the budgets add up to.
   */
  lemma AttemptsAreBudgeted(w: World, id: string)
    requires Reachable(w) && id in w.runs
    ensures var row := w.runs[id]; forall i: nat :: i < |row.steps| ==>
      && row.steps[i].attempt == StartedCount(Part(w.log, id, Some(row.steps[i].name)))
      && row.steps[i].attempt <= row.steps[i].maxAttempts
      && (row.steps[i].state.StepPending? ==> row.steps[i].attempt < row.steps[i].maxAttempts)
    ensures Launches(w.log, id) <= SumMax(w.runs[id].steps)
  {
    ReachableOk(w);
    var row := w.runs[id];
    assert RowOk(row) && LogOk(id, row, w.log);
    forall i: nat | i < |row.steps| ensures StepOk(row, i) && StepPartOk(Part(w.log, id, Some(row.steps[i].name)), row.steps[i]) {}
    LaunchesSplit(w.log, id, row);
    SumStartedBound(w.log, id, row.steps);
  }

  /**
   * No run waits for ever on its retry gate: a parked step has all its upstreams succeeded, so once the
   * clock reaches the time an executor sleeps for, some step is runnable.
   */
  lemma WakingFindsWork(w: World, e: nat)
    requires Reachable(w) && e in w.execs && w.execs[e].pc.Sleeping?
    ensures w.execs[e].run in w.runs
    ensures var row := w.runs[w.execs[e].run];
      && (forall i: nat :: i < |row.steps| && Parked(row.steps[i]) ==> UpstreamsSucceeded(row, i))
      && (w.now >= w.execs[e].pc.due ==> NextRunnable(row, w.now).Some?)
  {
    hide Reachable, RowOk, PcOk, UpstreamsSucceeded, NextRunnable, Parked;
    ReachableOk(w);
    SleeperFindsWork(w.runs[w.execs[e].run], w.execs[e].pc.due, w.now);
  }

  lemma SleeperFindsWork(row: RunRow, due: int, now: int)
    requires RowOk(row) && PcOk(row, Sleeping(due))
    ensures forall i: nat :: i < |row.steps| && Parked(row.steps[i]) ==> UpstreamsSucceeded(row, i)
    ensures now >= due ==> NextRunnable(row, now).Some?
  {
    forall i: nat | i < |row.steps| && Parked(row.steps[i]) ensures UpstreamsSucceeded(row, i) {
      assert StepOk(row, i);
    }
    var k: nat :| k < |row.steps| && Parked(row.steps[k]) && row.steps[k].nextAttemptAt == Some(due);
    if now >= due { assert Runnable(row, now, k); }
  }

  // ----- the event log -----

  /** I15 for every partition there is: each event starts where the one before it in its partition ended. */
  lemma EventChainHolds(w: World, id: string, step: Option<string>)
    requires Reachable(w)
    ensures Chained(Part(w.log, id, step))
    ensures id in w.runs && step.None? ==> RunPartOk(Part(w.log, id, None), w.runs[id].state)
  {
    ReachableOk(w);
    if id in w.runs && (step.None? || KnownStep(w.runs[id], step)) {
      assert LogOk(id, w.runs[id], w.log);
      if step.Some? {
        var i :| 0 <= i < |w.runs[id].steps| && w.runs[id].steps[i].name == step.value;
        assert StepPartOk(Part(w.log, id, Some(w.runs[id].steps[i].name)), w.runs[id].steps[i]);
      }
    } else {
      forall e | e in w.log ensures e.run != id || e.step != step {
        if id in w.runs { assert LogOk(id, w.runs[id], w.log); }
      }
      PartOfStranger(w.log, id, step);
    }
  }

  function Kinds(p: seq<Entry>): seq<Kind> {
    seq(|p|, i requires 0 <= i < |p| => p[i].kind)
  }

  /** The event names after the first: what moved the run since it was queued. */
  function Moves(p: seq<Entry>): seq<Kind> {
    if |p| == 0 then [] else Kinds(p[1..])
  }

  /** The event names a list of effects demands, in order. */
  function Emits(fx: seq<Effect>): seq<Kind> {
    if |fx| == 0 then []
    else Emits(fx[..|fx| - 1]) + if fx[|fx| - 1].Emit? then [fx[|fx| - 1].kind] else []
  }

  lemma {:induction false} EmitsAppend(a: seq<Effect>, b: seq<Effect>)
    ensures Emits(a + b) == Emits(a) + Emits(b)
  {
    if |b| == 0 {
      assert a + b == a;
    } else {
      assert (a + b)[..|a + b| - 1] == a + b[..|b| - 1];
      EmitsAppend(a, b[..|b| - 1]);
    }
  }

  lemma {:induction false} EmitsNothing(fx: seq<Effect>)
    requires forall i :: 0 <= i < |fx| ==> !fx[i].Emit?
    ensures Emits(fx) == []
  {
    if |fx| > 0 { EmitsNothing(fx[..|fx| - 1]); }
  }

  lemma EmitsOfEmitsOnly(fx: seq<Effect>, k: Kind)
    requires EmitsOnly(fx, k)
    ensures Emits(fx) == [k]
  {
    EmitsNothing(fx[..|fx| - 1]);
  }

  lemma {:induction false} FoldRunAppend(cur: RunState, inputs: seq<Input>, last: Input)
    requires FoldRun(cur, inputs).err.None?
    ensures var f := FoldRun(cur, inputs);
      match NextRunState(f.state, last.event, last.guards)
      case Refused(why) => FoldRun(cur, inputs + [last]) == Fold(f.state, f.effects, Some(why))
      case Moved(next, fx) => FoldRun(cur, inputs + [last]) == Fold(next, f.effects + fx, None)
    decreases |inputs|
  {
    hide NextRunState;
    if |inputs| == 0 {
      assert inputs + [last] == [last] && [last][1..] == [];
      assert forall fx: seq<Effect> :: fx + [] == fx && [] + fx == fx;
    } else {
      var m := NextRunState(cur, inputs[0].event, inputs[0].guards);
      FoldRunAppend(m.next, inputs[1..], last);
      assert (inputs + [last])[1..] == inputs[1..] + [last];
    }
  }

  lemma {:induction false} FoldStepAppend(cur: StepState, inputs: seq<Input>, last: Input)
    requires FoldStep(cur, inputs).err.None?
    ensures var f := FoldStep(cur, inputs);
      match NextStepState(f.state, last.event, last.guards)
      case Refused(why) => FoldStep(cur, inputs + [last]) == Fold(f.state, f.effects, Some(why))
      case Moved(next, fx) => FoldStep(cur, inputs + [last]) == Fold(next, f.effects + fx, None)
    decreases |inputs|
  {
    hide NextStepState;
    if |inputs| == 0 {
      assert inputs + [last] == [last] && [last][1..] == [];
      assert forall fx: seq<Effect> :: fx + [] == fx && [] + fx == fx;
    } else {
      var m := NextStepState(cur, inputs[0].event, inputs[0].guards);
      FoldStepAppend(m.next, inputs[1..], last);
      assert (inputs + [last])[1..] == inputs[1..] + [last];
    }
  }

  /** Nothing follows a refusal. */
  lemma {:induction false} FoldRunStops(cur: RunState, inputs: seq<Input>, last: Input)
    requires FoldRun(cur, inputs).err.Some?
    ensures FoldRun(cur, inputs + [last]) == FoldRun(cur, inputs)
    decreases |inputs|
  {
    hide NextRunState;
    assert |inputs| > 0;
    match NextRunState(cur, inputs[0].event, inputs[0].guards)
    case Refused(_) =>
    case Moved(next, _) =>
      FoldRunStops(next, inputs[1..], last);
      assert (inputs + [last])[1..] == inputs[1..] + [last];
  }

  lemma {:induction false} FoldStepStops(cur: StepState, inputs: seq<Input>, last: Input)
    requires FoldStep(cur, inputs).err.Some?
    ensures FoldStep(cur, inputs + [last]) == FoldStep(cur, inputs)
    decreases |inputs|
  {
    hide NextStepState;
    assert |inputs| > 0;
    match NextStepState(cur, inputs[0].event, inputs[0].guards)
    case Refused(_) =>
    case Moved(next, _) =>
      FoldStepStops(next, inputs[1..], last);
      assert (inputs + [last])[1..] == inputs[1..] + [last];
  }

  lemma RunWitnessWorks(a: RunState, b: RunState, k: Kind)
    requires RunMoves(a, b, k)
    ensures var w := RunWitness(a, k); var m := NextRunState(a, w.event, w.guards);
      m.Moved? && m.next == b && Emits(m.effects) == [k]
  {
    var w := RunWitness(a, k);
    RunMoveWitness(a, w.event, w.guards);
    RunMoveObeys(a, w.event, w.guards);
    EmitsOfEmitsOnly(NextRunState(a, w.event, w.guards).effects, k);
  }

  lemma StepWitnessWorks(a: StepState, b: StepState, k: Kind)
    requires StepMoves(a, b, k)
    ensures var w := StepWitness(a, k); var m := NextStepState(a, w.event, w.guards);
      m.Moved? && m.next == b && Emits(m.effects) == [k]
  {
    var w := StepWitness(a, k);
    StepMoveWitness(a, w.event, w.guards);
    StepMoveObeys(a, w.event, w.guards);
    EmitsOfEmitsOnly(NextStepState(a, w.event, w.guards).effects, k);
  }

  ghost predicate ReplaysRun(inputs: seq<Input>, st: RunState, kinds: seq<Kind>) {
    var f := FoldRun(RunQueued, inputs);
    f.err.None? && f.state == st && Emits(f.effects) == kinds
  }

  ghost predicate ReplaysStep(inputs: seq<Input>, st: StepState, kinds: seq<Kind>) {
    var f := FoldStep(StepPending, inputs);
    f.err.None? && f.state == st && Emits(f.effects) == kinds
  }

  lemma ReplayOneRunMove(inputs: seq<Input>, a: RunState, kinds: seq<Kind>, b: RunState, k: Kind)
    requires ReplaysRun(inputs, a, kinds) && RunMoves(a, b, k)
    ensures ReplaysRun(inputs + [RunWitness(a, k)], b, kinds + [k])
  {
    RunWitnessWorks(a, b, k);
    hide RunMoves, NextRunState, RunWitness, Emits, FoldRun;
    var last := RunWitness(a, k);
    FoldRunAppend(RunQueued, inputs, last);
    EmitsAppend(FoldRun(RunQueued, inputs).effects, NextRunState(a, last.event, last.guards).effects);
  }

  lemma ReplayOneStepMove(inputs: seq<Input>, a: StepState, kinds: seq<Kind>, b: StepState, k: Kind)
    requires ReplaysStep(inputs, a, kinds) && StepMoves(a, b, k)
    ensures ReplaysStep(inputs + [StepWitness(a, k)], b, kinds + [k])
  {
    StepWitnessWorks(a, b, k);
    hide StepMoves, NextStepState, StepWitness, Emits, FoldStep;
    var last := StepWitness(a, k);
    FoldStepAppend(StepPending, inputs, last);
    EmitsAppend(FoldStep(StepPending, inputs).effects, NextStepState(a, last.event, last.guards).effects);
  }

  /** A run's events are the emissions of a history the run machine accepts, ending in the stored state. */
  lemma {:induction false} ReplayRunPart(p: seq<Entry>, st: RunState) returns (inputs: seq<Input>)
    requires RunPartOk(p, st)
    ensures ReplaysRun(inputs, st, Moves(p))
  {
    hide RunMoves, RunWitness, FoldRun, Emits;
    inputs := [];
    if |p| > 1 {
      var a := RunPartBefore(p, st);
      hide ReplaysRun, RunPartOk, Moves, Legal;
      var q, e := p[..|p| - 1], p[|p| - 1];
      inputs := ReplayRunPart(q, a);
      ReplayOneRunMove(inputs, a, Moves(q), st, e.kind);
      inputs := inputs + [RunWitness(a, e.kind)];
    } else {
      OneEventReplays(p, st);
    }
  }

  lemma OneEventReplays(p: seq<Entry>, st: RunState)
    requires RunPartOk(p, st) && |p| == 1
    ensures ReplaysRun([], st, Moves(p))
  {
  }

  /** Taking the last event off a run's history leaves one, that ended where this event starts. */
  lemma RunPartBefore(p: seq<Entry>, st: RunState) returns (a: RunState)
    requires RunPartOk(p, st) && |p| > 1
    ensures var q, e := p[..|p| - 1], p[|p| - 1];
      RunPartOk(q, a) && RunMoves(a, st, e.kind) && Moves(p) == Moves(q) + [e.kind]
  {
    var q, e := p[..|p| - 1], p[|p| - 1];
    assert Legal(e) && e.from == Some(q[|q| - 1].to);
    a := e.from.value.run;
    var k, m := Moves(p), Moves(q);
    assert |k| == |m| + 1 && (forall i :: 0 <= i < |m| ==> k[i] == m[i]) && k[|m|] == e.kind;
  }

  lemma {:induction false} ReplayStepPart(p: seq<Entry>, s: StepRow) returns (inputs: seq<Input>)
    requires StepPartOk(p, s)
    ensures ReplaysStep(inputs, s.state, Kinds(p))
  {
    inputs := [];
    if |p| == 0 {
      assert Kinds(p) == [];
    } else {
      var q, e := p[..|p| - 1], p[|p| - 1];
      assert Legal(e) && (|q| > 0 ==> e.from == Some(q[|q| - 1].to));
      var a := e.from.value.step;
      inputs := ReplayStepPart(q, s.(state := a, attempt := StartedCount(q)));
      ReplayOneStepMove(inputs, a, Kinds(q), s.state, e.kind);
      assert Kinds(p) == Kinds(q) + [e.kind];
      inputs := inputs + [StepWitness(a, e.kind)];
    }
  }

  ghost predicate StepReplays(log: seq<Entry>, id: string, s: StepRow) {
    exists inputs :: ReplaysStep(inputs, s.state, Kinds(Part(log, id, Some(s.name))))
  }

  ghost predicate RunReplays(log: seq<Entry>, id: string, row: RunRow) {
    exists inputs :: ReplaysRun(inputs, row.state, Moves(Part(log, id, None)))
  }

  lemma LogReplays(id: string, row: RunRow, log: seq<Entry>)
    requires LogOk(id, row, log)
    ensures RunReplays(log, id, row)
    ensures forall i: nat :: i < |row.steps| ==> StepReplays(log, id, row.steps[i])
  {
    hide ReplaysRun, ReplaysStep, RunPartOk, StepPartOk, Part, Moves, Kinds;
    var inputs := ReplayRunPart(Part(log, id, None), row.state);
    assert RunReplays(log, id, row);
    forall i: nat | i < |row.steps| ensures StepReplays(log, id, row.steps[i]) {
      var replayed := ReplayStepPart(Part(log, id, Some(row.steps[i].name)), row.steps[i]);
    }
  }

  /** Replaying the log through the pure machines rebuilds every stored state. */
  lemma ReplayRebuildsTheRows(w: World, id: string)
    requires Reachable(w) && id in w.runs
    ensures RunReplays(w.log, id, w.runs[id])
    ensures forall i: nat :: i < |w.runs[id].steps| ==> StepReplays(w.log, id, w.runs[id].steps[i])
  {
    hide LogOk, RunReplays, StepReplays;
    ReachableOk(w);
    LogReplays(id, w.runs[id], w.log);
  }

  /** A run's whole history: queued, then claimed at most once, then one end; or cancelled from the queue. */
  ghost predicate RunStory(k: seq<Kind>) {
    || k == [KRunQueued] || k == [KRunQueued, KRunCancelled] || k == [KRunQueued, KRunStarted]
    || k == [KRunQueued, KRunStarted, KRunSucceeded] || k == [KRunQueued, KRunStarted, KRunFailed]
    || k == [KRunQueued, KRunStarted, KRunCancelled]
  }

  lemma EveryRunHasOneStory(w: World, id: string)
    requires Reachable(w) && id in w.runs
    ensures RunStory(Kinds(Part(w.log, id, None)))
    ensures w.runs[id].state.RunCancelled? ==> w.runs[id].cancelAt.Some?
  {
    ReachableOk(w);
    assert RowOk(w.runs[id]) && LogOk(id, w.runs[id], w.log);
    var p := Part(w.log, id, None);
    StoryOf(p, w.runs[id].state);
  }

  lemma NotLast(p: seq<Entry>, st: RunState, i: nat)
    requires RunPartOk(p, st) && i + 1 < |p| && p[i].to.OfRun?
    ensures !p[i].to.run.IsTerminal()
  {
    assert Legal(p[i + 1]) && p[i + 1].from == Some(p[i + 1 - 1].to);
  }

  lemma StoryOf(p: seq<Entry>, st: RunState)
    requires RunPartOk(p, st)
    ensures RunStory(Kinds(p))
  {
    if |p| > 1 { assert Legal(p[1]) && p[1].from == Some(p[0].to); }
    if |p| > 2 { assert Legal(p[2]) && p[2].from == Some(p[1].to); }
    if |p| > 3 { NotLast(p, st, 2); }
    var k := Kinds(p);
    assert k == if |p| == 1 then [p[0].kind] else if |p| == 2 then [p[0].kind, p[1].kind] else [p[0].kind, p[1].kind, p[2].kind];
  }

  // ----- the verdict and the aggregate -----

  /**
   * FinishRun against RunAggregate, on any rows: its verdict is the aggregate unless a step was cancelled
   * and none failed. FinishRun then says failed where the aggregate says cancelled.
   */
  lemma FinishAgainstAggregate(id: string, row: RunRow, owner: string, code: Code, now: int)
    requires FinishTx(id, row, owner, code, now).Commit?
    ensures var verdict := FinishTx(id, row, owner, code, now).out;
      && (verdict == AggregateOf(States(row.steps)) <==> NoneIs(row, StepCancelled) || SomeFailed(row))
      && (verdict != AggregateOf(States(row.steps)) ==> verdict.RunFailed? && AggregateOf(States(row.steps)).RunCancelled?)
  {
    AggregateByRows(row);
    assert AnyFailedOrCancelled(row.steps) <==> SomeFailed(row) || !NoneIs(row, StepCancelled);
  }

  lemma AggregateByRows(row: RunRow)
    ensures AggregateOf(States(row.steps)) ==
      if !AllTerminal(row.steps) then RunRunning
      else if SomeFailed(row) then RunFailed
      else if !NoneIs(row, StepCancelled) then RunCancelled
      else RunSucceeded
  {
    var st := States(row.steps);
    assert forall i :: 0 <= i < |row.steps| ==> st[i] == row.steps[i].state;
    assert StepFailed in st <==> SomeFailed(row);
    assert StepCancelled in st <==> !NoneIs(row, StepCancelled);
  }

  /** I10 as fsck checks it: the stored state is the aggregate of the steps. */
  ghost predicate I10(row: RunRow) { AggregateOf(States(row.steps)) == row.state }

  /**
   * When the I10 sweep is silent about a reachable run: always about a succeeded or failed one, about a
   * running one while a step is open, about a cancelled one when a step was cancelled and none failed,
   * and never about a queued one.
   */
  lemma I10Exactly(w: World, id: string)
    requires Reachable(w) && id in w.runs
    ensures var row := w.runs[id];
      I10(row) <==>
        match row.state
        case RunQueued => false
        case RunRunning => !AllTerminal(row.steps)
        case RunCancelled => !NoneIs(row, StepCancelled) && !SomeFailed(row)
        case _ => true
  {
    ReachableOk(w);
    assert RowOk(w.runs[id]);
    AggregateByRows(w.runs[id]);
  }
}
