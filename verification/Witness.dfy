/** Concrete runs showing that two hypotheses of the closure and of the deadline verdict are needed. */
module Witness {
  import opened Wrappers
  import opened Machine
  import opened Tables
  import opened Graph
  import opened Protocol
  import opened Safety
  import opened Futures
  import opened Gates

  lemma ReachableStep(w: World, a: Action)
    requires Reachable(w) && Enabled(w, a)
    ensures Reachable(Step(w, a))
  {
    var now, acts :| Feasible(Initial(now), acts) && Run(Initial(now), acts) == w;
    RunAppend(Initial(now), acts, a);
  }

  const QUIET := Report(Succeeded, None, 0, false)

  /** A reachable world in which executor 0 works on the only run "r". */
  ghost predicate Stage(w: World, row: RunRow, pc: Pc) {
    && Reachable(w) && "r" in w.runs && w.runs["r"] == row && w.now == 0
    && 0 in w.execs && w.execs[0] == Exec("r", "o", 0, Some(1), pc)
  }

  lemma Go0(w: World, row: RunRow, pc: Pc, rep: Report) returns (w': World)
    requires Stage(w, row, pc) && CanAdvance(w.execs[0], row, 0, rep)
    ensures var s := Advance(Exec("r", "o", 0, Some(1), pc), row, 0, rep); Stage(w', s.row, s.pc)
  {
    ReachableStep(w, Go(0, rep));
    w' := Step(w, Go(0, rep));
  }

  lemma Queue(steps: seq<NewStep>) returns (w: World)
    requires Insertable(steps)
    ensures Stage(w, FreshRun(steps, 0), Fresh)
  {
    assert Feasible(Initial(0), []) && Run(Initial(0), []) == Initial(0);
    var x := Exec("r", "o", 0, Some(1), Fresh);
    ReachableStep(Initial(0), Create("r", steps, 0, ""));
    var w1 := Step(Initial(0), Create("r", steps, 0, ""));
    ReachableStep(w1, Call(0, x));
    w := Step(w1, Call(0, x));
  }

  /** The rows of the only run while it is executed: one step s. */
  function Claimed(s: StepRow, deps: set<(string, string)>): RunRow {
    RunRow(RunRunning, 0, None, None, None, "o", 1, Some(DEFAULT_LEASE_TTL), NoCode, [s], deps)
  }

  /** From the queue to the loop head. */
  lemma ClaimOne(n: NewStep) returns (w: World)
    requires Insertable([n])
    ensures Stage(w, Claimed(FreshStep(n), EdgesOf([n])), Head)
  {
    w := Queue([n]);
    assert FreshRun([n], 0).steps == [FreshStep(n)];
    w := Go0(w, FreshRun([n], 0), Fresh, QUIET);
  }

  function Skipped(s: StepRow): StepRow {
    s.(state := StepSkipped, reason := StepCodeSkippedUpstream, nextAttemptAt := None)
  }

  lemma SkipOnly(w: World, s: StepRow, deps: set<(string, string)>, timedOut: bool) returns (w': World)
    requires Stage(w, Claimed(s, deps), Closing(timedOut)) && s.state.StepPending?
    ensures Stage(w', Claimed(Skipped(s), deps), Judging(timedOut))
  {
    hide Advance, Reachable;
    var row := Claimed(s, deps);
    SkipSteps(s, deps, timedOut);
    w' := Go0(w, row, Closing(timedOut), QUIET);
    w' := Go0(w', row, Skipping([s.name], timedOut), QUIET);
    w' := Go0(w', Claimed(Skipped(s), deps), Skipping([], timedOut), QUIET);
  }

  lemma SkipSteps(s: StepRow, deps: set<(string, string)>, timedOut: bool)
    requires s.state.StepPending?
    ensures var row := Claimed(s, deps); var done := Claimed(Skipped(s), deps);
      && Advance(Exec("r", "o", 0, Some(1), Closing(timedOut)), row, 0, QUIET) == StepTo(row, [], Skipping([s.name], timedOut))
      && Advance(Exec("r", "o", 0, Some(1), Skipping([s.name], timedOut)), row, 0, QUIET).row == done
      && Advance(Exec("r", "o", 0, Some(1), Skipping([s.name], timedOut)), row, 0, QUIET).pc == Skipping([], timedOut)
      && Advance(Exec("r", "o", 0, Some(1), Skipping([], timedOut)), done, 0, QUIET) == StepTo(done, [], Judging(timedOut))
  {
    assert PendingNames([s]) == [s.name] by { assert PendingNames([s][1..]) == []; }
    assert [s][0 := Skipped(s)] == [Skipped(s)] && [s.name][1..] == [];
  }

  /** From the loop's end over one pending step to the end of the run. */
  lemma SkipOneAndFinish(w: World, s: StepRow, deps: set<(string, string)>, timedOut: bool) returns (w': World)
    requires Stage(w, Claimed(s, deps), Closing(timedOut)) && s.state.StepPending?
    ensures Reachable(w') && "r" in w'.runs
    ensures var row := w'.runs["r"];
      && row.state.RunSucceeded? && row.reason == (if timedOut then RunCodeTimedOut else RunCodeSucceeded)
      && |row.steps| == 1 && row.steps[0].state.StepSkipped? && row.steps[0].name == s.name && row.deps == deps
  {
    hide Reachable, FinishCode, FirstBad, Advance;
    w' := SkipOnly(w, s, deps, timedOut);
    var row := Claimed(Skipped(s), deps);
    var code := if timedOut then RunCodeTimedOut else RunCodeSucceeded;
    LastTwo(s, deps, timedOut);
    w' := Go0(w', row, Judging(timedOut), QUIET);
    w' := Go0(w', row, Finishing(code), QUIET);
  }

  lemma LastTwo(s: StepRow, deps: set<(string, string)>, timedOut: bool)
    ensures var row := Claimed(Skipped(s), deps); var code := if timedOut then RunCodeTimedOut else RunCodeSucceeded;
      && Advance(Exec("r", "o", 0, Some(1), Judging(timedOut)), row, 0, QUIET) == StepTo(row, [], Finishing(code))
      && Advance(Exec("r", "o", 0, Some(1), Finishing(code)), row, 0, QUIET).row
         == row.(state := RunSucceeded, reason := code, leaseOwner := "", leaseExpiresAt := None)
  {
    var row := Claimed(Skipped(s), deps);
    assert FirstBad([Skipped(s)][1..]).None?;
    assert FirstBad([Skipped(s)]).None?;
    assert AllTerminal(row.steps) && !AnyFailedOrCancelled(row.steps);
  }

  const SELF := NewStep("a", ["a"], None)

  /** A run of one step that needs itself, from the queue to the end of the loop. */
  lemma SelfToClosing() returns (w: World)
    ensures Stage(w, Claimed(FreshStep(SELF), EdgesOf([SELF])), Closing(false))
  {
    hide Reachable, Advance;
    w := ClaimOne(SELF);
    var row := Claimed(FreshStep(SELF), EdgesOf([SELF]));
    SelfSteps();
    w := Go0(w, row, Head, QUIET);
    w := Go0(w, row, Seek, QUIET);
    w := Go0(w, row, NoneRunnable, QUIET);
  }

  lemma SelfSteps()
    ensures var row := Claimed(FreshStep(SELF), EdgesOf([SELF]));
      && Advance(Exec("r", "o", 0, Some(1), Head), row, 0, QUIET) == StepTo(row, [], Seek)
      && Advance(Exec("r", "o", 0, Some(1), Seek), row, 0, QUIET) == StepTo(row, [], NoneRunnable)
      && Advance(Exec("r", "o", 0, Some(1), NoneRunnable), row, 0, QUIET) == StepTo(row, [], Closing(false))
  {
    var row := Claimed(FreshStep(SELF), EdgesOf([SELF]));
    assert ("a", "a") in EdgesOf([SELF]) by { assert [SELF][0].needs[0] == "a"; }
    assert Needs(row, 0, 0);
    assert RetryDue(row.steps[1..]).None?;
  }

  /** A step that needs itself is skipped and its run succeeds, though nothing failed. */
  lemma CycleEndsAsSuccess() returns (w: World)
    ensures Reachable(w) && "r" in w.runs
    ensures var row := w.runs["r"];
      row.state.RunSucceeded? && |row.steps| == 1 && row.steps[0].state.StepSkipped? && !DependsOnFailed(row, 0)
  {
    w := SelfToClosing();
    w := SkipOneAndFinish(w, FreshStep(SELF), EdgesOf([SELF]), false);
    forall d: nat ensures !FailedAbove(w.runs["r"], 0, d) { NoFailureAbove(w.runs["r"], d); }
  }

  lemma {:induction false} NoFailureAbove(row: RunRow, d: nat)
    requires |row.steps| == 1 && !row.steps[0].state.StepFailed?
    ensures !FailedAbove(row, 0, d)
    decreases d
  {
    if d > 0 { NoFailureAbove(row, d - 1); }
  }

  const TWO_TRIES := NewStep("a", [], Some(1))
  const KILLED := Report(TimedOut, None, 0, true)

  /** The only step of a run with two attempts is launched. */
  lemma LaunchOne() returns (w: World)
    ensures Stage(w, Claimed(FreshStep(TWO_TRIES).(state := StepRunning, attempt := 1), EdgesOf([TWO_TRIES])), Launched("a", 1, 2))
  {
    hide Reachable, Advance, EdgesOf;
    w := ClaimOne(TWO_TRIES);
    var row := Claimed(FreshStep(TWO_TRIES), EdgesOf([TWO_TRIES]));
    LaunchSteps();
    w := Go0(w, row, Head, QUIET);
    w := Go0(w, row, Seek, QUIET);
    w := Go0(w, row, Chosen("a"), QUIET);
    w := Go0(w, row, Starting("a", 0, 2), QUIET);
  }

  lemma LaunchSteps()
    ensures var s, deps := FreshStep(TWO_TRIES), EdgesOf([TWO_TRIES]); var row := Claimed(s, deps);
      && Advance(Exec("r", "o", 0, Some(1), Head), row, 0, QUIET) == StepTo(row, [], Seek)
      && Advance(Exec("r", "o", 0, Some(1), Seek), row, 0, QUIET) == StepTo(row, [], Chosen("a"))
      && Advance(Exec("r", "o", 0, Some(1), Chosen("a")), row, 0, QUIET) == StepTo(row, [], Starting("a", 0, 2))
      && Advance(Exec("r", "o", 0, Some(1), Starting("a", 0, 2)), row, 0, QUIET).row == Claimed(s.(state := StepRunning, attempt := 1), deps)
      && Advance(Exec("r", "o", 0, Some(1), Starting("a", 0, 2)), row, 0, QUIET).pc == Launched("a", 1, 2)
  {
    var s, deps := FreshStep(TWO_TRIES), EdgesOf([TWO_TRIES]);
    var row := Claimed(s, deps);
    assert UpstreamsSucceeded(row, 0) by { assert !Needs(row, 0, 0); }
    assert [s][0 := s.(state := StepRunning, attempt := 1)] == [s.(state := StepRunning, attempt := 1)];
  }

  /** A run killed by its own deadline in a step with attempts left ends as succeeded and timed out. */
  lemma TimeoutEndsAsSuccess() returns (w: World)
    ensures Reachable(w) && "r" in w.runs
    ensures w.runs["r"].state.RunSucceeded? && w.runs["r"].reason.RunCodeTimedOut?
  {
    w := LaunchOne();
    var s, deps := FreshStep(TWO_TRIES), EdgesOf([TWO_TRIES]);
    var s1 := s.(state := StepRunning, attempt := 1);
    w := Go0(w, Claimed(s1, deps), Launched("a", 1, 2), KILLED);
    var s2 := s1.(state := StepPending, reason := StepCodeFailedTimeout, nextAttemptAt := Some(0));
    assert [s1][0 := s2] == [s2];
    w := Go0(w, Claimed(s1, deps), Recording("a", Decide(KILLED, 1, 2, 0), true), QUIET);
    w := SkipOneAndFinish(w, s2, deps, true);
  }

  /**
   * An execution that outlives its lease: its only step needs itself and is skipped at once, the clock passes
   * the lease while the executor stands before FinishRun, and the run is left running for good.
   */
  lemma LeaseRunsOut() returns (w: World)
    ensures Reachable(w) && 0 in w.execs && w.execs[0].pc.Finishing? && "r" in w.runs && w.execs[0].run == "r"
    ensures var row := w.runs["r"]; row.leaseExpiresAt.Some? && row.leaseExpiresAt.value <= w.now && AllTerminal(row.steps)
    ensures Enabled(w, Go(0, QUIET)) && Orphaned(Step(w, Go(0, QUIET)), "r")
  {
    hide Advance, EdgesOf, Reachable, Orphaned, AllTerminal;
    var s, deps := FreshStep(SELF), EdgesOf([SELF]);
    var w1 := SelfToClosing();
    w1 := SkipOnly(w1, s, deps, false);
    var row := Claimed(Skipped(s), deps);
    LastTwo(s, deps, false);
    w1 := Go0(w1, row, Judging(false), QUIET);
    w := LeaseOver(w1, row, RunCodeSucceeded);
  }

  /** The clock passes the lease of an executor that is about to finish. */
  lemma LeaseOver(w: World, row: RunRow, code: Code) returns (w': World)
    requires Stage(w, row, Finishing(code)) && row.leaseExpiresAt == Some(DEFAULT_LEASE_TTL)
    ensures Reachable(w') && 0 in w'.execs && w'.execs[0].pc.Finishing? && "r" in w'.runs && w'.execs[0].run == "r"
    ensures w'.runs["r"] == row && row.leaseExpiresAt.value <= w'.now && AllTerminal(row.steps)
    ensures Enabled(w', Go(0, QUIET)) && Orphaned(Step(w', Go(0, QUIET)), "r")
  {
    hide Reachable, Advance, Orphaned, AllTerminal, WorldOk, CanAdvance;
    ReachableStep(w, Tick(DEFAULT_LEASE_TTL));
    w' := Step(w, Tick(DEFAULT_LEASE_TTL));
    assert w'.runs == w.runs && w'.execs == w.execs && w'.now == DEFAULT_LEASE_TTL;
    hide Step, Enabled, Stage;
    ReachableOk(w');
    GoAtFinish(w', 0, QUIET);
    LateStep(w', 0, QUIET);
  }
}
