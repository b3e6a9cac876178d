/**
 * internal/engine: ExecuteRun as the loop it is, over the store object, while everybody else may act
 * between any two of its accesses. A ghost trace follows it through the transition system of Protocol:
 * the loop takes exactly the steps of an executor there, and ends.
 */
module Engine {
  import opened Wrappers
  import opened Machine
  import opened Tables
  import opened Invariant
  import opened Protocol
  import opened Safety
  import opened Futures
  import A = Answers
  import B = Backoff
  import S = Store
  import Results

  datatype RetrySpec = RetrySpec(backoff: Option<B.Kind>, initial: int, maxDelay: int, jitter: Option<B.Jitter>)
  datatype StepSpec = StepSpec(timeout: int, retry: Option<RetrySpec>)
  /** The frozen spec: the job's own timeout and its steps by name, in milliseconds and nanoseconds for retries. */
  datatype Job = Job(timeout: int, steps: map<string, StepSpec>)

  datatype EngineError =
    | RunMissing | SpecUnreadable | StoreRefused(err: TxError) | ContextEnded | LogFailed | RunnerRefused | DelayPanic

  /** The errors of an execution that never claimed its run. */
  predicate NotStarted(e: EngineError) {
    e.RunMissing? || e.SpecUnreadable? || (e.StoreRefused? && e.err.NotClaimable?)
  }

  const MILLISECOND := 1_000_000
  const DEFAULT_TIMEOUT := 3_600_000
  const MAX_TIMEOUT := DEFAULT_TIMEOUT

  function RetryPolicyOf(r: Option<RetrySpec>): (p: B.Policy)
    ensures p.initial > 0 && p.maxDelay > 0
  {
    var base := B.Policy(B.Exponential, 30_000 * MILLISECOND, 600_000 * MILLISECOND, B.FullJitter);
    if r.None? then base
    else B.Policy(if r.value.backoff.Some? then r.value.backoff.value else base.backoff,
                  if r.value.initial > 0 then r.value.initial else base.initial,
                  if r.value.maxDelay > 0 then r.value.maxDelay else base.maxDelay,
                  if r.value.jitter.Some? then r.value.jitter.value else base.jitter)
  }

  /** Without a retry block, or with an empty one: thirty seconds, doubling to ten minutes, with full jitter. */
  lemma PolicyDefaults(r: Option<RetrySpec>)
    ensures var p := RetryPolicyOf(r);
      && (r.None? ==> p == RetryPolicyOf(Some(RetrySpec(None, 0, 0, None))))
      && p.backoff == (if r.Some? && r.value.backoff.Some? then r.value.backoff.value else B.Exponential)
      && p.initial == (if r.Some? && r.value.initial > 0 then r.value.initial else 30_000_000_000)
      && p.maxDelay == (if r.Some? && r.value.maxDelay > 0 then r.value.maxDelay else 600_000_000_000)
      && p.jitter == (if r.Some? && r.value.jitter.Some? then r.value.jitter.value else B.FullJitter)
  {
  }

  /** A delay in milliseconds the policy allows after this attempt: any up to its bound with jitter, the bound itself without. */
  ghost predicate Delays(r: Option<RetrySpec>, attempt: nat, ms: int) {
    var bound := B.Ideal(RetryPolicyOf(r), attempt) / 1_000_000;
    0 <= ms <= bound && (RetryPolicyOf(r).jitter.NoJitter? ==> ms == bound)
  }

  // ----- the ghost trace -----

  datatype Trace = Trace(start: World, acts: seq<Action>, w: World)

  ghost predicate TraceOk(t: Trace) {
    && WorldOk(t.start) && Feasible(t.start, t.acts) && Run(t.start, t.acts) == t.w && WorldOk(t.w)
  }

  lemma Begin(w: World) returns (t: Trace)
    requires WorldOk(w)
    ensures TraceOk(t) && t.start == w && t.w == w
  {
    t := Trace(w, [], w);
  }

  lemma Went(t: Trace, a: Action) returns (t': Trace)
    requires TraceOk(t) && Enabled(t.w, a)
    ensures TraceOk(t') && t'.start == t.start && t'.w == Step(t.w, a)
  {
    RunAppend(t.start, t.acts, a);
    StepKeeps(t.w, a);
    t' := Trace(t.start, t.acts + [a], Step(t.w, a));
  }

  /** Executor me is at point pc of its run in world w. */
  ghost predicate At(t: Trace, me: nat, x: Exec, pc: Pc) {
    && TraceOk(t) && me in t.w.execs && t.w.execs[me] == x.(pc := pc) && x.run in t.w.runs
  }

  lemma AtIsOk(t: Trace, me: nat, x: Exec, pc: Pc)
    requires At(t, me, x, pc)
    ensures TraceOk(t)
  {
  }

  lemma AtGives(t: Trace, me: nat, x: Exec, pc: Pc)
    requires At(t, me, x, pc)
    ensures RowOk(t.w.runs[x.run]) && (Active(pc) ==> PcOk(t.w.runs[x.run], pc))
  {
  }

  /** One access of executor me. */
  lemma Access1(t: Trace, me: nat, x: Exec, pc: Pc, rep: Report) returns (t': Trace)
    requires At(t, me, x, pc) && CanAdvance(x.(pc := pc), t.w.runs[x.run], t.w.now, rep)
    ensures var s := Advance(x.(pc := pc), t.w.runs[x.run], t.w.now, rep);
      && At(t', me, x, s.pc) && t'.start == t.start && t'.w.now == t.w.now
      && t'.w.runs == t.w.runs[x.run := s.row] && t'.w.log == t.w.log + s.log
      && (Active(pc) && s.pc.Gone? ==> Orphaned(t'.w, x.run))
  {
    hide Feasible, Run, Advance, CanAdvance, RunsOk;
    t' := Went(t, Go(me, rep));
    if Active(pc) && t'.w.execs[me].pc.Gone? {
      GoneWithoutATrace(x.(pc := pc), t.w.runs[x.run], t.w.now, rep);
      Alone(t.w, t'.w, me);
    }
  }

  /** An executor that stops leaves its run running with nobody on it. */
  lemma Alone(w: World, w': World, me: nat)
    requires ExecsOk(w) && me in w.execs && Active(w.execs[me].pc) && w.execs[me].run in w'.runs
    requires me in w'.execs && w'.execs == w.execs[me := w'.execs[me]]
    requires w'.runs[w.execs[me].run].state.RunRunning? && !Active(w'.execs[me].pc)
    ensures Orphaned(w', w.execs[me].run)
  {
    forall f | f in w.execs && f != me ensures !Rivals(w.execs[f], w.execs[me]) {}
  }

  lemma GoneWithoutATrace(x: Exec, row: RunRow, now: int, rep: Report)
    requires !x.pc.Gone? && Advance(x, row, now, rep).pc.Gone?
    ensures Advance(x, row, now, rep).row == row
  {
  }

  /** An access that only reads. */
  lemma Read1(t: Trace, me: nat, x: Exec, pc: Pc, rep: Report) returns (t': Trace)
    requires At(t, me, x, pc) && CanAdvance(x.(pc := pc), t.w.runs[x.run], t.w.now, rep)
    requires var s := Advance(x.(pc := pc), t.w.runs[x.run], t.w.now, rep); s.row == t.w.runs[x.run] && s.log == []
    ensures At(t', me, x, Advance(x.(pc := pc), t.w.runs[x.run], t.w.now, rep).pc) && t'.start == t.start
    ensures t'.w.runs == t.w.runs && t'.w.log == t.w.log && t'.w.now == t.w.now
  {
    hide WorldOk, Feasible, Run, Advance, CanAdvance;
    t' := Access1(t, me, x, pc, rep);
    assert t.w.log + [] == t.w.log;
    assert t.w.runs[x.run := t.w.runs[x.run]] == t.w.runs;
  }

  lemma ReadChosen(t: Trace, me: nat, x: Exec, name: string) returns (t': Trace)
    requires At(t, me, x, Chosen(name))
    ensures var steps := t.w.runs[x.run].steps; var i := Find(steps, name);
      At(t', me, x, if i.Some? then Starting(name, steps[i.value].attempt, steps[i.value].maxAttempts) else Starting(name, 0, 0))
    ensures t'.start == t.start && t'.w.runs == t.w.runs && t'.w.log == t.w.log && t'.w.now == t.w.now
  {
    hide TraceOk;
    t' := Read1(t, me, x, Chosen(name), QUIET);
  }

  lemma ReadClosing(t: Trace, me: nat, x: Exec, timedOut: bool) returns (t': Trace)
    requires At(t, me, x, Closing(timedOut))
    ensures At(t', me, x, Skipping(PendingNames(t.w.runs[x.run].steps), timedOut)) && t'.start == t.start
    ensures t'.w.runs == t.w.runs && t'.w.log == t.w.log && t'.w.now == t.w.now
  {
    hide TraceOk;
    t' := Read1(t, me, x, Closing(timedOut), QUIET);
  }

  lemma ReadSkipped(t: Trace, me: nat, x: Exec, timedOut: bool) returns (t': Trace)
    requires At(t, me, x, Skipping([], timedOut))
    ensures At(t', me, x, Judging(timedOut)) && t'.start == t.start
    ensures t'.w.runs == t.w.runs && t'.w.log == t.w.log && t'.w.now == t.w.now
  {
    hide TraceOk;
    t' := Read1(t, me, x, Skipping([], timedOut), QUIET);
  }

  lemma ReadJudging(t: Trace, me: nat, x: Exec, timedOut: bool) returns (t': Trace)
    requires At(t, me, x, Judging(timedOut))
    ensures At(t', me, x, Finishing(FinishCode(t.w.runs[x.run], timedOut))) && t'.start == t.start
    ensures t'.w.runs == t.w.runs && t'.w.log == t.w.log && t'.w.now == t.w.now
  {
    hide TraceOk;
    t' := Read1(t, me, x, Judging(timedOut), QUIET);
  }

  lemma ReadSleeping(t: Trace, me: nat, x: Exec, due: int) returns (t': Trace)
    requires At(t, me, x, Sleeping(due)) && t.w.now >= due
    ensures At(t', me, x, Head) && t'.start == t.start
    ensures t'.w.runs == t.w.runs && t'.w.log == t.w.log && t'.w.now == t.w.now
  {
    hide TraceOk;
    t' := Read1(t, me, x, Sleeping(due), QUIET);
  }

  /** The executor gives up: it returns an error. */
  lemma Stop1(t: Trace, me: nat, x: Exec, pc: Pc) returns (t': Trace)
    requires At(t, me, x, pc)
    ensures At(t', me, x, Gone) && t'.start == t.start
    ensures t'.w.runs == t.w.runs && t'.w.log == t.w.log && t'.w.now == t.w.now
    ensures Active(pc) ==> Orphaned(t'.w, x.run)
  {
    hide WorldOk, Feasible, Run;
    t' := Went(t, Crash(me));
    if Active(pc) { CrashOrphans(t.w, me); }
  }

  lemma TickTrace(t: Trace, me: nat, x: Exec, pc: Pc, to: int) returns (t': Trace)
    requires At(t, me, x, pc) && t.w.now <= to
    ensures At(t', me, x, pc) && t'.start == t.start && t'.w == t.w.(now := to)
  {
    hide WorldOk, Feasible, Run;
    t' := Went(t, Tick(to));
  }

  lemma AskTrace(t: Trace, me: nat, x: Exec, pc: Pc, id: string, asker: string, why: string) returns (t': Trace)
    requires At(t, me, x, pc) && id in t.w.runs
    ensures At(t', me, x, pc) && t'.start == t.start
    ensures t'.w == t.w.(runs := t.w.runs[id := CancelTx(t.w.runs[id], asker, why, t.w.now)])
  {
    hide WorldOk, Feasible, Run;
    t' := Went(t, AskCancel(id, asker, why));
  }

  lemma SleeperWaits(row: RunRow, due: int, now: int)
    requires RowOk(row) && PcOk(row, Sleeping(due)) && now >= due
    ensures Waiting(row, now) == 0
  {
    Results.SleeperFindsWork(row, due, now);
  }

  /** The rows after somebody's requests and one outcome recorded at this time or later. */
  ghost predicate Recorded(id: string, row: RunRow, name: string, out: Outcome, since: int, row': RunRow) {
    exists asked, now ::
      since <= now && OnlyAsked(row, asked) && RecordTx(id, asked, name, out, now).Commit? && row' == RecordTx(id, asked, name, out, now).row
  }

  /** The step of this name stands by its answer, and waits as long as its policy says when it is parked. */
  ghost predicate Judged(row: RunRow, name: string, heard: A.Heard, retry: Option<RetrySpec>) {
    var i := Find(row.steps, name);
    && i.Some?
    && var s := row.steps[i.value];
       && A.Stands(s, heard.rep) && A.Explained(s, heard.rep) && A.Parks(s, heard)
       && (s.state == StepPending && !A.OutOfBudget(heard.rep) ==> Delays(retry, s.attempt, heard.rep.delay))
  }

  /** What others leave alone while executor me is at a point of its run. */
  ghost predicate Kept(t: Trace, t': Trace, run: string) {
    && t'.start == t.start && t.w.now <= t'.w.now
    && run in t.w.runs && run in t'.w.runs && OnlyAsked(t.w.runs[run], t'.w.runs[run])
  }

  lemma KeptTransitive(a: Trace, b: Trace, c: Trace, run: string)
    requires Kept(a, b, run) && Kept(b, c, run)
    ensures Kept(a, c, run)
  {
  }

  // ----- the loop's measure -----

  /** Attempts the run may still take. */
  function BudgetLeft(steps: seq<StepRow>): nat {
    if |steps| == 0 then 0
    else (if steps[0].attempt < steps[0].maxAttempts then steps[0].maxAttempts - steps[0].attempt else 0) + BudgetLeft(steps[1..])
  }

  lemma {:induction false} BudgetUpdate(steps: seq<StepRow>, i: nat, s': StepRow)
    requires i < |steps| && s'.maxAttempts == steps[i].maxAttempts && steps[i].attempt <= s'.attempt
    ensures BudgetLeft(steps[i := s']) <= BudgetLeft(steps)
    ensures steps[i].attempt < steps[i].maxAttempts && s'.attempt > steps[i].attempt ==> BudgetLeft(steps[i := s']) < BudgetLeft(steps)
  {
    if i == 0 {
      assert steps[0 := s'][1..] == steps[1..];
    } else {
      assert steps[i := s'][1..] == steps[1..][i - 1 := s'];
      BudgetUpdate(steps[1..], i - 1, s');
    }
  }

  function Waiting(row: RunRow, now: int): nat {
    if NextRunnable(row, now).Some? then 0 else 1
  }

  lemma WaitingShrinks(row: RunRow, row': RunRow, now: int, now': int)
    requires OnlyAsked(row, row') && now <= now'
    ensures Waiting(row', now') <= Waiting(row, now)
  {
    if NextRunnable(row, now).Some? {
      var i := NextRunnable(row, now).value;
      forall j: nat | j < |row.steps| ensures Needs(row', i, j) == Needs(row, i, j) {}
      assert Runnable(row', now', i);
    }
  }

  // ----- the engine -----

  class Engine {
    const store: S.Store
    const owner: string
    const leaseTTL: int

    constructor (store: S.Store, owner: string, leaseTTL: int)
      ensures this.store == store && this.owner == owner && this.leaseTTL == leaseTTL
    {
      this.store, this.owner, this.leaseTTL := store, owner, leaseTTL;
    }

    ghost predicate Mirrors(w: World)
      reads store
    {
      store.runs == w.runs && store.log == w.log && store.now == w.now
    }

    /** Executor me is at point pc, and the tables are those of the trace. */
    ghost predicate Here(t: Trace, me: nat, x: Exec, pc: Pc)
      reads store
    {
      At(t, me, x, pc) && Mirrors(t.w)
    }

    /** The executor returned an error after its claim: it is gone, and nobody will move its run again. */
    ghost predicate Left(t: Trace, me: nat, x: Exec)
      reads store
    {
      Here(t, me, x, Gone) && Orphaned(t.w, x.run)
    }

    lemma HereIsValid(t: Trace, me: nat, x: Exec, pc: Pc)
      requires Here(t, me, x, pc)
      ensures store.Valid() && x.run in t.w.runs
    {
      assert forall id :: id in t.w.runs ==> RowOk(t.w.runs[id]);
    }

    /** Cancellation requests and the passing of time between two accesses of executor me. */
    method Others(ghost t: Trace, ghost me: nat, ghost x: Exec, ghost pc: Pc) returns (ghost t': Trace)
      requires Here(t, me, x, pc)
      modifies store
      ensures Here(t', me, x, pc) && Kept(t, t', x.run)
    {
      hide At, Kept, CancelTx;
      t' := t;
      KeptReflexive(t, me, x, pc);
      var n: nat := *;
      while n > 0
        invariant Here(t', me, x, pc) && Kept(t, t', x.run)
      {
        ghost var before := t';
        HereIsValid(t', me, x, pc);
        var passed: nat, id: string, asker: string, why: string := *, *, *, *;
        if id in store.runs {
          t' := AskTrace(t', me, x, pc, id, asker, why);
          AskKept(before, t', x.run, id, asker, why);
          var r := store.RequestCancel(id, asker, why);
        } else {
          t' := TickTrace(t', me, x, pc, store.now + passed);
          TickKept(before, t', x.run, store.now + passed);
          store.now := store.now + passed;
        }
        KeptTransitive(t, before, t', x.run);
        n := n - 1;
      }
    }

    /** How one execution may end: with the verdict that stands in the rows, or as an executor gone. */
    ghost predicate Ended(r: Result<RunState, EngineError>, t: Trace, me: nat, x: Exec)
      reads store
    {
      match r
      case Ok(verdict) => Here(t, me, x, Done(verdict)) && store.runs[x.run].state == verdict && verdict.IsTerminal()
      case Err(_) => Left(t, me, x)
    }

    /** observeCancel: the pending steps and the run leave in one transaction. */
    method ObserveCancel(id: string, asker: string, ghost t: Trace, ghost me: nat, ghost x: Exec)
      returns (r: Result<RunState, EngineError>, ghost t': Trace)
      requires Here(t, me, x, Observing(asker)) && x.run == id && x.owner == owner
      modifies store
      ensures Ended(r, t', me, x) && t'.start == t.start
    {
      hide At, Kept, OnlyAsked, ObserveTx, RowOk, PcOk, WorldOk, Feasible, S.Performed;
      t' := Others(t, me, x, Observing(asker));
      HereIsValid(t', me, x, Observing(asker));
      ghost var row := store.runs[id];
      ghost var before := t';
      var done := store.ObserveRunCancel(id, owner, asker, RunCodeCancelledManual);
      t' := Access1(t', me, x, Observing(asker), QUIET);
      ObserveEnds(id, row, owner, asker, RunCodeCancelledManual, store.now);
      Landed(before.w.runs, before.w.log, store.runs, store.log, id,
             ObserveTx(id, row, owner, asker, RunCodeCancelledManual, store.now), done, Done(RunCancelled));
      KeptStart(t, before, id);
      r := if done.Err? then Err(StoreRefused(done.error)) else Ok(RunCancelled);
    }

    /**
     * runner.Run, as far as the engine can tell: it refuses a spec whose timeout is out of bounds, may
     * refuse it for other reasons, and otherwise reports one of its outcomes.
     */
    method RunProcess(timeout: int) returns (refused: bool, res: RunnerResult, finishedAt: Option<int>)
      ensures timeout <= 0 || timeout > MAX_TIMEOUT ==> refused
    {
      refused := *;
      res := *;
      finishedAt := *;
      if timeout <= 0 || timeout > MAX_TIMEOUT { refused := true; }
    }

    /** The outcome runStep records: the runner's verdict, then the retry decision on the row it read before. */
    method OutcomeOf(res: RunnerResult, finishedAt: Option<int>, byRun: bool, attempt: nat, maxAttempts: nat,
                     retry: Option<RetrySpec>, now: int) returns (out: Option<Outcome>, ghost rep: Report)
      requires RetryPolicyOf(retry).Valid()
      ensures rep.res == res && rep.finishedAt == finishedAt && rep.byRun == byRun
      ensures out.Some? ==> out.value == Decide(rep, attempt, maxAttempts, now)
      ensures out.Some? ==>
        && (out.value.event.EvStepSucceeded? <==> res == Succeeded)
        && (out.value.event.EvCancelObserved? <==> res == Signalled(true))
        && (out.value.event.EvStepFailed? <==> res != Succeeded && res != Signalled(true))
        && (out.value.retry.Some? <==> res != Succeeded && res != Signalled(true) && !A.OutOfBudget(rep) && 1 < maxAttempts && attempt < maxAttempts)
      ensures out.Some? && out.value.retry.Some? ==>
        && Delays(retry, attempt, rep.delay)
        && out.value.retry.value.nextAttemptAt == Some((match finishedAt case Some(at) => at case None => now) + rep.delay)
      ensures out.None? ==> res != Succeeded && attempt < maxAttempts
    {
      hide B.Ideal, Delays;
      var o := VerdictFor(res, finishedAt);
      rep := Report(res, finishedAt, 0, byRun);
      if o.event.EvStepFailed? && !(res.TimedOut? && byRun) && maxAttempts > 1 {
        if attempt < maxAttempts {
          var rnd: nat := *;
          var d := B.Delay(RetryPolicyOf(retry), attempt, rnd);
          if d.Err? { return None, rep; }
          var finished := if finishedAt.Some? then finishedAt.value else now;
          rep := rep.(delay := d.value / MILLISECOND);
          Allowed(retry, attempt, d.value);
          o := o.(retry := Some(RetryPlan(Some(finished + d.value / MILLISECOND), StepCodeRetryScheduled)));
        } else {
          o := o.(reason := StepCodeRetriesExhausted);
        }
      }
      out := Some(o);
    }

    /** The read before an attempt: how many attempts there were, and how many there may be. */
    method ReadAttempt(id: string, name: string, ghost t: Trace, ghost me: nat, ghost x: Exec)
      returns (before: nat, maxBefore: nat, ghost t': Trace)
      requires Here(t, me, x, Chosen(name)) && x.run == id
      modifies store
      ensures t'.start == t.start && id in old(store.runs) && id in store.runs && old(store.now) <= store.now
      ensures Here(t', me, x, Starting(name, before, maxBefore))
      ensures BudgetLeft(store.runs[id].steps) == BudgetLeft(old(store.runs)[id].steps)
    {
      hide At, Kept, OnlyAsked, BudgetLeft, PcOk, RowOk, WorldOk, Feasible, Find;
      t' := Others(t, me, x, Chosen(name));
      KeptStart(t, t', id);
      HereIsValid(t', me, x, Chosen(name));
      AskedSpendsNothing(t.w.runs[id], t'.w.runs[id]);
      var at := Find(store.runs[id].steps, name);
      before, maxBefore := 0, 0;
      if at.Some? {
        before, maxBefore := store.runs[id].steps[at.value].attempt, store.runs[id].steps[at.value].maxAttempts;
      }
      t' := ReadChosen(t', me, x, name);
    }

    /** The first half of runStep: read the row, then open the attempt. */
    method OpenAttempt(id: string, name: string, ghost t: Trace, ghost me: nat, ghost x: Exec)
      returns (err: Option<EngineError>, attempt: nat, maxAttempts: nat, ghost t': Trace)
      requires Here(t, me, x, Chosen(name)) && x.run == id
      modifies store
      ensures t'.start == t.start && id in old(store.runs) && id in store.runs
      ensures if err.Some? then Left(t', me, x) else Here(t', me, x, Launched(name, attempt, maxAttempts))
      ensures err.None? ==> BudgetLeft(store.runs[id].steps) < BudgetLeft(old(store.runs)[id].steps)
      ensures old(store.now) <= store.now
    {
      hide At, Kept, OnlyAsked, BudgetLeft, StartTx, PcOk, RowOk, WorldOk, Feasible, Find, S.Performed;
      var before, maxBefore;
      before, maxBefore, t' := ReadAttempt(id, name, t, me, x);
      ghost var prior, pc := t', Starting(name, before, maxBefore);
      t' := Others(t', me, x, pc);
      KeptStart(prior, t', id);
      HereIsValid(t', me, x, pc);
      AtGives(t', me, x, pc);
      ghost var start, row := t', store.runs[id];
      var done := store.StartStep(id, name);
      t' := Access1(t', me, x, pc, QUIET);
      StartSpends(id, row, name);
      AskedSpendsNothing(prior.w.runs[id], row);
      Landed(start.w.runs, start.w.log, store.runs, store.log, id, StartTx(id, row, name), done, Launched(name, before + 1, maxBefore));
      attempt, maxAttempts := before + 1, maxBefore;
      err := None;
      match done
      case Err(e) => err := Some(StoreRefused(e));
      case Ok(_) =>
    }

    /** runStep: open the attempt, run the process outside any transaction, record its verdict. */
    method RunStep(id: string, name: string, spec: StepSpec, deadline: Option<int>, ghost t: Trace, ghost me: nat, ghost x: Exec)
      returns (r: Result<bool, EngineError>, ghost began: int, ghost heard: A.Heard, ghost t': Trace)
      requires Here(t, me, x, Chosen(name)) && x.run == id && x.deadline == deadline
      requires RetryPolicyOf(spec.retry).Valid()
      modifies store
      ensures t'.start == t.start && id in old(store.runs) && id in store.runs
      ensures match r
        case Ok(spent) => Here(t', me, x, if spent then Closing(true) else Head)
        case Err(_) => Left(t', me, x)
      ensures r.Ok? ==> BudgetLeft(store.runs[id].steps) < BudgetLeft(old(store.runs)[id].steps)
      // What the runner answered, and when, is what the step stands by from now on.
      ensures r.Ok? ==> Judged(store.runs[id], name, heard, spec.retry) && r.value == A.OutOfBudget(heard.rep)
      ensures r.Ok? ==> old(store.now) <= began <= heard.at <= store.now
      ensures r.Ok? ==> (heard.rep.byRun <==>
        deadline.Some? && deadline.value < began + if spec.timeout <= 0 then 3_600_000 else spec.timeout)
      // A step chosen when the run's deadline has passed is opened all the same, and then refused by the runner.
      ensures deadline.Some? && deadline.value <= old(store.now) ==> r.Err? && Orphaned(t'.w, id)
    {
      hide At, Kept, PcOk, RowOk, WorldOk, Feasible, Find, Decide, Delays, Recorded, Judged, OnlyAsked, BudgetLeft;
      began, heard := store.now, A.Heard(QUIET, store.now);
      var err, attempt, maxAttempts;
      err, attempt, maxAttempts, t' := OpenAttempt(id, name, t, me, x);
      if err.Some? { r := Err(err.value); return; }
      ghost var pc := Launched(name, attempt, maxAttempts);
      var logOpened: bool := *;
      if !logOpened {
        t' := Stop1(t', me, x, pc);
        r := Err(LogFailed); return;
      }
      var timeout := if spec.timeout <= 0 then DEFAULT_TIMEOUT else spec.timeout;
      began := store.now;
      var byRun := false;
      if deadline.Some? && deadline.value - store.now < timeout {
        timeout := deadline.value - store.now;
        byRun := true;
      }
      var refused, res, finishedAt := RunProcess(timeout);
      ghost var launched := t';
      t' := Others(t', me, x, pc);
      KeptStart(launched, t', id);
      var logClosed: bool := *;
      if refused || !logClosed {
        t' := Stop1(t', me, x, pc);
        r := Err(if refused then RunnerRefused else LogFailed); return;
      }
      if res == Signalled(true) && store.runs[id].cancelAt.None? {
        // The caller's own context died, so the transaction that would record the verdict cannot begin.
        t' := Stop1(t', me, x, pc);
        r := Err(ContextEnded); return;
      }
      var out; ghost var rep;
      out, rep := OutcomeOf(res, finishedAt, byRun, attempt, maxAttempts, spec.retry, store.now);
      if out.None? {
        t' := Stop1(t', me, x, pc);
        r := Err(DelayPanic); return;
      }
      heard := A.Heard(rep, store.now);
      AtGives(t', me, x, pc);
      t' := Read1(t', me, x, pc, rep);
      ghost var asked := store.runs[id];
      var done;
      ghost var spent := byRun && res.TimedOut?;
      done, t' := RecordAt(id, name, out.value, t', me, x, Recording(name, out.value, spent));
      if done.Err? { r := Err(StoreRefused(done.error)); return; }
      RecordSpendsNothing(id, asked, name, out.value, heard.at, store.runs[id]);
      RecordedJudged(id, asked, name, attempt, maxAttempts, heard, store.runs[id], spec.retry);
      r := Ok(byRun && res.TimedOut?);
    }

    /** finishReason. */
    static method FinishReason(row: RunRow, timedOut: bool) returns (code: Code)
      ensures code == FinishCode(row, timedOut)
    {
      if timedOut { return RunCodeTimedOut; }
      for i := 0 to |row.steps|
        invariant FirstBad(row.steps) == FirstBad(row.steps[i..])
      {
        assert row.steps[i..][0] == row.steps[i] && row.steps[i..][1..] == row.steps[i + 1..];
        match row.steps[i].state
        case StepFailed => return RunCodeFailedStep;
        case StepCancelled => return RunCodeCancelledManual;
        case _ =>
      }
      code := RunCodeSucceeded;
    }

    /** RecordStepOutcome at the two points where an executor calls it. */
    method RecordAt(id: string, name: string, out: Outcome, ghost t: Trace, ghost me: nat, ghost x: Exec, ghost pc: Pc)
      returns (done: Result<StepState, TxError>, ghost t': Trace)
      requires Here(t, me, x, pc) && x.run == id
      requires (pc.Recording? && pc.name == name && pc.out == out)
            || (pc.Skipping? && |pc.names| > 0 && pc.names[0] == name && out == SKIP_OUTCOME)
      modifies store
      ensures t'.start == t.start && id in old(store.runs) && id in store.runs
      ensures if done.Err? then Left(t', me, x)
              else Here(t', me, x, if pc.Skipping? then Skipping(pc.names[1..], pc.timedOut) else if pc.spent then Closing(true) else Head)
      ensures done.Ok? ==> Recorded(id, old(store.runs)[id], name, out, old(store.now), store.runs[id])
      ensures old(store.now) <= store.now
    {
      hide At, Kept;
      t' := Others(t, me, x, pc);
      KeptStart(t, t', id);
      HereIsValid(t', me, x, pc);
      ghost var before, row := t', store.runs[id];
      done := store.RecordStepOutcome(id, name, out);
      t' := Access1(t', me, x, pc, QUIET);
      ghost var next := if pc.Skipping? then Skipping(pc.names[1..], pc.timedOut) else if pc.spent then Closing(true) else Head;
      hide RecordTx, OnlyAsked, Recorded;
      RecordedIf(id, old(store.runs)[id], row, name, out, old(store.now), store.now);
      Landed(before.w.runs, before.w.log, store.runs, store.log, id, RecordTx(id, row, name, out, store.now), done, next);
    }

    /** skipPending: every step still waiting leaves through its own transaction, in idx order. */
    method SkipPending(id: string, timedOut: bool, ghost t: Trace, ghost me: nat, ghost x: Exec)
      returns (err: Option<EngineError>, ghost t': Trace)
      requires Here(t, me, x, Closing(timedOut)) && x.run == id
      modifies store
      ensures t'.start == t.start
      ensures if err.Some? then Left(t', me, x) else Here(t', me, x, Judging(timedOut))
    {
      hide At, Kept, PendingNames, OnlyAsked;
      t' := Others(t, me, x, Closing(timedOut));
      KeptStart(t, t', id);
      HereIsValid(t', me, x, Closing(timedOut));
      var pending := PendingNames(store.runs[id].steps);
      t' := ReadClosing(t', me, x, timedOut);
      for k := 0 to |pending|
        invariant Here(t', me, x, Skipping(pending[k..], timedOut)) && t'.start == t.start
      {
        ghost var pc := Skipping(pending[k..], timedOut);
        assert pending[k..][0] == pending[k] && pending[k..][1..] == pending[k + 1..];
        var done;
        done, t' := RecordAt(id, pending[k], SKIP_OUTCOME, t', me, x, pc);
        if done.Err? { return Some(StoreRefused(done.error)), t'; }
      }
      assert pending[|pending|..] == [];
      t' := ReadSkipped(t', me, x, timedOut);
      err := None;
    }

    /** The end of ExecuteRun: finishReason, then FinishRun under the lease. */
    method Finish(id: string, timedOut: bool, ghost t: Trace, ghost me: nat, ghost x: Exec)
      returns (r: Result<RunState, EngineError>, ghost t': Trace)
      requires Here(t, me, x, Judging(timedOut)) && x.run == id && x.owner == owner
      modifies store
      ensures Ended(r, t', me, x) && t'.start == t.start
    {
      hide At, Kept, OnlyAsked, FinishTx, FinishCode, RowOk, PcOk, WorldOk, Feasible;
      t' := Others(t, me, x, Judging(timedOut));
      KeptStart(t, t', id);
      HereIsValid(t', me, x, Judging(timedOut));
      var code := FinishReason(store.runs[id], timedOut);
      t' := ReadJudging(t', me, x, timedOut);
      ghost var prior := t';
      t' := Others(t', me, x, Finishing(code));
      KeptStart(prior, t', id);
      HereIsValid(t', me, x, Finishing(code));
      ghost var before, row := t', store.runs[id];
      var done := store.FinishRun(id, owner, code);
      t' := Access1(t', me, x, Finishing(code), QUIET);
      ghost var tx := FinishTx(id, row, owner, code, store.now);
      FinishEnds(id, row, owner, code, store.now);
      Landed(before.w.runs, before.w.log, store.runs, store.log, id, tx, done, Done(if tx.Commit? then tx.out else RunFailed));
      r := if done.Err? then Err(StoreRefused(done.error)) else Ok(done.value);
    }

    /**
     * ExecuteRun. Whatever requests come and however time passes meanwhile, it takes the steps of one executor, its loop
     * ends because every round spends an attempt or waits for a retry that is then due, and a run it
     * finishes other than by its deadline or a cancellation is closed as Results.Closed says.
     */
    method ExecuteRun(id: string, frozen: Option<Job>, ghost start: World, ghost me: nat)
      returns (r: Result<RunState, EngineError>, ghost t: Trace)
      requires WorldOk(start) && Mirrors(start) && me !in start.execs
      requires frozen.Some? ==> forall n :: n in frozen.value.steps ==> RetryPolicyOf(frozen.value.steps[n].retry).Valid()
      modifies store
      ensures TraceOk(t) && t.start == start && Mirrors(t.w)
      ensures r.Ok? ==> exists x: Exec :: x.run == id && x.owner == owner && Ended(r, t, me, x)
      ensures r.Err? ==> NotStarted(r.error) || Orphaned(t.w, id)
      ensures r.Ok? ==> id in store.runs && store.runs[id].state == r.value
      ensures r.Ok? && !r.value.RunCancelled? && !store.runs[id].reason.RunCodeTimedOut? ==> Results.Closed(store.runs[id])
    {
      t := Begin(start);
      if id !in store.runs { return Err(RunMissing), t; }
      if frozen.None? { return Err(SpecUnreadable), t; }
      var job := frozen.value;
      var deadline := if job.timeout > 0 then Some(store.now + job.timeout) else None;
      ghost var x := Exec(id, owner, leaseTTL, deadline, Fresh);
      t := Enter(t, me, x);
      r, t := Claim(id, t, me, x);
      if r.Err? {
        AtIsOk(t, me, x, Gone);
        return;
      }
      if r.value.RunRunning? {
        var timedOut;
        r, timedOut, t := Loop(id, job, deadline, t, me, x);
        if r.Ok? && r.value.RunRunning? {
          var err;
          err, t := SkipPending(id, timedOut, t, me, x);
          if err.Some? { r := Err(err.value); } else { r, t := Finish(id, timedOut, t, me, x); }
        }
      }
      EndOfExecution(r, t, me, x);
    }

    lemma EndOfExecution(r: Result<RunState, EngineError>, t: Trace, me: nat, x: Exec)
      requires Ended(r, t, me, x)
      ensures TraceOk(t) && Mirrors(t.w)
      ensures r.Err? ==> Orphaned(t.w, x.run)
      ensures r.Ok? ==> x.run in store.runs && store.runs[x.run].state == r.value
      ensures r.Ok? && !r.value.RunCancelled? && !store.runs[x.run].reason.RunCodeTimedOut? ==> Results.Closed(store.runs[x.run])
    {
      if r.Ok? {
        AtGives(t, me, x, Done(r.value));
        if !r.value.RunCancelled? && !store.runs[x.run].reason.RunCodeTimedOut? { Results.ClosedFromRow(store.runs[x.run]); }
      }
    }

    /** ClaimRun as ExecuteRun calls it: RunRunning means go on. */
    method Claim(id: string, ghost t: Trace, ghost me: nat, ghost x: Exec) returns (r: Result<RunState, EngineError>, ghost t': Trace)
      requires Here(t, me, x, Fresh) && x.run == id && x.owner == owner && x.ttl == leaseTTL
      modifies store
      ensures t'.start == t.start
      ensures r.Ok? && r.value.RunRunning? ==> Here(t', me, x, Head)
      ensures r.Ok? && !r.value.RunRunning? ==> Ended(r, t', me, x)
      ensures r.Err? ==> Here(t', me, x, Gone) && r.error.StoreRefused? && r.error.err.NotClaimable?
    {
      hide At, Kept;
      t' := Others(t, me, x, Fresh);
      KeptStart(t, t', id);
      HereIsValid(t', me, x, Fresh);
      ghost var before, row := t', store.runs[id];
      var claimed := store.ClaimRun(id, owner, leaseTTL);
      t' := Access1(t', me, x, Fresh, QUIET);
      ghost var tx := ClaimTx(id, row, owner, leaseTTL, store.now);
      ClaimEnds(id, row, owner, leaseTTL, store.now);
      hide ClaimTx;
      Landed(before.w.runs, before.w.log, store.runs, store.log, id, tx, claimed,
             if tx.Commit? && tx.out.RunRunning? then Head else Done(RunCancelled));
      r := if claimed.Err? then Err(StoreRefused(claimed.error)) else Ok(claimed.value);
    }

    /** One look for work: a chosen step, a wait already over, or nothing left to wait for. */
    method FindWork(id: string, ghost t: Trace, ghost me: nat, ghost x: Exec)
      returns (err: Option<EngineError>, chosen: Option<string>, again: bool, ghost t': Trace)
      requires Here(t, me, x, Seek) && x.run == id
      modifies store
      ensures t'.start == t.start && id in old(store.runs) && id in store.runs && old(store.now) <= store.now
      ensures err.Some? ==> Left(t', me, x)
      ensures err.None? && chosen.Some? ==> Here(t', me, x, Chosen(chosen.value))
      ensures err.None? && chosen.None? ==> Here(t', me, x, if again then Head else Closing(false))
      ensures err.None? ==> OnlyAsked(old(store.runs)[id], store.runs[id])
      ensures err.None? && chosen.None? && again ==>
        Waiting(old(store.runs)[id], old(store.now)) == 1 && Waiting(store.runs[id], store.now) == 0
    {
      hide At, Kept;
      t' := Others(t, me, x, Seek);
      KeptStart(t, t', id);
      err, chosen, again := None, None, false;
      ghost var row0, now0 := store.runs[id], store.now;
      WaitingShrinks(old(store.runs)[id], row0, old(store.now), now0);
      var next := NextRunnable(store.runs[id], store.now);
      if next.Some? {
        chosen := Some(store.runs[id].steps[next.value].name);
        t' := Read1(t', me, x, Seek, QUIET);
        return;
      }
      t' := Read1(t', me, x, Seek, QUIET);
      ghost var prior := t';
      t' := Others(t', me, x, NoneRunnable);
      KeptStart(prior, t', id);
      OnlyAskedTransitive(old(store.runs)[id], row0, store.runs[id]);
      var due := RetryDue(store.runs[id].steps);
      t' := Read1(t', me, x, NoneRunnable, QUIET);
      if due.Some? { err, again, t' := Sleep(id, due.value, t', me, x); }
    }

    /** The timer of the retry wait. The caller's context may end first. */
    method Sleep(id: string, due: int, ghost t: Trace, ghost me: nat, ghost x: Exec)
      returns (err: Option<EngineError>, again: bool, ghost t': Trace)
      requires Here(t, me, x, Sleeping(due)) && x.run == id
      modifies store
      ensures t'.start == t.start && id in old(store.runs) && id in store.runs && old(store.now) <= store.now
      ensures if err.Some? then Left(t', me, x) else again && Here(t', me, x, Head)
      ensures err.None? ==> OnlyAsked(old(store.runs)[id], store.runs[id]) && Waiting(store.runs[id], store.now) == 0
    {
      hide At, Kept, OnlyAsked, Waiting, RetryDue;
      HereIsValid(t, me, x, Sleeping(due));
      var wait := if due < store.now then 0 else due - store.now;
      err, again, t' := None, true, t;
      var fired: bool := *;
      if !fired {
        t' := Stop1(t', me, x, Sleeping(due));
        return Some(ContextEnded), false, t';
      }
      t' := TickTrace(t', me, x, Sleeping(due), store.now + wait);
      store.now := store.now + wait;
      ghost var woken := t';
      t' := Others(t', me, x, Sleeping(due));
      KeptStart(woken, t', id);
      AtGives(t', me, x, Sleeping(due));
      SleeperWaits(store.runs[id], due, store.now);
      t' := ReadSleeping(t', me, x, due);
    }

    /** The loop of ExecuteRun. RunRunning means the loop was left for the closing phase. */
    method Loop(id: string, job: Job, deadline: Option<int>, ghost t: Trace, ghost me: nat, ghost x: Exec)
      returns (r: Result<RunState, EngineError>, timedOut: bool, ghost t': Trace)
      requires Here(t, me, x, Head) && x.run == id && x.owner == owner && x.deadline == deadline
      requires forall n :: n in job.steps ==> RetryPolicyOf(job.steps[n].retry).Valid()
      modifies store
      ensures t'.start == t.start
      ensures if r.Ok? && r.value.RunRunning? then Here(t', me, x, Closing(timedOut)) else Ended(r, t', me, x)
    {
      hide At, Kept;
      t', timedOut := t, false;
      HereIsValid(t', me, x, Head);
      while true
        invariant Here(t', me, x, Head) && t'.start == t.start && id in store.runs
        decreases BudgetLeft(store.runs[id].steps), Waiting(store.runs[id], store.now)
      {
        ghost var row0, now0, head := store.runs[id], store.now, t';
        t' := Others(t', me, x, Head);
        KeptStart(head, t', id);
        ghost var row1 := store.runs[id];
        WaitingShrinks(row0, row1, now0, store.now);
        var seen := store.CancelRequested(id);
        var (requested, asker) := seen.value;
        t' := Read1(t', me, x, Head, QUIET);
        if requested {
          r, t' := ObserveCancel(id, asker, t', me, x);
          return;
        }
        var err, chosen, again;
        err, chosen, again, t' := FindWork(id, t', me, x);
        if err.Some? { return Err(err.value), false, t'; }
        OnlyAskedTransitive(row0, row1, store.runs[id]);
        if chosen.None? {
          if again { continue; }
          return Ok(RunRunning), false, t';
        }
        var name := chosen.value;
        var spec := if name in job.steps then job.steps[name] else StepSpec(0, None);
        var step; ghost var began, heard;
        step, began, heard, t' := RunStep(id, name, spec, deadline, t', me, x);
        if step.Err? { return Err(step.error), false, t'; }
        if step.value { return Ok(RunRunning), true, t'; }
      }
    }
  }

  const QUIET := Report(Succeeded, None, 0, false)

  /** The method performed its transaction, so the tables are where the trace went. */
  lemma Landed<T>(runs: map<string, RunRow>, log: seq<Entry>, runs': map<string, RunRow>, log': seq<Entry>,
                  id: string, tx: Tx<T>, r: Result<T, TxError>, next: Pc)
    requires id in runs && S.Performed(runs, log, runs', log', id, tx, r)
    ensures var s := After(runs[id], tx, next); runs' == runs[id := s.row] && log' == log + s.log
    ensures r.Ok? <==> tx.Commit?
  {
    assert runs[id := runs[id]] == runs;
    assert log + [] == log;
  }

  lemma FinishEnds(id: string, row: RunRow, owner: string, code: Code, now: int)
    ensures match FinishTx(id, row, owner, code, now)
      case Commit(after, _, verdict) => after.state == verdict && verdict.IsTerminal()
      case Abort(_) => true
  {
  }

  lemma ObserveEnds(id: string, row: RunRow, owner: string, asker: string, code: Code, now: int)
    ensures ObserveTx(id, row, owner, asker, code, now).Commit? ==> ObserveTx(id, row, owner, asker, code, now).row.state == RunCancelled
  {
  }

  lemma RecordedIf(id: string, row: RunRow, asked: RunRow, name: string, out: Outcome, since: int, now: int)
    requires OnlyAsked(row, asked) && since <= now
    ensures RecordTx(id, asked, name, out, now).Commit? ==> Recorded(id, row, name, out, since, RecordTx(id, asked, name, out, now).row)
  {
  }

  lemma AskedSpendsNothing(row: RunRow, row': RunRow)
    requires OnlyAsked(row, row')
    ensures BudgetLeft(row'.steps) == BudgetLeft(row.steps)
  {
  }

  lemma StartSpends(id: string, row: RunRow, name: string)
    requires RowOk(row)
    ensures var tx := StartTx(id, row, name); tx.Commit? ==> BudgetLeft(tx.row.steps) < BudgetLeft(row.steps)
  {
    var tx := StartTx(id, row, name);
    if tx.Commit? {
      var i := Find(row.steps, name).value;
      assert StepOk(row, i);
      BudgetUpdate(row.steps, i, tx.row.steps[i]);
    }
  }

  lemma RecordSpendsNothing(id: string, row: RunRow, name: string, out: Outcome, since: int, row': RunRow)
    requires Recorded(id, row, name, out, since, row')
    ensures BudgetLeft(row'.steps) <= BudgetLeft(row.steps)
  {
    var asked, now :| OnlyAsked(row, asked) && RecordTx(id, asked, name, out, now).Commit? && row' == RecordTx(id, asked, name, out, now).row;
    var i := Find(row.steps, name).value;
    BudgetUpdate(row.steps, i, row'.steps[i]);
  }

  lemma Allowed(r: Option<RetrySpec>, attempt: nat, delay: int)
    requires 0 <= delay <= B.Ideal(RetryPolicyOf(r), attempt)
    requires RetryPolicyOf(r).jitter.NoJitter? ==> delay == B.Ideal(RetryPolicyOf(r), attempt)
    ensures Delays(r, attempt, delay / MILLISECOND)
  {
    hide RetryPolicyOf, B.Ideal;
  }

  /** The outcome the engine made of an answer, once recorded, leaves the step standing by that answer. */
  lemma RecordedJudged(id: string, row: RunRow, name: string, attempt: nat, maxAttempts: nat, heard: A.Heard, row': RunRow,
                       retry: Option<RetrySpec>)
    requires RowOk(row) && PcOk(row, Launched(name, attempt, maxAttempts))
    requires Recorded(id, row, name, Decide(heard.rep, attempt, maxAttempts, heard.at), heard.at, row')
    requires Decide(heard.rep, attempt, maxAttempts, heard.at).retry.Some? ==> Delays(retry, attempt, heard.rep.delay)
    ensures Judged(row', name, heard, retry)
  {
    var out := Decide(heard.rep, attempt, maxAttempts, heard.at);
    var asked, now :| heard.at <= now && OnlyAsked(row, asked) && RecordTx(id, asked, name, out, now).Commit? && row' == RecordTx(id, asked, name, out, now).row;
    var i := ItRuns(id, row, asked, name, attempt, maxAttempts, out, now);
    hide RowOk, PcOk, OnlyAsked, RecordTx, Decide, Delays, Recorded;
    A.RecordedAsAnswered(id, asked, i, heard.rep, heard.at, now);
    FindByIndex(row'.steps, i);
  }

  /** The step an outcome was recorded on ran in the attempt the executor opened. */
  lemma ItRuns(id: string, row: RunRow, asked: RunRow, name: string, attempt: nat, maxAttempts: nat, out: Outcome, now: int) returns (i: nat)
    requires RowOk(row) && PcOk(row, Launched(name, attempt, maxAttempts)) && OnlyAsked(row, asked) && RecordTx(id, asked, name, out, now).Commit?
    ensures i < |asked.steps| && asked.steps[i].name == name && asked.steps[i].state == StepRunning && UniqueNames(asked.steps)
    ensures asked.steps[i].attempt == attempt && asked.steps[i].maxAttempts == maxAttempts && 0 < attempt <= maxAttempts
    ensures var row' := RecordTx(id, asked, name, out, now).row; UniqueNames(row'.steps)
  {
    i := Find(asked.steps, name).value;
    assert StepOk(row, i);
    hide PcOk, UpstreamsSucceeded, EndOk;
  }

  lemma Enter(t: Trace, me: nat, x: Exec) returns (t': Trace)
    requires TraceOk(t) && me !in t.w.execs && x.pc.Fresh? && x.run in t.w.runs
    ensures At(t', me, x, Fresh) && t'.start == t.start
    ensures t'.w.runs == t.w.runs && t'.w.log == t.w.log && t'.w.now == t.w.now
  {
    hide WorldOk, Feasible, Run;
    t' := Went(t, Call(me, x));
  }

  lemma ClaimEnds(id: string, row: RunRow, owner: string, ttl: int, now: int)
    ensures var tx := ClaimTx(id, row, owner, ttl, now);
      && (tx.Commit? ==> tx.row.state == tx.out && (tx.out.RunRunning? || tx.out.RunCancelled?))
      && (tx.Abort? ==> tx.err.NotClaimable?)
  {
  }

  lemma KeptStart(t: Trace, t': Trace, run: string)
    requires Kept(t, t', run)
    ensures t'.start == t.start && run in t.w.runs && run in t'.w.runs && t.w.now <= t'.w.now
    ensures OnlyAsked(t.w.runs[run], t'.w.runs[run])
  {
  }

  lemma KeptReflexive(t: Trace, me: nat, x: Exec, pc: Pc)
    requires At(t, me, x, pc)
    ensures Kept(t, t, x.run)
  {
  }

  lemma AskKept(t: Trace, t': Trace, run: string, id: string, asker: string, why: string)
    requires run in t.w.runs && id in t.w.runs && t'.start == t.start
    requires t'.w == t.w.(runs := t.w.runs[id := CancelTx(t.w.runs[id], asker, why, t.w.now)])
    ensures Kept(t, t', run)
  {
  }

  lemma TickKept(t: Trace, t': Trace, run: string, to: int)
    requires run in t.w.runs && t'.start == t.start && t.w.now <= to && t'.w == t.w.(now := to)
    ensures Kept(t, t', run)
  {
  }
}
