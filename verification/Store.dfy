/**
 * internal/store as an object: its tables and its clock are fields, each method is one transaction, and
 * each is proved to perform the transaction of Tables that the rest of the project reasons about.
 */
module Store {
  import opened Wrappers
  import opened Machine
  import opened Tables
  import H = History

  /** A transaction either lands whole on its run and the log, or leaves both as they were. */
  ghost predicate Performed<T>(runs0: map<string, RunRow>, log0: seq<Entry>, runs1: map<string, RunRow>, log1: seq<Entry>,
                               id: string, t: Tx<T>, r: Result<T, TxError>)
  {
    match t
    case Commit(row, log, out) => runs1 == runs0[id := row] && log1 == log0 + log && r == Ok(out)
    case Abort(err) => runs1 == runs0 && log1 == log0 && r == Err(err)
  }

  /** UPDATE steps SET ... WHERE name = n AND state = st. */
  function UpdateWhere(steps: seq<StepRow>, n: string, st: StepState, change: StepRow -> StepRow): seq<StepRow> {
    seq(|steps|, i requires 0 <= i < |steps| =>
      if steps[i].name == n && steps[i].state == st then change(steps[i]) else steps[i])
  }

  function SkipTo(code: Code): StepRow -> StepRow {
    (s: StepRow) => s.(state := StepSkipped, reason := code)
  }

  /** The primary key makes the update hit the one row the method read. */
  lemma UpdateHitsOne(steps: seq<StepRow>, i: nat, change: StepRow -> StepRow)
    requires UniqueNames(steps) && i < |steps|
    ensures UpdateWhere(steps, steps[i].name, steps[i].state, change) == steps[i := change(steps[i])]
  {
    forall j | 0 <= j < |steps| && j != i ensures steps[j].name != steps[i].name {
      assert i < j || j < i;
    }
  }

  class Store {
    var runs: map<string, RunRow>
    var log: seq<Entry>
    var now: int

    /** The primary key of steps. */
    ghost predicate Valid()
      reads this
    {
      forall id :: id in runs ==> UniqueNames(runs[id].steps)
    }

    constructor (now: int)
      ensures Valid() && runs == map[] && log == [] && this.now == now
    {
      this.now := now;
      runs, log := map[], [];
    }

    method AppendRunEvent(e: Entry)
      modifies this`log
      ensures log == old(log) + [e]
    {
      log := log + [e];
    }

    method ClaimRun(id: string, owner: string, ttl: int) returns (r: Result<RunState, TxError>)
      requires Valid()
      modifies this`runs, this`log
      ensures Valid()
      ensures id !in old(runs) ==> runs == old(runs) && log == old(log) && r == Err(RunNotFound)
      ensures id in old(runs) ==> Performed(old(runs), old(log), runs, log, id, ClaimTx(id, old(runs)[id], owner, ttl, now), r)
    {
      hide NextRunState, UniqueNames, SkipRows, SkipEntries, PendingNames, KindOf;
      var lease := if ttl <= 0 then DEFAULT_LEASE_TTL else ttl;
      if id !in runs { return Err(RunNotFound); }
      var run := runs[id];
      SkipKeepsNames(run.steps, StepCodeCancelled);
      Ends(run.state, ClaimGuards(run, now));
      var guards := NO_GUARDS.(now := now, availableAt := run.availableAt, cancelRequested := run.cancelAt.Some?);
      if guards.cancelRequested { guards := guards.(reasonCode := RunCodeCancelledManual); }
      match NextRunState(run.state, EvClaim, guards)
      case Refused(why) => r := Err(NotClaimable(why));
      case Moved(state, effects) =>
        if state.RunRunning? {
          runs := runs[id := run.(state := RunRunning, leaseOwner := owner, leaseEpoch := run.leaseEpoch + 1,
                                  leaseExpiresAt := Some(now + lease))];
          AppendRunEvent(Entry(id, None, KindOf(effects), Some(OfRun(run.state)), OfRun(state), NoCode, ActorOf(Some(owner))));
        } else {
          var rows, written := SkipPendingSteps(id, run.steps, StepCodeCancelled);
          log := log + written;
          runs := runs[id := run.(state := RunCancelled, reason := RunCodeCancelledManual, steps := rows)];
          AppendRunEvent(Entry(id, None, KindOf(effects), Some(OfRun(run.state)), OfRun(state),
                               RunCodeCancelledManual, ActorOf(run.cancelBy)));
        }
        r := Ok(state);
    }

    /** skipPendingStepsTx: every pending step leaves through the machine with its own event, in idx order. */
    static method SkipPendingSteps(id: string, steps: seq<StepRow>, code: Code) returns (rows: seq<StepRow>, written: seq<Entry>)
      requires UniqueNames(steps) && !code.NoCode?
      ensures rows == SkipRows(steps, code)
      ensures written == SkipEntries(id, PendingNames(steps), code)
    {
      var names := PendingNames(steps);
      H.PendingNamesDistinct(steps);
      SkipNamedAll(steps, code);
      SkipMove(code);
      hide UniqueNames, PendingNames, SkipNamed, SkipRows, SkipEntries, UpdateWhere, H.Distinct, NextStepState, KindOf, SkipTo;
      rows, written := steps, [];
      SkipNone(id, steps, names, code);
      for k := 0 to |names|
        invariant rows == SkipNamed(steps, names[..k], code)
        invariant written == SkipEntries(id, names[..k], code)
      {
        match NextStepState(StepPending, EvUpstreamFailed, NO_GUARDS.(reasonCode := code))
        case Moved(state, effects) =>
          rows := UpdateWhere(rows, names[k], StepPending, SkipTo(code));
          written := written +
            [Entry(id, Some(names[k]), KindOf(effects), Some(OfStep(StepPending)), OfStep(state), code, SYSTEM)];
          SkipNamedNext(steps, names, k, code);
          SkipEntriesNext(id, names, k, code);
      }
      assert names[..|names|] == names;
    }

    /** RequestCancel: the first request stands, column by column. */
    method RequestCancel(id: string, asker: string, why: string) returns (r: Result<(int, string, string), TxError>)
      requires Valid()
      modifies this`runs
      ensures Valid()
      ensures id !in old(runs) ==> runs == old(runs) && r == Err(RunNotFound)
      ensures id in old(runs) ==>
        && runs == old(runs)[id := CancelTx(old(runs)[id], asker, why, now)]
        && r == Ok((runs[id].cancelAt.value, if runs[id].cancelBy.Some? then runs[id].cancelBy.value else "",
                    runs[id].cancelWhy.value))
    {
      if id !in runs { return Err(RunNotFound); }
      var run := runs[id];
      if run.cancelAt.None? { run := run.(cancelAt := Some(now)); }
      if run.cancelBy.None? && asker != "" { run := run.(cancelBy := Some(asker)); }
      if run.cancelWhy.None? { run := run.(cancelWhy := Some(why)); }
      runs := runs[id := run];
      r := Ok((run.cancelAt.value, if run.cancelBy.Some? then run.cancelBy.value else "", run.cancelWhy.value));
    }

    method CancelRequested(id: string) returns (r: Result<(bool, string), TxError>)
      ensures r == if id in runs then Ok(Asked(runs[id])) else Err(RunNotFound)
    {
      if id !in runs { return Err(RunNotFound); }
      var run := runs[id];
      r := Ok((run.cancelAt.Some?, if run.cancelBy.Some? then run.cancelBy.value else ""));
    }

    method StartStep(id: string, name: string) returns (r: Result<(), TxError>)
      requires Valid()
      modifies this`runs, this`log
      ensures Valid()
      ensures id !in old(runs) ==> runs == old(runs) && log == old(log) && r == Err(RunNotFound)
      ensures id in old(runs) ==> Performed(old(runs), old(log), runs, log, id, StartTx(id, old(runs)[id], name), r)
    {
      if id !in runs { return Err(RunNotFound); }
      var run := runs[id];
      if !run.state.RunRunning? { return Err(RunNotRunning); }
      var at := Find(run.steps, name);
      if at.None? { return Err(StepNotFound); }
      var step := run.steps[at.value];
      if !step.state.StepPending? { return Err(StepNotPending); }
      match NextStepState(step.state, EvStepStarted, NO_GUARDS)
      case Refused(why) => r := Err(Denied(why));
      case Moved(state, effects) =>
        var started := (s: StepRow) => s.(state := StepRunning, attempt := s.attempt + 1);
        UpdateHitsOne(run.steps, at.value, started);
        runs := runs[id := run.(steps := UpdateWhere(run.steps, name, StepPending, started))];
        AppendRunEvent(Entry(id, Some(name), KindOf(effects), Some(OfStep(step.state)), OfStep(state), NoCode, SYSTEM));
        r := Ok(());
    }

    method RecordStepOutcome(id: string, name: string, out: Outcome) returns (r: Result<StepState, TxError>)
      requires Valid()
      modifies this`runs, this`log
      ensures Valid()
      ensures id !in old(runs) ==> runs == old(runs) && log == old(log) && r == Err(StepNotFound)
      ensures id in old(runs) ==> Performed(old(runs), old(log), runs, log, id, RecordTx(id, old(runs)[id], name, out, now), r)
    {
      var finishedAt := if out.finishedAt.Some? then out.finishedAt.value else now;
      if id !in runs { return Err(StepNotFound); }
      var run := runs[id];
      var at := Find(run.steps, name);
      if at.None? { return Err(StepNotFound); }
      var step := run.steps[at.value];
      var guards := NO_GUARDS.(reasonCode := out.reason, attemptsLeft := step.attempt < step.maxAttempts);
      match NextStepState(step.state, out.event, guards)
      case Refused(why) => r := Err(Denied(why));
      case Moved(state, effects) =>
        var nextAttempt := None;
        var rowReason := out.reason;
        if state.StepPending? {
          if out.retry.Some? && out.retry.value.nextAttemptAt.Some? {
            nextAttempt := out.retry.value.nextAttemptAt;
          } else {
            nextAttempt := Some(finishedAt);
          }
          if out.retry.Some? && !out.retry.value.reason.NoCode? { rowReason := out.retry.value.reason; }
        }
        var recorded := (s: StepRow) => s.(state := state, reason := rowReason, nextAttemptAt := nextAttempt);
        UpdateHitsOne(run.steps, at.value, recorded);
        runs := runs[id := run.(steps := UpdateWhere(run.steps, name, step.state, recorded))];
        AppendRunEvent(Entry(id, Some(name), KindOf(effects), Some(OfStep(step.state)), OfStep(state), rowReason, SYSTEM));
        r := Ok(state);
    }

    /** FinishRun's pass over the steps it read. */
    static method JudgeSteps(steps: seq<StepRow>) returns (allTerminal: bool, anyFailed: bool)
      ensures allTerminal == AllTerminal(steps) && anyFailed == AnyFailedOrCancelled(steps)
    {
      allTerminal, anyFailed := true, false;
      for i := 0 to |steps|
        invariant allTerminal <==> AllTerminal(steps[..i])
        invariant anyFailed <==> AnyFailedOrCancelled(steps[..i])
      {
        var st := steps[i].state;
        assert steps[..i + 1] == steps[..i] + [steps[i]];
        if !st.IsTerminal() { allTerminal := false; }
        if st.StepFailed? || st.StepCancelled? { anyFailed := true; }
        AnyPush(steps[..i], steps[i]);
      }
      assert steps[..|steps|] == steps;
    }

    /** FinishRun: the machine judges the steps as they stand in the same transaction. */
    method FinishRun(id: string, owner: string, code: Code) returns (r: Result<RunState, TxError>)
      requires Valid()
      modifies this`runs, this`log
      ensures Valid()
      ensures id !in old(runs) ==> runs == old(runs) && log == old(log) && r == Err(RunNotFound)
      ensures id in old(runs) ==> Performed(old(runs), old(log), runs, log, id, FinishTx(id, old(runs)[id], owner, code, now), r)
    {
      hide NextRunState, UniqueNames, KindOf, AllTerminal, AnyFailedOrCancelled;
      if id !in runs { return Err(RunNotFound); }
      var run := runs[id];
      var allTerminal, anyFailed := JudgeSteps(run.steps);
      var leaseValid := run.leaseOwner == owner && (run.leaseExpiresAt.None? || run.leaseExpiresAt.value > now);
      assert leaseValid == LeaseValid(run, owner, now);
      hide LeaseValid;
      var guards := NO_GUARDS.(leaseValid := leaseValid, allStepsTerminal := allTerminal, anyStepFailed := anyFailed,
                    reasonCode := code, now := now, availableAt := run.availableAt);
      assert guards == FinishGuards(run, owner, code, now);
      hide FinishGuards;
      match NextRunState(run.state, EvAllStepsDone, guards)
      case Refused(why) => r := Err(Denied(why));
      case Moved(state, effects) =>
        runs := runs[id := run.(state := state, reason := code, leaseOwner := "", leaseExpiresAt := None)];
        AppendRunEvent(Entry(id, None, KindOf(effects), Some(OfRun(run.state)), OfRun(state), code, SYSTEM));
        r := Ok(state);
    }

    method ObserveRunCancel(id: string, owner: string, actor: string, code: Code) returns (r: Result<(), TxError>)
      requires Valid()
      modifies this`runs, this`log
      ensures Valid()
      ensures id !in old(runs) ==> runs == old(runs) && log == old(log) && r == Err(RunNotFound)
      ensures id in old(runs) ==> Performed(old(runs), old(log), runs, log, id, ObserveTx(id, old(runs)[id], owner, actor, code, now), r)
    {
      hide NextRunState, UniqueNames, SkipRows, SkipEntries, PendingNames, KindOf, LeaseValid, ActorOf;
      if id !in runs { return Err(RunNotFound); }
      var run := runs[id];
      SkipKeepsNames(run.steps, StepCodeCancelled);
      if run.cancelAt.None? { return Err(NobodyRequested); }
      var guards := NO_GUARDS.(leaseValid := LeaseValid(run, owner, now), reasonCode := code);
      ObserveMoves(id, run, owner, actor, code, now, guards);
      hide ObserveTx;
      match NextRunState(run.state, EvCancelObserved, guards)
      case Refused(why) => r := Err(Denied(why));
      case Moved(state, effects) =>
        var rows, written := SkipPendingSteps(id, run.steps, StepCodeCancelled);
        log := log + written;
        runs := runs[id := run.(state := RunCancelled, reason := code, leaseOwner := "", leaseExpiresAt := None,
                                steps := rows)];
        AppendRunEvent(Entry(id, None, KindOf(effects), Some(OfRun(run.state)), OfRun(state), code, ActorOf(Some(actor))));
        r := Ok(());
    }

    /** insertSteps' inner loop: the edges of one step. */
    static method InsertNeeds(name: string, needs: seq<string>, before: set<(string, string)>)
      returns (ok: bool, edges: set<(string, string)>)
      requires forall e :: e in before ==> e.0 != name
      ensures ok <==> H.Distinct(needs)
      ensures ok ==> edges == before + set j | 0 <= j < |needs| :: (name, needs[j])
    {
      ok, edges := true, before;
      for k := 0 to |needs|
        invariant H.Distinct(needs[..k])
        invariant edges == before + set j | 0 <= j < k :: (name, needs[j])
      {
        if (name, needs[k]) in edges {
          var j :| 0 <= j < k && needs[j] == needs[k];
          return false, edges;
        }
        edges := edges + {(name, needs[k])};
      }
      assert needs[..|needs|] == needs;
    }

    /** insertSteps: one pending row a spec step and its edges, until a primary key refuses one. */
    static method InsertSteps(steps: seq<NewStep>) returns (ok: bool, rows: seq<StepRow>, edges: set<(string, string)>)
      ensures ok <==> Insertable(steps)
      ensures ok ==> |rows| == |steps| && (forall k :: 0 <= k < |steps| ==> rows[k] == FreshStep(steps[k])) && edges == EdgesOf(steps)
    {
      ok, rows, edges := true, [], {};
      for i := 0 to |steps|
        invariant |rows| == i && forall k :: 0 <= k < i ==> rows[k] == FreshStep(steps[k])
        invariant Insertable(steps[..i])
        invariant edges == EdgesOf(steps[..i])
      {
        var step := steps[i];
        var maxAttempts := 1;
        if step.retryMax.Some? && step.retryMax.value >= 0 { maxAttempts := step.retryMax.value + 1; }
        if Find(rows, step.name).Some? {
          var k := Find(rows, step.name).value;
          assert steps[k].name == steps[i].name;
          return false, [], {};
        }
        rows := rows + [StepRow(step.name, StepPending, 0, maxAttempts, None, NoCode)];
        ok, edges := InsertNeeds(step.name, step.needs, edges);
        if !ok { return false, [], {}; }
        InsertedOne(steps, i);
      }
      assert steps[..|steps|] == steps;
    }

    /**
     * MaterializeManualTrigger with insertSteps: one pending step a spec step, its edges beside it, and
     * the queued event. A repeated step name or a repeated need breaks a primary key and rolls back.
     */
    method Materialize(id: string, steps: seq<NewStep>, actor: string) returns (ok: bool)
      requires Valid()
      modifies this`runs, this`log
      ensures Valid()
      ensures ok <==> id !in old(runs) && Insertable(steps)
      ensures !ok ==> runs == old(runs) && log == old(log)
      ensures ok ==> runs == old(runs)[id := FreshRun(steps, now)] && log == old(log) + [QueuedEntry(id, actor)]
    {
      if id in runs { return false; }
      var inserted, rows, edges := InsertSteps(steps);
      if !inserted { return false; }
      assert rows == FreshRun(steps, now).steps;
      runs := runs[id := RunRow(RunQueued, now, None, None, None, "", 0, None, NoCode, rows, edges)];
      AppendRunEvent(Entry(id, None, KRunQueued, None, OfRun(RunQueued), NoCode, ActorOf(Some(actor))));
      ok := true;
    }
  }

  // ----- loop facts -----

  lemma SkipKeepsNames(steps: seq<StepRow>, code: Code)
    requires UniqueNames(steps)
    ensures UniqueNames(SkipRows(steps, code))
  {
    forall i, j | 0 <= i < j < |steps| ensures SkipRows(steps, code)[i].name != SkipRows(steps, code)[j].name {
      assert steps[i].name != steps[j].name;
    }
  }

  /** What the machine's answer makes of the rows and the log. */
  ghost predicate Observed(id: string, row: RunRow, actor: string, code: Code, move: Move<RunState>, tx: Tx<()>) {
    match move
    case Refused(why) => tx == Abort(Denied(why))
    case Moved(next, fx) =>
      && !code.NoCode?
      && tx == Commit(row.(state := RunCancelled, reason := code, leaseOwner := "", leaseExpiresAt := None,
                           steps := SkipRows(row.steps, StepCodeCancelled)),
                      SkipEntries(id, PendingNames(row.steps), StepCodeCancelled)
                      + [Entry(id, None, KindOf(fx), Some(OfRun(row.state)), OfRun(next), code, ActorOf(Some(actor)))], ())
  }

  lemma ObserveMoves(id: string, row: RunRow, owner: string, actor: string, code: Code, now: int, guards: Guards)
    requires row.cancelAt.Some? && guards == NO_GUARDS.(leaseValid := LeaseValid(row, owner, now), reasonCode := code)
    ensures Observed(id, row, actor, code, NextRunState(row.state, EvCancelObserved, guards), ObserveTx(id, row, owner, actor, code, now))
  {
  }

  /** Where a claim may lead. */
  lemma Ends(cur: RunState, g: Guards)
    ensures match NextRunState(cur, EvClaim, g) case Moved(next, _) => next.RunRunning? || next.RunCancelled? case Refused(_) => true
  {
  }

  lemma AnyPush(a: seq<StepRow>, s: StepRow)
    ensures AnyFailedOrCancelled(a + [s]) <==> AnyFailedOrCancelled(a) || s.state.StepFailed? || s.state.StepCancelled?
  {
    var b := a + [s];
    assert forall i :: 0 <= i < |a| ==> b[i] == a[i];
    assert b[|a|] == s;
  }

  /** The steps after the named ones have been skipped. */
  function SkipNamed(steps: seq<StepRow>, names: seq<string>, code: Code): seq<StepRow> {
    seq(|steps|, i requires 0 <= i < |steps| => if steps[i].name in names then SkipRow(steps[i], code) else steps[i])
  }

  lemma SkipNamedNext(steps: seq<StepRow>, names: seq<string>, k: nat, code: Code)
    requires UniqueNames(steps) && k < |names| && H.Distinct(names)
    ensures UpdateWhere(SkipNamed(steps, names[..k], code), names[k], StepPending, SkipTo(code))
      == SkipNamed(steps, names[..k + 1], code)
  {
    assert names[..k + 1] == names[..k] + [names[k]];
  }

  lemma SkipEntriesNext(id: string, names: seq<string>, k: nat, code: Code)
    requires k < |names|
    ensures SkipEntries(id, names[..k + 1], code) == SkipEntries(id, names[..k], code) + [SkipEntry(id, names[k], code)]
  {
    assert names[..k + 1][..k] == names[..k];
  }

  lemma SkipMove(code: Code)
    requires !code.NoCode?
    ensures var m := NextStepState(StepPending, EvUpstreamFailed, NO_GUARDS.(reasonCode := code));
      m.Moved? && m.next.StepSkipped? && KindOf(m.effects).KStepSkipped?
  {
  }

  lemma SkipNone(id: string, steps: seq<StepRow>, names: seq<string>, code: Code)
    ensures SkipNamed(steps, names[..0], code) == steps && SkipEntries(id, names[..0], code) == []
  {
  }

  lemma SkipNamedAll(steps: seq<StepRow>, code: Code)
    requires UniqueNames(steps)
    ensures SkipNamed(steps, PendingNames(steps), code) == SkipRows(steps, code)
  {
    forall i | 0 <= i < |steps| ensures steps[i].name in PendingNames(steps) <==> steps[i].state.StepPending? {
      H.PendingNamesHas(steps, i);
    }
  }

  lemma InsertedOne(steps: seq<NewStep>, i: nat)
    requires i < |steps| && Insertable(steps[..i])
    requires forall k :: 0 <= k < i ==> steps[k].name != steps[i].name
    requires H.Distinct(steps[i].needs)
    ensures Insertable(steps[..i + 1])
    ensures EdgesOf(steps[..i + 1]) == EdgesOf(steps[..i]) + set j | 0 <= j < |steps[i].needs| :: (steps[i].name, steps[i].needs[j])
  {
    assert forall k :: 0 <= k < i ==> steps[..i + 1][k] == steps[..i][k];
    assert steps[..i + 1][i] == steps[i];
  }
}
