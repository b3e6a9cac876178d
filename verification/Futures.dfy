/** What holds over every continuation of a reachable state, and where the code falls short of its aim. */
module Futures {
  import opened Machine
  import opened Tables
  import opened History
  import opened Invariant
  import opened Protocol
  import opened Safety

  lemma OnlyAskedTransitive(a: RunRow, b: RunRow, c: RunRow)
    requires OnlyAsked(a, b) && OnlyAsked(b, c)
    ensures OnlyAsked(a, c)
  {
  }

  /** Action a is not a move of an executor that owns run id or could claim it. */
  predicate Bystanding(w: World, a: Action, id: string)
    requires Enabled(w, a) && id in w.runs
  {
    a.Go? ==> w.execs[a.e].run != id || (w.execs[a.e].pc.Fresh? && !w.runs[id].state.RunQueued?)
  }

  /** A bystander can only ask for a cancellation. */
  lemma BystanderOnlyAsks(w: World, a: Action, id: string)
    requires Enabled(w, a) && id in w.runs && Bystanding(w, a, id)
    ensures id in Step(w, a).runs && OnlyAsked(w.runs[id], Step(w, a).runs[id])
  {
  }

  // ----- an executor is alone with its run -----

  predicate NotMine(a: Action, me: nat) { (a.Go? || a.Crash?) ==> a.e != me }

  predicate NoneMine(acts: seq<Action>, me: nat) {
    forall i :: 0 <= i < |acts| ==> NotMine(acts[i], me)
  }

  /** The run and the program point of executor me are as they were, but for a request. */
  ghost predicate MineKept(w: World, w': World, me: nat) {
    && me in w.execs && me in w'.execs && w'.execs[me] == w.execs[me] && w.now <= w'.now
    && w.execs[me].run in w.runs && w.execs[me].run in w'.runs
    && OnlyAsked(w.runs[w.execs[me].run], w'.runs[w.execs[me].run])
  }

  lemma MineKeptTransitive(a: World, b: World, c: World, me: nat)
    requires MineKept(a, b, me) && MineKept(b, c, me)
    ensures MineKept(a, c, me)
  {
  }

  lemma OneStepAround(w: World, a: Action, me: nat)
    requires WorldOk(w) && Enabled(w, a) && NotMine(a, me)
    requires me in w.execs && Active(w.execs[me].pc)
    ensures MineKept(w, Step(w, a), me)
  {
    OthersStandBy(w, a, me);
    BystanderOnlyAsks(w, a, w.execs[me].run);
    hide WorldOk, OnlyAsked, Enabled, Step, Bystanding;
    OthersKeepMyPoint(w, a, me);
  }

  lemma OthersKeepMyPoint(w: World, a: Action, me: nat)
    requires Enabled(w, a) && NotMine(a, me) && me in w.execs
    ensures var w' := Step(w, a); me in w'.execs && w'.execs[me] == w.execs[me] && w.now <= w'.now
  {
    hide Advance, FreshRun, CancelTx, Insertable, CanAdvance;
  }

  lemma OthersStandBy(w: World, a: Action, me: nat)
    requires ExecsOk(w) && Enabled(w, a) && NotMine(a, me)
    requires me in w.execs && Active(w.execs[me].pc)
    ensures w.execs[me].run in w.runs && Bystanding(w, a, w.execs[me].run)
  {
    assert PcOk(w.runs[w.execs[me].run], w.execs[me].pc);
    hide PcOk;
    forall e | e in w.execs && e != me ensures !Rivals(w.execs[e], w.execs[me]) {}
  }

  /** Whatever everybody else does, a claimed run only moves by its own executor. */
  lemma {:induction false} AloneWithTheRun(w: World, acts: seq<Action>, me: nat)
    requires WorldOk(w) && Feasible(w, acts) && NoneMine(acts, me)
    requires me in w.execs && Active(w.execs[me].pc)
    ensures MineKept(w, Run(w, acts), me)
    decreases |acts|
  {
    hide WorldOk, MineKept, Enabled, Step, NotMine;
    if |acts| == 0 {
      MineKeptReflexive(w, me);
    } else {
      assert NotMine(acts[0], me);
      OneStepAround(w, acts[0], me);
      StepKeeps(w, acts[0]);
      var w1 := Step(w, acts[0]);
      NoneMineTail(acts, me);
      MineStaysActive(w, w1, me);
      AloneWithTheRun(w1, acts[1..], me);
      MineKeptTransitive(w, w1, Run(w, acts), me);
    }
  }

  lemma MineKeptReflexive(w: World, me: nat)
    requires WorldOk(w) && me in w.execs
    ensures MineKept(w, w, me)
  {
  }

  lemma MineStaysActive(w: World, w': World, me: nat)
    requires MineKept(w, w', me) && Active(w.execs[me].pc)
    ensures me in w'.execs && Active(w'.execs[me].pc)
  {
  }

  lemma NoneMineTail(acts: seq<Action>, me: nat)
    requires |acts| > 0 && NoneMine(acts, me)
    ensures NoneMine(acts[1..], me)
  {
    assert forall i :: 0 <= i < |acts[1..]| ==> acts[1..][i] == acts[i + 1];
  }

  // ----- the cancellation request -----

  /** What a request can never change again: who is in the graph, and once set, when it was made. */
  lemma AccessFreezes(x: Exec, row: RunRow, now: int, rep: Report)
    requires RowOk(row) && CanAdvance(x, row, now, rep) && (Active(x.pc) ==> PcOk(row, x.pc))
    ensures SameShape(row, Advance(x, row, now, rep).row)
    ensures Advance(x, row, now, rep).row.cancelAt == row.cancelAt
  {
    Access(x, row, now, rep);
    hide RowOk, PcOk;
  }

  lemma StepFreezes(w: World, a: Action, id: string)
    requires WorldOk(w) && Enabled(w, a) && id in w.runs
    ensures id in Step(w, a).runs && SameShape(w.runs[id], Step(w, a).runs[id])
    ensures w.runs[id].cancelAt.Some? ==> Step(w, a).runs[id].cancelAt == w.runs[id].cancelAt
  {
    hide RowOk, LogOk, PcOk, Advance;
    if Bystanding(w, a, id) {
      BystanderOnlyAsks(w, a, id);
    } else {
      AccessFreezes(w.execs[a.e], w.runs[id], w.now, a.rep);
    }
  }

  lemma {:induction false} RequestTimeStands(w: World, acts: seq<Action>, id: string)
    requires WorldOk(w) && Feasible(w, acts) && id in w.runs
    ensures id in Run(w, acts).runs && SameShape(w.runs[id], Run(w, acts).runs[id])
    ensures w.runs[id].cancelAt.Some? ==> Run(w, acts).runs[id].cancelAt == w.runs[id].cancelAt
    decreases |acts|
  {
    hide RunsOk, ExecsOk, Enabled, Step;
    if |acts| > 0 {
      StepFreezes(w, acts[0], id);
      StepKeeps(w, acts[0]);
      RequestTimeStands(Step(w, acts[0]), acts[1..], id);
    }
  }

  /**
   * A second request changes nothing exactly when the first one named somebody or the second names
   * nobody: the row keeps NULL for an empty name, and COALESCE fills it later.
   */
  lemma SecondRequest(row: RunRow, asker: string, why: string, now: int, asker': string, why': string, now': int)
    requires row.cancelAt.None? && row.cancelBy.None? && row.cancelWhy.None?
    ensures var once := CancelTx(row, asker, why, now);
      CancelTx(once, asker', why', now') == once <==> asker != "" || asker' == ""
  {
  }

  // ----- runs nobody executes -----

  ghost predicate Orphaned(w: World, id: string) {
    && id in w.runs && w.runs[id].state.RunRunning?
    && forall e :: e in w.execs && w.execs[e].run == id ==> !Active(w.execs[e].pc)
  }

  lemma OrphanStays(w: World, a: Action, id: string)
    requires Enabled(w, a) && Orphaned(w, id)
    ensures Orphaned(Step(w, a), id) && OnlyAsked(w.runs[id], Step(w, a).runs[id])
  {
    if a.Go? && w.execs[a.e].run == id { assert CanAdvance(w.execs[a.e], w.runs[id], w.now, a.rep); }
    BystanderOnlyAsks(w, a, id);
  }

  /**
   * A run whose executor crashed or returned an error never moves again: no store method takes it back,
   * so neither a later caller nor a cancellation request ends it.
   */
  lemma {:induction false} OrphanForever(w: World, acts: seq<Action>, id: string)
    requires Feasible(w, acts) && Orphaned(w, id)
    ensures Orphaned(Run(w, acts), id) && OnlyAsked(w.runs[id], Run(w, acts).runs[id])
    decreases |acts|
  {
    if |acts| > 0 {
      hide Enabled, Step;
      OrphanStays(w, acts[0], id);
      OrphanForever(Step(w, acts[0]), acts[1..], id);
      OnlyAskedTransitive(w.runs[id], Step(w, acts[0]).runs[id], Run(w, acts).runs[id]);
    }
  }

  /** The executor of a run leaves it orphaned by crashing at any point past its claim. */
  lemma CrashOrphans(w: World, e: nat)
    requires WorldOk(w) && e in w.execs && Active(w.execs[e].pc)
    ensures Enabled(w, Crash(e)) && Orphaned(Step(w, Crash(e)), w.execs[e].run)
  {
    var id := w.execs[e].run;
    assert PcOk(w.runs[id], w.execs[e].pc);
    forall f | f in w.execs && f != e && w.execs[f].run == id ensures !Active(w.execs[f].pc) {
      assert !Rivals(w.execs[f], w.execs[e]);
    }
  }

  // ----- the deadline exit -----

  /** The loop was left because the run's own budget killed a step. */
  predicate TimedOutPc(pc: Pc) {
    || (pc.Closing? && pc.timedOut) || (pc.Skipping? && pc.timedOut)
    || (pc.Judging? && pc.timedOut) || (pc.Finishing? && pc.code.RunCodeTimedOut?)
  }

  ghost predicate Expiring(w: World, id: string) {
    && id in w.runs && !w.runs[id].state.RunQueued? && !w.runs[id].state.RunCancelled?
    && forall e :: e in w.execs && w.execs[e].run == id && Active(w.execs[e].pc) ==> TimedOutPc(w.execs[e].pc)
  }

  lemma ExpiringAccess(x: Exec, row: RunRow, now: int, rep: Report)
    requires RowOk(row) && PcOk(row, x.pc) && TimedOutPc(x.pc)
    ensures var s := Advance(x, row, now, rep);
      && (Active(s.pc) ==> TimedOutPc(s.pc))
      && (SomeFailed(s.row) <==> SomeFailed(row))
      && !s.row.state.RunQueued? && !s.row.state.RunCancelled?
  {
    if x.pc.Skipping? && |x.pc.names| > 0 {
      var t := RecordTx(x.run, row, x.pc.names[0], SKIP_OUTCOME, now);
      if t.Commit? {
        var i := Find(row.steps, x.pc.names[0]).value;
        assert forall j: nat :: j < |row.steps| && j != i ==> t.row.steps[j] == row.steps[j];
        assert row.steps[i].state.StepPending? && t.row.steps[i].state.StepSkipped?;
      }
    }
  }

  lemma LateClaimFails(x: Exec, row: RunRow, now: int, rep: Report)
    requires x.pc.Fresh? && !row.state.RunQueued?
    ensures Advance(x, row, now, rep) == StepTo(row, [], Gone)
  {
  }

  lemma ExpiringStep(w: World, a: Action, id: string)
    requires WorldOk(w) && Enabled(w, a) && Expiring(w, id)
    ensures Expiring(Step(w, a), id)
    ensures SomeFailed(Step(w, a).runs[id]) <==> SomeFailed(w.runs[id])
  {
    hide RowOk, LogOk, PcOk, Advance;
    if a.Go? && w.execs[a.e].run == id && Active(w.execs[a.e].pc) {
      ExpiringAccess(w.execs[a.e], w.runs[id], w.now, a.rep);
    } else {
      if a.Go? && w.execs[a.e].run == id { LateClaimFails(w.execs[a.e], w.runs[id], w.now, a.rep); }
      BystanderOnlyAsks(w, a, id);
    }
  }

  lemma {:induction false} ExpiringRun(w: World, acts: seq<Action>, id: string)
    requires WorldOk(w) && Feasible(w, acts) && Expiring(w, id)
    ensures Expiring(Run(w, acts), id)
    ensures SomeFailed(Run(w, acts).runs[id]) <==> SomeFailed(w.runs[id])
    decreases |acts|
  {
    if |acts| > 0 {
      hide RunsOk, ExecsOk, Enabled, Step, SomeFailed;
      ExpiringStep(w, acts[0], id);
      StepKeeps(w, acts[0]);
      ExpiringRun(Step(w, acts[0]), acts[1..], id);
    }
  }

  lemma EndOfExpired(w: World, id: string)
    requires WorldOk(w) && Expiring(w, id) && w.runs[id].state.IsTerminal()
    ensures w.runs[id].state.RunFailed? <==> SomeFailed(w.runs[id])
    ensures w.runs[id].state.RunSucceeded? <==> !w.runs[id].state.RunFailed?
  {
    assert RowOk(w.runs[id]);
  }

  /**
   * How a run ends once its own deadline killed a step: failed exactly when that step had no attempt
   * left or another step had failed before. With attempts left the killed step goes back to pending and
   * is then skipped, and the run succeeds under the reason code of a timeout.
   */
  lemma DeadlineVerdict(w: World, e: nat, rep: Report, acts: seq<Action>)
    requires WorldOk(w) && e in w.execs && w.execs[e].pc.Recording? && w.execs[e].pc.spent
    requires Enabled(w, Go(e, rep)) && Feasible(Step(w, Go(e, rep)), acts)
    requires var id, name := w.execs[e].run, w.execs[e].pc.name;
      && RecordTx(id, w.runs[id], name, w.execs[e].pc.out, w.now).Commit?
      && id in Run(Step(w, Go(e, rep)), acts).runs
      && Run(Step(w, Go(e, rep)), acts).runs[id].state.IsTerminal()
    ensures var id := w.execs[e].run; var row := w.runs[id];
      var i := Find(row.steps, w.execs[e].pc.name); var end := Run(Step(w, Go(e, rep)), acts).runs[id];
      && i.Some?
      && (end.state.RunFailed? <==> row.steps[i.value].attempt == row.steps[i.value].maxAttempts || SomeFailed(row))
      && (end.state.RunSucceeded? <==> !end.state.RunFailed?)
  {
    hide RunsOk, ExecsOk, Enabled, Step, SomeFailed, Expiring, Feasible, Run;
    var w1 := Step(w, Go(e, rep));
    ExpiringAfterKill(w, e, rep);
    StepKeeps(w, Go(e, rep));
    ExpiringRun(w1, acts, w.execs[e].run);
    RunKeeps(w1, acts);
    EndOfExpired(Run(w1, acts), w.execs[e].run);
  }

  lemma ExpiringAfterKill(w: World, e: nat, rep: Report)
    requires WorldOk(w) && e in w.execs && w.execs[e].pc.Recording? && w.execs[e].pc.spent
    requires Enabled(w, Go(e, rep))
    requires var id, name := w.execs[e].run, w.execs[e].pc.name;
      RecordTx(id, w.runs[id], name, w.execs[e].pc.out, w.now).Commit?
    ensures var id := w.execs[e].run; var row := w.runs[id]; var w1 := Step(w, Go(e, rep));
      var i := Find(row.steps, w.execs[e].pc.name);
      && Expiring(w1, id) && i.Some?
      && (SomeFailed(w1.runs[id]) <==> row.steps[i.value].attempt == row.steps[i.value].maxAttempts || SomeFailed(row))
  {
    hide LogOk, RowOk, PcOk, Advance, RecordTx, SomeFailed, CanAdvance;
    var x := w.execs[e];
    KilledStep(x, w.runs[x.run], w.now, rep);
    var w1 := Step(w, Go(e, rep));
    forall f | f in w.execs && f != e ensures !Rivals(w.execs[f], x) {}
  }

  lemma KilledStep(x: Exec, row: RunRow, now: int, rep: Report)
    requires RowOk(row) && x.pc.Recording? && x.pc.spent && PcOk(row, x.pc)
    requires RecordTx(x.run, row, x.pc.name, x.pc.out, now).Commit?
    ensures var s := Advance(x, row, now, rep); var i := Find(row.steps, x.pc.name);
      && i.Some? && s.pc == Closing(true) && s.row.state.RunRunning?
      && (SomeFailed(s.row) <==> row.steps[i.value].attempt == row.steps[i.value].maxAttempts || SomeFailed(row))
  {
    var s := Advance(x, row, now, rep);
    var i := Find(row.steps, x.pc.name).value;
    assert StepOk(row, i);
    assert row.steps[i].state.StepRunning?;
    assert forall j: nat :: j < |row.steps| && j != i ==> s.row.steps[j] == row.steps[j];
    assert s.row.steps[i].state == if row.steps[i].attempt < row.steps[i].maxAttempts then StepPending else StepFailed;
  }
}
