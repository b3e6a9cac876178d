/** The invariant of a run's rows, and that every transaction keeps it. */
module Invariant {
  import opened Wrappers
  import opened Machine
  import opened Tables
  import opened Graph

  ghost predicate StepOk(row: RunRow, i: nat)
    requires i < |row.steps|
  {
    var s := row.steps[i];
    && s.attempt <= s.maxAttempts
    && (s.state.StepPending? ==> s.attempt < s.maxAttempts)
    && (Parked(s) ==> s.attempt > 0)
    && (s.attempt > 0 ==> UpstreamsSucceeded(row, i) && WellFounded(row, i))
    && (!s.state.StepPending? && !s.state.StepSkipped? ==> s.attempt > 0)
    && (s.state.StepCancelled? ==> row.cancelAt.Some?)
  }

  ghost predicate NoneIs(row: RunRow, st: StepState) {
    forall i: nat :: i < |row.steps| ==> row.steps[i].state != st
  }

  ghost predicate SomeFailed(row: RunRow) {
    exists i: nat :: i < |row.steps| && row.steps[i].state.StepFailed?
  }

  /** How a run may have ended. */
  ghost predicate EndOk(row: RunRow) {
    && (row.state.IsTerminal() ==> AllTerminal(row.steps))
    && (row.state.RunCancelled? ==> row.cancelAt.Some?)
    && (row.state.RunSucceeded? || row.state.RunFailed? ==>
          && NoneIs(row, StepCancelled)
          && (row.state.RunFailed? <==> SomeFailed(row))
          && (!row.reason.RunCodeTimedOut? ==> Stuck(row)))
  }

  ghost predicate RowOk(row: RunRow) {
    && UniqueNames(row.steps)
    && (forall i: nat :: i < |row.steps| ==> StepOk(row, i))
    && (row.state.RunQueued? ==> forall i: nat :: i < |row.steps| ==> row.steps[i].state.StepPending? && row.steps[i].attempt == 0)
    && EndOk(row)
  }

  // ----- what a change of one step keeps -----

  lemma WellFoundedFrozen(row: RunRow, row': RunRow, i: nat)
    requires |row'.steps| == |row.steps| && row'.deps == row.deps && i < |row.steps|
    requires forall j :: 0 <= j < |row.steps| ==> row'.steps[j].name == row.steps[j].name
    requires WellFounded(row, i)
    ensures WellFounded(row', i)
  {
    var d: nat :| Grounded(row, i, d);
    GroundedFrozen(row, row', i, d);
  }

  /** Names and edges are frozen and no success is taken back. */
  ghost predicate Grows(row: RunRow, row': RunRow) {
    && |row'.steps| == |row.steps| && row'.deps == row.deps
    && (row.cancelAt.Some? ==> row'.cancelAt == row.cancelAt)
    && forall j :: 0 <= j < |row.steps| ==>
         && row'.steps[j].name == row.steps[j].name
         && (row.steps[j].state.StepSucceeded? ==> row'.steps[j].state.StepSucceeded?)
  }

  lemma UpstreamsStaySucceeded(row: RunRow, row': RunRow, i: nat)
    requires Grows(row, row') && i < |row.steps| && UpstreamsSucceeded(row, i)
    ensures UpstreamsSucceeded(row', i)
  {
    forall j: nat | j < |row'.steps| && Needs(row', i, j) ensures row'.steps[j].state.StepSucceeded? {
      assert Needs(row, i, j);
    }
  }

  /** A step whose own columns the transaction leaves alone stays in order. */
  lemma StepOkKept(row: RunRow, row': RunRow, i: nat)
    requires Grows(row, row') && i < |row.steps| && StepOk(row, i) && row'.steps[i] == row.steps[i]
    ensures StepOk(row', i)
  {
    if row.steps[i].attempt > 0 {
      UpstreamsStaySucceeded(row, row', i);
      WellFoundedFrozen(row, row', i);
    }
  }

  /** Writing one open step of a running run keeps the rows in order when its own columns are. */
  lemma StepWriteKeeps(row: RunRow, i: nat, s': StepRow)
    requires RowOk(row) && row.state.RunRunning? && i < |row.steps|
    requires s'.name == row.steps[i].name && !row.steps[i].state.StepSucceeded?
    requires var s := row.steps[i];
      && s'.attempt <= s'.maxAttempts
      && (s'.state.StepPending? ==> s'.attempt < s'.maxAttempts)
      && (Parked(s') ==> s'.attempt > 0)
      && (s'.attempt > 0 ==> UpstreamsSucceeded(row, i))
      && (!s'.state.StepPending? && !s'.state.StepSkipped? ==> s'.attempt > 0)
      && (s'.state.StepCancelled? ==> row.cancelAt.Some?)
    ensures RowOk(row.(steps := row.steps[i := s']))
  {
    var row' := row.(steps := row.steps[i := s']);
    assert Grows(row, row');
    forall j: nat | j < |row'.steps| ensures StepOk(row', j) {
      if j != i {
        StepOkKept(row, row', j);
      } else if s'.attempt > 0 {
        UpstreamsStaySucceeded(row, row', i);
        forall k: nat | k < |row.steps| && Needs(row, i, k) ensures WellFounded(row, k) {
          assert StepOk(row, k);
        }
        WellFoundedFromUpstreams(row, i);
        WellFoundedFrozen(row, row', i);
      }
    }
  }

  // ----- transactions -----

  lemma CancelKeeps(row: RunRow, asker: string, why: string, now: int)
    requires RowOk(row)
    ensures RowOk(CancelTx(row, asker, why, now))
  {
    var row' := CancelTx(row, asker, why, now);
    forall i: nat | i < |row.steps| ensures StepOk(row', i) { StepOkKept(row, row', i); }
    if Stuck(row) { StuckKept(row, row'); }
  }

  /** Being stuck only depends on which steps succeeded and which are still open or skipped. */
  lemma StuckKept(row: RunRow, row': RunRow)
    requires Stuck(row) && Grows(row, row')
    requires forall j: nat :: j < |row.steps| ==> (row'.steps[j].state.StepSucceeded? ==> row.steps[j].state.StepSucceeded?)
    requires forall j: nat :: j < |row.steps| && (row'.steps[j].state.StepPending? || row'.steps[j].state.StepSkipped?) ==>
      row.steps[j].state.StepPending? || row.steps[j].state.StepSkipped?
    ensures Stuck(row')
  {
    forall i: nat | i < |row'.steps| && (row'.steps[i].state.StepPending? || row'.steps[i].state.StepSkipped?)
      ensures !UpstreamsSucceeded(row', i)
    {
      var j: nat :| j < |row.steps| && Needs(row, i, j) && !row.steps[j].state.StepSucceeded?;
      assert Needs(row', i, j);
    }
  }

  /** A run closed over its pending steps as cancelled. */
  lemma CloseCancelledKeeps(row: RunRow, row': RunRow, code: Code)
    requires RowOk(row) && row.cancelAt.Some? && row'.cancelAt == row.cancelAt
    requires row'.deps == row.deps && row'.steps == SkipRows(row.steps, code)
    requires row'.state.RunCancelled? && NoneIs(row, StepRunning)
    ensures RowOk(row')
  {
    assert Grows(row, row');
    forall i: nat | i < |row'.steps| ensures StepOk(row', i) {
      assert StepOk(row, i);
      if row.steps[i].attempt > 0 {
        UpstreamsStaySucceeded(row, row', i);
        WellFoundedFrozen(row, row', i);
      }
    }
  }

  lemma ClaimKeeps(id: string, row: RunRow, owner: string, ttl: int, now: int)
    requires RowOk(row) && ClaimTx(id, row, owner, ttl, now).Commit?
    ensures RowOk(ClaimTx(id, row, owner, ttl, now).row) && row.state.RunQueued?
  {
    var t := ClaimTx(id, row, owner, ttl, now);
    if t.out.RunRunning? {
      forall i: nat | i < |row.steps| ensures StepOk(t.row, i) { StepOkKept(row, t.row, i); }
    } else {
      CloseCancelledKeeps(row, t.row, StepCodeCancelled);
    }
  }

  lemma StartKeeps(id: string, row: RunRow, name: string, i: nat)
    requires RowOk(row) && StartTx(id, row, name).Commit?
    requires Find(row.steps, name) == Some(i) && UpstreamsSucceeded(row, i)
    ensures RowOk(StartTx(id, row, name).row)
  {
    assert StepOk(row, i);
    StepWriteKeeps(row, i, StartTx(id, row, name).row.steps[i]);
  }

  lemma RecordKeeps(id: string, row: RunRow, name: string, out: Outcome, now: int)
    requires RowOk(row) && row.state.RunRunning? && RecordTx(id, row, name, out, now).Commit?
    requires !out.event.EvStepStarted? && (out.event.EvCancelObserved? ==> row.cancelAt.Some?)
    ensures RowOk(RecordTx(id, row, name, out, now).row)
  {
    var i := Find(row.steps, name).value;
    assert StepOk(row, i);
    StepWriteKeeps(row, i, RecordTx(id, row, name, out, now).row.steps[i]);
  }

  lemma FinishKeeps(id: string, row: RunRow, owner: string, code: Code, now: int)
    requires RowOk(row) && FinishTx(id, row, owner, code, now).Commit?
    requires NoneIs(row, StepCancelled) && (!code.RunCodeTimedOut? ==> Stuck(row))
    ensures RowOk(FinishTx(id, row, owner, code, now).row)
  {
    var row' := FinishTx(id, row, owner, code, now).row;
    forall i: nat | i < |row.steps| ensures StepOk(row', i) { StepOkKept(row, row', i); }
    if Stuck(row) { StuckKept(row, row'); }
    assert AnyFailedOrCancelled(row.steps) <==> SomeFailed(row);
  }

  lemma ObserveKeeps(id: string, row: RunRow, owner: string, actor: string, code: Code, now: int)
    requires RowOk(row) && ObserveTx(id, row, owner, actor, code, now).Commit?
    requires NoneIs(row, StepRunning)
    ensures RowOk(ObserveTx(id, row, owner, actor, code, now).row)
  {
    CloseCancelledKeeps(row, ObserveTx(id, row, owner, actor, code, now).row, StepCodeCancelled);
  }

  // ----- the first row of a run -----

  lemma FreshRunOk(steps: seq<NewStep>, availableAt: int)
    requires Insertable(steps)
    ensures RowOk(FreshRun(steps, availableAt))
  {
  }
}
