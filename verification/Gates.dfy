/** When exactly each transaction is let through, what it answers otherwise, and what a lapsed lease costs. */
module Gates {
  import opened Wrappers
  import opened Machine
  import opened Tables
  import opened Invariant
  import opened Protocol
  import opened Safety
  import opened Futures

  /** A queued run is claimed from its time on; one with a request on it is cancelled at once instead. */
  lemma ClaimExactly(id: string, row: RunRow, owner: string, ttl: int, now: int)
    ensures var t := ClaimTx(id, row, owner, ttl, now);
      && (t.Commit? <==> row.state.RunQueued? && (row.cancelAt.Some? || row.availableAt <= now))
      && (match t
          case Abort(err) => err == NotClaimable(if row.state.RunQueued? then NotAvailable else IllegalTransition)
          case Commit(row', log, out) =>
            if row.cancelAt.Some? then out == RunCancelled && row'.leaseEpoch == row.leaseEpoch && NoneIs(row', StepPending)
            else out == RunRunning && row'.steps == row.steps && row'.leaseEpoch == row.leaseEpoch + 1 && row'.leaseOwner == owner)
  {
  }

  /** A fresh lease lasts as long as was asked, or five minutes; it is its owner's and no one else's. */
  lemma LeaseOfClaim(id: string, row: RunRow, owner: string, ttl: int, now: int, other: string, later: int)
    requires var t := ClaimTx(id, row, owner, ttl, now); t.Commit? && t.out.RunRunning?
    ensures LeaseValid(ClaimTx(id, row, owner, ttl, now).row, other, later) <==>
      other == owner && later < now + if ttl <= 0 then 300_000 else ttl
  {
  }

  /** A step starts exactly when its run is running and it is pending; the first obstacle is the one reported. */
  lemma StartExactly(id: string, row: RunRow, name: string)
    requires UniqueNames(row.steps)
    ensures match StartTx(id, row, name)
      case Commit(row', _, _) =>
        && row.state.RunRunning?
        && exists i: nat :: i < |row.steps| && row.steps[i].name == name && row.steps[i].state.StepPending?
             && row' == row.(steps := row.steps[i := row.steps[i].(state := StepRunning, attempt := row.steps[i].attempt + 1)])
      case Abort(RunNotRunning) => !row.state.RunRunning?
      case Abort(StepNotFound) => row.state.RunRunning? && forall i: nat :: i < |row.steps| ==> row.steps[i].name != name
      case Abort(StepNotPending) =>
        row.state.RunRunning? && exists i: nat :: i < |row.steps| && row.steps[i].name == name && !row.steps[i].state.StepPending?
      case Abort(_) => false
  {
    match Find(row.steps, name)
    case Some(i) => assert row.steps[i].name == name;
    case None =>
  }

  /** Where a step may be, for an outcome to be recorded on it. */
  predicate Expects(s: StepState, ev: Event) {
    if s.StepPending? then ev.EvUpstreamFailed? || ev.EvStepStarted?
    else s.StepRunning? && (ev.EvStepSucceeded? || ev.EvStepFailed? || ev.EvCancelObserved?)
  }

  /**
   * An outcome is recorded exactly on a step that expects it, with a reason. A failure parks the step when
   * it has attempts left, at the time the plan names, or at its end, or now; nothing else parks a step.
   */
  lemma RecordExactly(id: string, row: RunRow, name: string, out: Outcome, now: int)
    requires UniqueNames(row.steps) && !out.event.EvStepStarted?
    ensures var t := RecordTx(id, row, name, out, now);
      match Find(row.steps, name)
      case None => t == Abort(StepNotFound)
      case Some(i) =>
        var s := row.steps[i];
        && (t.Commit? <==> Expects(s.state, out.event) && !out.reason.NoCode?)
        && (t.Abort? ==> t.err == Denied(if Expects(s.state, out.event) then MissingReasonCode else IllegalTransition))
        && (t.Commit? ==>
              var s' := t.row.steps[i];
              && (Parked(s') <==> out.event.EvStepFailed? && s.attempt < s.maxAttempts)
              && (Parked(s') ==> s'.nextAttemptAt == Some(
                   match out.retry
                   case Some(plan) => (match plan.nextAttemptAt case Some(due) => due case None => Ended(out, now))
                   case None => Ended(out, now)))
              && (out.event.EvStepFailed? ==> (s'.state.StepFailed? <==> s.attempt >= s.maxAttempts))
              && s'.attempt == s.attempt && t.row == row.(steps := row.steps[i := s']))
  {
  }

  function Ended(out: Outcome, now: int): int { match out.finishedAt case Some(at) => at case None => now }

  /**
   * A run is finished exactly when it is running, its caller holds the lease, every step has ended and a
   * reason is given; obstacles are reported in that order, so a caller that lost the lease learns no more.
   */
  lemma FinishExactly(id: string, row: RunRow, owner: string, code: Code, now: int)
    ensures var t := FinishTx(id, row, owner, code, now);
      && (t.Commit? <==> row.state.RunRunning? && LeaseValid(row, owner, now) && AllTerminal(row.steps) && !code.NoCode?)
      && (match t
          case Commit(row', _, out) =>
            && out == (if AnyFailedOrCancelled(row.steps) then RunFailed else RunSucceeded)
            && row' == row.(state := out, reason := code, leaseOwner := "", leaseExpiresAt := None)
          case Abort(err) => err == Denied(
              if !row.state.RunRunning? then IllegalTransition
              else if !LeaseValid(row, owner, now) then StaleLease
              else if !AllTerminal(row.steps) then StepsNotTerminal
              else MissingReasonCode))
  {
  }

  /** A cancellation is observed exactly when there is a request, the run is running and the lease is held. */
  lemma ObserveExactly(id: string, row: RunRow, owner: string, actor: string, code: Code, now: int)
    ensures var t := ObserveTx(id, row, owner, actor, code, now);
      && (t.Commit? <==> row.cancelAt.Some? && row.state.RunRunning? && LeaseValid(row, owner, now) && !code.NoCode?)
      && (match t
          case Commit(row', _, _) => row'.state.RunCancelled? && NoneIs(row', StepPending) && |row'.steps| == |row.steps|
          case Abort(err) =>
            err == if row.cancelAt.None? then NobodyRequested
                   else Denied(if !row.state.RunRunning? then IllegalTransition
                               else if !LeaseValid(row, owner, now) then StaleLease else MissingReasonCode))
  {
  }

  /** What the executor's read sees after a request: that there is one, and the first name ever given. */
  lemma RequestIsSeen(row: RunRow, asker: string, why: string, now: int)
    requires row.cancelBy != Some("")
    ensures var (_, named) := Asked(row);
      Asked(CancelTx(row, asker, why, now)) == (true, if named != "" then named else asker)
  {
  }

  /** What a first request leaves in its three columns; all others stay as they were. */
  lemma FirstRequest(row: RunRow, asker: string, why: string, now: int)
    requires row.cancelAt.None? && row.cancelBy.None? && row.cancelWhy.None?
    ensures var after := CancelTx(row, asker, why, now);
      && after.cancelAt == Some(now) && after.cancelBy == (if asker == "" then None else Some(asker)) && after.cancelWhy == Some(why)
      && after.(cancelAt := None, cancelBy := None, cancelWhy := None) == row
  {
  }

  // ----- the lease nobody renews -----

  ghost predicate SameLease(a: RunRow, b: RunRow) {
    a.state.RunRunning? && b.state.RunRunning? ==>
      b.leaseOwner == a.leaseOwner && b.leaseExpiresAt == a.leaseExpiresAt && b.leaseEpoch == a.leaseEpoch
  }

  lemma AccessKeepsLease(x: Exec, row: RunRow, now: int, rep: Report)
    requires row.state.RunRunning?
    ensures SameLease(row, Advance(x, row, now, rep).row)
    ensures !row.state.RunQueued? ==> !Advance(x, row, now, rep).row.state.RunQueued?
  {
  }

  lemma StepKeepsLease(w: World, a: Action, id: string)
    requires Enabled(w, a) && id in w.runs && w.runs[id].state.RunRunning?
    ensures id in Step(w, a).runs && SameLease(w.runs[id], Step(w, a).runs[id]) && !Step(w, a).runs[id].state.RunQueued?
  {
    match a
    case Go(e, rep) =>
      if w.execs[e].run == id { AccessKeepsLease(w.execs[e], w.runs[id], w.now, rep); }
    case _ =>
  }

  lemma StepKeepsEnd(w: World, a: Action, id: string)
    requires Enabled(w, a) && id in w.runs && w.runs[id].state.IsTerminal()
    ensures id in Step(w, a).runs && Step(w, a).runs[id].state.IsTerminal()
  {
  }

  /** For as long as a run is running its lease is the one its claim took: no action moves the expiry. */
  lemma {:induction false} LeaseIsNeverRenewed(w: World, acts: seq<Action>, id: string)
    requires Feasible(w, acts) && id in w.runs && (w.runs[id].state.RunRunning? || w.runs[id].state.IsTerminal())
    ensures id in Run(w, acts).runs
    ensures w.runs[id].state.IsTerminal() ==> Run(w, acts).runs[id].state.IsTerminal()
    ensures w.runs[id].state.RunRunning? ==> SameLease(w.runs[id], Run(w, acts).runs[id])
    decreases |acts|
  {
    if |acts| > 0 {
      var w1 := Step(w, acts[0]);
      if w.runs[id].state.RunRunning? { StepKeepsLease(w, acts[0], id); } else { StepKeepsEnd(w, acts[0], id); }
      LeaseIsNeverRenewed(w1, acts[1..], id);
    }
  }

  /**
   * An execution that outlives its lease is refused at the end, however its steps went, and its run is
   * left for ever.
   */
  lemma LateFinishOrphans(w: World, e: nat, rep: Report, acts: seq<Action>)
    requires WorldOk(w) && e in w.execs && w.execs[e].pc.Finishing? && Enabled(w, Go(e, rep))
    requires var row := w.runs[w.execs[e].run]; row.leaseExpiresAt.Some? && row.leaseExpiresAt.value <= w.now
    requires Feasible(Step(w, Go(e, rep)), acts)
    ensures Orphaned(Step(w, Go(e, rep)), w.execs[e].run)
    ensures var id := w.execs[e].run; var end := Run(Step(w, Go(e, rep)), acts);
      id in end.runs && end.runs[id].state.RunRunning? && AllTerminal(end.runs[id].steps)
  {
    LateStep(w, e, rep);
    hide Step, WorldOk, Enabled, Feasible, Protocol.Run;
    OrphanForever(Step(w, Go(e, rep)), acts, w.execs[e].run);
  }

  lemma LateStep(w: World, e: nat, rep: Report)
    requires WorldOk(w) && e in w.execs && w.execs[e].pc.Finishing? && Enabled(w, Go(e, rep))
    requires var row := w.runs[w.execs[e].run]; row.leaseExpiresAt.Some? && row.leaseExpiresAt.value <= w.now
    ensures var w1 := Step(w, Go(e, rep)); Orphaned(w1, w.execs[e].run) && w1.runs == w.runs
    ensures AllTerminal(w.runs[w.execs[e].run].steps)
  {
    hide Advance, PcOk, FinishTx, CanAdvance, RunsOk;
    var x := w.execs[e];
    var row := w.runs[x.run];
    assert PcOk(row, x.pc);
    FinishingFacts(row, x.pc);
    LoneExecutor(w, e);
    hide WorldOk, ExecsOk;
    LateFinish(x, row, w.now, rep);
    var w1 := Step(w, Go(e, rep));
    assert w1.runs == w.runs && w1.execs == w.execs[e := x.(pc := Gone)];
  }

  lemma FinishingFacts(row: RunRow, pc: Pc)
    requires PcOk(row, pc) && pc.Finishing?
    ensures row.state.RunRunning? && AllTerminal(row.steps)
  {
  }

  lemma LateFinish(x: Exec, row: RunRow, now: int, rep: Report)
    requires x.pc.Finishing? && row.state.RunRunning?
    requires row.leaseExpiresAt.Some? && row.leaseExpiresAt.value <= now
    ensures Advance(x, row, now, rep) == StepTo(row, [], Gone)
  {
    FinishExactly(x.run, row, x.owner, x.pc.code, now);
  }

  lemma LoneExecutor(w: World, e: nat)
    requires WorldOk(w) && e in w.execs && Active(w.execs[e].pc)
    ensures forall f :: f in w.execs && f != e && w.execs[f].run == w.execs[e].run ==> !Active(w.execs[f].pc)
  {
    forall f | f in w.execs && f != e && w.execs[f].run == w.execs[e].run ensures !Active(w.execs[f].pc) {
      assert Rivals(w.execs[e], w.execs[f]) ==> e == f;
    }
  }

  // ----- who holds the lease, and what that decides -----

  /** An executor past its claim stands in its run's lease, and one about to finish has a reason to give. */
  ghost predicate HolderOk(row: RunRow, x: Exec) {
    && row.leaseOwner == x.owner && row.leaseExpiresAt.Some?
    && (x.pc.Finishing? ==> !x.pc.code.NoCode?)
  }

  ghost predicate Held(w: World) {
    forall e :: e in w.execs && Active(w.execs[e].pc) ==> w.execs[e].run in w.runs && HolderOk(w.runs[w.execs[e].run], w.execs[e])
  }

  lemma AccessHolds(x: Exec, row: RunRow, now: int, rep: Report)
    requires Active(x.pc) ==> row.state.RunRunning? && HolderOk(row, x)
    ensures var s := Advance(x, row, now, rep);
      Active(s.pc) && s.row.state.RunRunning? ==> HolderOk(s.row, x.(pc := s.pc))
  {
    if Active(x.pc) {
      AccessKeepsLease(x, row, now, rep);
      match x.pc
      case Judging(timedOut) => FirstBadExact(row.steps);
      case _ =>
    }
  }

  lemma GoHolds(w: World, e: nat, rep: Report)
    requires WorldOk(w) && Held(w) && Enabled(w, Go(e, rep)) && WorldOk(Step(w, Go(e, rep)))
    ensures Held(Step(w, Go(e, rep)))
  {
    hide Advance, HolderOk, CanAdvance, WorldOk, Active;
    var x := w.execs[e];
    var s := Advance(x, w.runs[x.run], w.now, rep);
    var w1 := Step(w, Go(e, rep));
    assert w1.runs == w.runs[x.run := s.row] && w1.execs == w.execs[e := x.(pc := s.pc)];
    hide Step, Enabled;
    if Active(x.pc) { RunningOf(w, e); }
    AccessHolds(x, w.runs[x.run], w.now, rep);
    forall f | f in w1.execs && Active(w1.execs[f].pc)
      ensures w1.execs[f].run in w1.runs && HolderOk(w1.runs[w1.execs[f].run], w1.execs[f])
    {
      RunningOf(w1, f);
      if f != e && w.execs[f].run == x.run {
        NoRival(w, e, f);
        NoRival(w1, e, f);
        ClaimOnly(x, w.runs[x.run], w.now, rep);
        Keeps(w.runs[x.run], s.row, w.execs[f]);
      }
    }
  }

  lemma Keeps(row: RunRow, after: RunRow, x: Exec)
    requires HolderOk(row, x) && after.leaseOwner == row.leaseOwner && after.leaseExpiresAt == row.leaseExpiresAt
    ensures HolderOk(after, x)
  {
  }

  lemma NoRival(w: World, e: nat, f: nat)
    requires WorldOk(w) && e in w.execs && f in w.execs && e != f && w.execs[e].run == w.execs[f].run && Active(w.execs[f].pc)
    ensures !Active(w.execs[e].pc)
  {
    assert !Rivals(w.execs[e], w.execs[f]);
  }

  lemma RunningOf(w: World, e: nat)
    requires WorldOk(w) && e in w.execs && Active(w.execs[e].pc)
    ensures w.execs[e].run in w.runs && w.runs[w.execs[e].run].state.RunRunning?
  {
    assert PcOk(w.runs[w.execs[e].run], w.execs[e].pc);
  }

  /** An executor that is in its run neither before nor after an access left the rows of the lease alone, or ended it. */
  lemma ClaimOnly(x: Exec, row: RunRow, now: int, rep: Report)
    requires !Active(x.pc) && !Active(Advance(x, row, now, rep).pc)
    ensures var after := Advance(x, row, now, rep).row;
      after.state.RunRunning? ==> after.leaseOwner == row.leaseOwner && after.leaseExpiresAt == row.leaseExpiresAt
  {
  }

  lemma StepHolds(w: World, a: Action)
    requires WorldOk(w) && Held(w) && Enabled(w, a)
    ensures Held(Step(w, a))
  {
    StepKeeps(w, a);
    NotYet(w);
    hide *;
    match a
    case Go(e, rep) => GoHolds(w, e, rep);
    case AskCancel(run, asker, why) => AskHolds(w, a);
    case Create(_, _, _, _) => CreateHolds(w, a);
    case _ => OthersHold(w, a);
  }

  lemma CreateHolds(w: World, a: Action)
    requires Held(w) && a.Create? && Enabled(w, a) && forall e :: e in w.execs ==> w.execs[e].run in w.runs
    ensures Held(Step(w, a))
  {
    hide Active, HolderOk;
  }

  lemma OthersHold(w: World, a: Action)
    requires Held(w) && (a.Tick? || a.Call? || a.Crash?) && Enabled(w, a)
    ensures Held(Step(w, a))
  {
    hide HolderOk;
  }

  lemma AskHolds(w: World, a: Action)
    requires Held(w) && a.AskCancel? && Enabled(w, a)
    ensures Held(Step(w, a))
  {
    hide Active;
  }

  /** The executors of a run stand in one that exists. */
  lemma NotYet(w: World)
    requires WorldOk(w)
    ensures forall e :: e in w.execs ==> w.execs[e].run in w.runs
  {
  }

  lemma {:induction false} RunHolds(w: World, acts: seq<Action>)
    requires WorldOk(w) && Held(w) && Feasible(w, acts)
    ensures Held(Run(w, acts))
    decreases |acts|
  {
    if |acts| > 0 {
      StepKeeps(w, acts[0]);
      StepHolds(w, acts[0]);
      hide WorldOk, Held, Step, Enabled;
      RunHolds(Step(w, acts[0]), acts[1..]);
    }
  }

  lemma ReachableHeld(w: World)
    requires Reachable(w)
    ensures Held(w)
  {
    var now, acts :| Feasible(Initial(now), acts) && Run(Initial(now), acts) == w;
    assert WorldOk(Initial(now)) && Held(Initial(now));
    hide *;
    RunHolds(Initial(now), acts);
  }

  /**
   * In every reachable state an executor that stands before FinishRun ends its run exactly when the lease it
   * claimed has not run out; its owner, its reason and the state of its steps never stand in the way.
   */
  lemma FinishEndsExactly(w: World, e: nat, rep: Report)
    requires Reachable(w) && e in w.execs && w.execs[e].pc.Finishing?
    ensures Enabled(w, Go(e, rep)) && w.runs[w.execs[e].run].leaseExpiresAt.Some?
    ensures Step(w, Go(e, rep)).runs[w.execs[e].run].state.IsTerminal() <==> w.now < w.runs[w.execs[e].run].leaseExpiresAt.value
  {
    hide WorldOk, Held, Reachable, Advance, HolderOk, Step, Enabled;
    ReachableOk(w);
    ReachableHeld(w);
    HeldAt(w, e);
    GoAtFinish(w, e, rep);
    FinishAccess(w.execs[e], w.runs[w.execs[e].run], w.now, rep);
  }

  lemma HeldAt(w: World, e: nat)
    requires WorldOk(w) && Held(w) && e in w.execs && w.execs[e].pc.Finishing?
    ensures w.execs[e].run in w.runs && HolderOk(w.runs[w.execs[e].run], w.execs[e])
    ensures w.runs[w.execs[e].run].state.RunRunning? && AllTerminal(w.runs[w.execs[e].run].steps)
  {
    hide RunsOk, HolderOk;
    assert PcOk(w.runs[w.execs[e].run], w.execs[e].pc);
  }

  lemma GoAtFinish(w: World, e: nat, rep: Report)
    requires e in w.execs && w.execs[e].pc.Finishing? && w.execs[e].run in w.runs
    ensures Enabled(w, Go(e, rep))
    ensures var run := w.execs[e].run; Step(w, Go(e, rep)).runs == w.runs[run := Advance(w.execs[e], w.runs[run], w.now, rep).row]
  {
    hide Advance;
  }

  lemma FinishAccess(x: Exec, row: RunRow, now: int, rep: Report)
    requires x.pc.Finishing? && row.state.RunRunning? && AllTerminal(row.steps) && HolderOk(row, x)
    ensures row.leaseExpiresAt.Some?
    ensures Advance(x, row, now, rep).row.state.IsTerminal() <==> now < row.leaseExpiresAt.value
  {
    FinishExactly(x.run, row, x.owner, x.pc.code, now);
    hide FinishTx;
  }
}
