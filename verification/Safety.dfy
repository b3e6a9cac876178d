/** The invariant holds in every reachable state, and what it says about runs, steps and their history. */
module Safety {
  import opened Wrappers
  import opened Machine
  import opened Tables
  import opened Graph
  import opened History
  import opened Invariant
  import opened Protocol

  // ----- one access of one executor -----

  /** What one access must establish about the rows, the events it wrote and the next program point. */
  ghost predicate AccessOk(x: Exec, row: RunRow, s: StepTo) {
    && RowOk(s.row)
    && Follows(x.run, row, s.log, s.row)
    && (Active(s.pc) ==> PcOk(s.row, s.pc))
  }

  lemma FollowsNothing(id: string, row: RunRow)
    ensures Follows(id, row, [], row)
  {
  }

  lemma {:induction false} FirstBadExact(steps: seq<StepRow>)
    ensures FirstBad(steps).None? ==> forall i :: 0 <= i < |steps| ==> !steps[i].state.StepFailed? && !steps[i].state.StepCancelled?
    ensures FirstBad(steps).Some? ==> exists i :: 0 <= i < |steps| && steps[i].state == FirstBad(steps).value
    ensures FirstBad(steps).Some? ==> FirstBad(steps).value.StepFailed? || FirstBad(steps).value.StepCancelled?
  {
    if |steps| > 0 {
      FirstBadExact(steps[1..]);
      assert forall i :: 1 <= i < |steps| ==> steps[i] == steps[1..][i - 1];
    }
  }

  lemma ClaimAccess(x: Exec, row: RunRow, now: int, rep: Report)
    requires RowOk(row) && x.pc.Fresh?
    ensures AccessOk(x, row, Advance(x, row, now, rep))
    ensures var s := Advance(x, row, now, rep);
      row.state.RunQueued? || (s.row == row && s.pc.Gone?)
  {
    FollowsNothing(x.run, row);
    var t := ClaimTx(x.run, row, x.owner, x.ttl, now);
    if t.Commit? {
      ClaimKeeps(x.run, row, x.owner, x.ttl, now);
      ClaimFollows(x.run, row, x.owner, x.ttl, now);
    }
  }

  lemma ReadAccess(x: Exec, row: RunRow, now: int, rep: Report)
    requires RowOk(row) && PcOk(row, x.pc) && CanAdvance(x, row, now, rep)
    requires x.pc.Head? || x.pc.Seek? || x.pc.NoneRunnable? || x.pc.Sleeping? || x.pc.Chosen?
    ensures AccessOk(x, row, Advance(x, row, now, rep))
  {
    FollowsNothing(x.run, row);
    hide Follows;
    if x.pc.Head? {
      forall i: nat | i < |row.steps| ensures row.cancelAt.None? ==> !row.steps[i].state.StepCancelled? {
        assert StepOk(row, i);
      }
    } else if x.pc.Seek? {
      if NextRunnable(row, now).Some? { FindByIndex(row.steps, NextRunnable(row, now).value); }
      else {
        forall i: nat | i < |row.steps| && row.steps[i].state.StepPending? && row.steps[i].nextAttemptAt.None?
          ensures !UpstreamsSucceeded(row, i)
        {
          assert !Runnable(row, now, i);
        }
      }
    }
  }

  lemma {:induction false} FindByIndex(steps: seq<StepRow>, i: nat)
    requires i < |steps| && UniqueNames(steps)
    ensures Find(steps, steps[i].name) == Some(i)
  {
    var k := Find(steps, steps[i].name);
    assert k.Some?;
  }

  lemma StartAccess(x: Exec, row: RunRow, now: int, rep: Report)
    requires RowOk(row) && PcOk(row, x.pc) && x.pc.Starting?
    ensures AccessOk(x, row, Advance(x, row, now, rep))
  {
    FollowsNothing(x.run, row);
    var name := x.pc.name;
    var i := Find(row.steps, name).value;
    var t := StartTx(x.run, row, name);
    hide Follows, StepOk, EndOk, UpstreamsSucceeded;
    if t.Commit? {
      StartKeeps(x.run, row, name, i);
      StartFollows(x.run, row, name);
      StartLaunches(x, row);
      hide PcOk, RowOk, StartTx;
    } else {
      hide PcOk, RowOk, StartTx;
    }
  }

  /** The step just started is the only one that runs. */
  lemma StartLaunches(x: Exec, row: RunRow)
    requires RowOk(row) && PcOk(row, x.pc) && x.pc.Starting? && StartTx(x.run, row, x.pc.name).Commit?
    ensures PcOk(StartTx(x.run, row, x.pc.name).row, Launched(x.pc.name, x.pc.attempt + 1, x.pc.maxAttempts))
  {
    hide StepOk, EndOk;
    var i := Find(row.steps, x.pc.name).value;
    forall j: nat | j < |row.steps| && row.steps[j].name == x.pc.name ensures j == i {
      FindByIndex(row.steps, j);
    }
  }

  lemma RunnerAccess(x: Exec, row: RunRow, now: int, rep: Report)
    requires RowOk(row) && PcOk(row, x.pc) && CanAdvance(x, row, now, rep) && x.pc.Launched?
    ensures AccessOk(x, row, Advance(x, row, now, rep))
  {
    FollowsNothing(x.run, row);
  }

  lemma RecordAccess(x: Exec, row: RunRow, now: int, rep: Report)
    requires RowOk(row) && PcOk(row, x.pc) && x.pc.Recording?
    ensures AccessOk(x, row, Advance(x, row, now, rep))
  {
    FollowsNothing(x.run, row);
    var name, out := x.pc.name, x.pc.out;
    var t := RecordTx(x.run, row, name, out, now);
    if t.Commit? {
      RecordKeeps(x.run, row, name, out, now);
      RecordFollows(x.run, row, name, out, now);
      hide RowOk, Follows, UpstreamsSucceeded;
      RecordedBetween(x.run, row, name, out, now);
    }
  }

  /** Recording the verdict of the one running step leaves none running and none skipped. */
  lemma RecordedBetween(id: string, row: RunRow, name: string, out: Outcome, now: int)
    requires UniqueNames(row.steps) && exists attempt, maxAttempts :: OnlyRunning(row, name, attempt, maxAttempts)
    requires RecordTx(id, row, name, out, now).Commit? && !out.event.EvStepStarted?
    ensures var row' := RecordTx(id, row, name, out, now).row;
      && Between(row') && row'.state == row.state
      && (out.event.EvStepFailed? ==> NoneIs(row', StepCancelled))
  {
    var i := Find(row.steps, name).value;
    assert row.steps[i].state.StepRunning?;
    var attempt, maxAttempts :| OnlyRunning(row, name, attempt, maxAttempts);
  }

  lemma PendingNamesEmpty(row: RunRow)
    requires UniqueNames(row.steps) && PendingNames(row.steps) == [] && NoneIs(row, StepRunning)
    ensures AllTerminal(row.steps)
  {
    forall i: nat | i < |row.steps| ensures row.steps[i].state.IsTerminal() {
      PendingNamesHas(row.steps, i);
      assert row.steps[i].state != StepRunning;
    }
  }

  /** Taking the first pending step out leaves the rest of the list. */
  lemma {:induction false} PendingNamesTail(steps: seq<StepRow>, i: nat, s': StepRow)
    requires UniqueNames(steps) && i < |steps| && PendingNames(steps) != [] && steps[i].name == PendingNames(steps)[0]
    requires !s'.state.StepPending?
    ensures steps[i].state.StepPending? && PendingNames(steps[i := s']) == PendingNames(steps)[1..]
  {
    var k := PendingNamesKnown(steps, steps[i].name);
    if i > 0 {
      assert steps[0].name != steps[i].name;
      assert UniqueNames(steps[1..]) && steps[1..][i - 1] == steps[i];
      PendingNamesTail(steps[1..], i - 1, s');
      assert steps[i := s'][1..] == steps[1..][i - 1 := s'];
    } else {
      assert steps[0 := s'][1..] == steps[1..];
    }
  }

  /** Skipping the first pending step leaves the other pending steps, runs nothing and unsticks nothing. */
  lemma SkipOne(id: string, row: RunRow, name: string, now: int)
    requires RowOk(row) && RecordTx(id, row, name, SKIP_OUTCOME, now).Commit?
    requires PendingNames(row.steps) != [] && PendingNames(row.steps)[0] == name
    ensures var row' := RecordTx(id, row, name, SKIP_OUTCOME, now).row;
      && PendingNames(row'.steps) == PendingNames(row.steps)[1..]
      && row'.state == row.state
      && (NoneIs(row, StepRunning) ==> NoneIs(row', StepRunning))
      && (NoneIs(row, StepCancelled) ==> NoneIs(row', StepCancelled))
      && (Stuck(row) ==> Stuck(row'))
  {
    var row' := RecordTx(id, row, name, SKIP_OUTCOME, now).row;
    var i := Find(row.steps, name).value;
    assert row.steps[i].state.StepPending? && row'.steps[i].state.StepSkipped?;
    PendingNamesTail(row.steps, i, row'.steps[i]);
    if Stuck(row) {
      assert Grows(row, row');
      StuckKept(row, row');
    }
  }

  lemma SkipAccess(x: Exec, row: RunRow, now: int, rep: Report)
    requires RowOk(row) && PcOk(row, x.pc) && x.pc.Skipping?
    ensures AccessOk(x, row, Advance(x, row, now, rep))
  {
    FollowsNothing(x.run, row);
    var names := x.pc.names;
    if |names| == 0 {
      PendingNamesEmpty(row);
    } else {
      var t := RecordTx(x.run, row, names[0], SKIP_OUTCOME, now);
      if t.Commit? {
        RecordKeeps(x.run, row, names[0], SKIP_OUTCOME, now);
        RecordFollows(x.run, row, names[0], SKIP_OUTCOME, now);
        SkipOne(x.run, row, names[0], now);
        hide RowOk, Follows, Stuck, PendingNames;
      }
    }
  }

  lemma EndAccess(x: Exec, row: RunRow, now: int, rep: Report)
    requires RowOk(row) && PcOk(row, x.pc)
    requires x.pc.Closing? || x.pc.Judging? || x.pc.Finishing? || x.pc.Observing?
    ensures AccessOk(x, row, Advance(x, row, now, rep))
  {
    FollowsNothing(x.run, row);
    match x.pc
    case Closing(_) =>
    case Judging(_) => FirstBadExact(row.steps);
    case Finishing(code) =>
      if FinishTx(x.run, row, x.owner, code, now).Commit? {
        FinishKeeps(x.run, row, x.owner, code, now);
        FinishFollows(x.run, row, x.owner, code, now);
      }
    case Observing(asker) =>
      if ObserveTx(x.run, row, x.owner, asker, RunCodeCancelledManual, now).Commit? {
        ObserveKeeps(x.run, row, x.owner, asker, RunCodeCancelledManual, now);
        ObserveFollows(x.run, row, x.owner, asker, RunCodeCancelledManual, now);
      }
  }

  lemma Access(x: Exec, row: RunRow, now: int, rep: Report)
    requires RowOk(row) && CanAdvance(x, row, now, rep)
    requires Active(x.pc) ==> PcOk(row, x.pc)
    ensures AccessOk(x, row, Advance(x, row, now, rep))
    ensures var s := Advance(x, row, now, rep);
      x.pc.Fresh? ==> row.state.RunQueued? || (s.row == row && s.pc.Gone?)
  {
    match x.pc
    case Fresh => ClaimAccess(x, row, now, rep);
    case Starting(_, _, _) => StartAccess(x, row, now, rep);
    case Launched(_, _, _) => RunnerAccess(x, row, now, rep);
    case Recording(_, _, _) => RecordAccess(x, row, now, rep);
    case Skipping(_, _) => SkipAccess(x, row, now, rep);
    case Closing(_) => EndAccess(x, row, now, rep);
    case Judging(_) => EndAccess(x, row, now, rep);
    case Finishing(_) => EndAccess(x, row, now, rep);
    case Observing(_) => EndAccess(x, row, now, rep);
    case _ => ReadAccess(x, row, now, rep);
  }

  // ----- one action of the system -----

  lemma FreshLogOk(id: string, row: RunRow, log: seq<Entry>, q: Entry)
    requires forall e :: e in log ==> e.run != id
    requires row.state.RunQueued? && (forall i :: 0 <= i < |row.steps| ==> row.steps[i].state.StepPending? && row.steps[i].attempt == 0)
    requires q.run == id && q.step.None? && q.kind.KRunQueued? && q.from.None? && q.to == OfRun(RunQueued)
    ensures LogOk(id, row, log + [q])
  {
    hide Part, Legal;
    FreshPart(log, q, id, None);
    forall i | 0 <= i < |row.steps| ensures StepPartOk(Part(log + [q], id, Some(row.steps[i].name)), row.steps[i]) {
      FreshPart(log, q, id, Some(row.steps[i].name));
    }
  }

  lemma FreshPart(log: seq<Entry>, q: Entry, id: string, step: Option<string>)
    requires forall e :: e in log ==> e.run != id
    ensures Part(log + [q], id, step) == if q.run == id && q.step == step then [q] else []
  {
    PartAppend(log, [q], id, step);
    PartOne(q, id, step);
    PartOfStranger(log, id, step);
  }

  lemma CreateKeeps(w: World, id: string, row: RunRow, q: Entry)
    requires WorldOk(w) && id !in w.runs && RowOk(row) && LogOk(id, row, w.log + [q]) && q.run == id
    ensures WorldOk(w.(runs := w.runs[id := row], log := w.log + [q]))
  {
    hide LogOk, RowOk, PcOk;
    forall k | k in w.runs ensures LogOk(k, w.runs[k], w.log + [q]) {
      LogIgnores(k, w.runs[k], w.log, [q]);
    }
  }

  /** Only the request columns differ. */
  ghost predicate OnlyAsked(row: RunRow, row': RunRow) {
    && row' == row.(cancelAt := row'.cancelAt, cancelBy := row'.cancelBy, cancelWhy := row'.cancelWhy)
    && (row.cancelAt.Some? ==> row'.cancelAt == row.cancelAt)
  }

  lemma FollowsAsked(id: string, row: RunRow, row': RunRow)
    requires OnlyAsked(row, row')
    ensures Follows(id, row, [], row')
  {
  }

  /** What an executor relies on survives somebody asking for a cancellation. */
  lemma AskStable(row: RunRow, row': RunRow, pc: Pc)
    requires PcOk(row, pc) && OnlyAsked(row, row')
    ensures PcOk(row', pc)
  {
    forall i: nat | i < |row.steps| ensures UpstreamsSucceeded(row', i) == UpstreamsSucceeded(row, i) {
      forall j: nat | j < |row.steps| ensures Needs(row', i, j) == Needs(row, i, j) {}
    }
    if pc.Recording? {
      var attempt, maxAttempts :| OnlyRunning(row, pc.name, attempt, maxAttempts);
      assert OnlyRunning(row', pc.name, attempt, maxAttempts);
    }
  }

  lemma FollowsTouchesOne(id: string, row: RunRow, evs: seq<Entry>, row': RunRow)
    requires Follows(id, row, evs, row')
    ensures forall e :: e in evs ==> e.run == id
  {
  }

  /** An access that keeps its own run in order keeps the system in order. */
  lemma MoveKeepsRuns(w: World, id: string, row': RunRow, evs: seq<Entry>)
    requires RunsOk(w) && id in w.runs
    requires RowOk(row') && Follows(id, w.runs[id], evs, row')
    ensures RunsOk(w.(runs := w.runs[id := row'], log := w.log + evs))
  {
    hide LogOk, RowOk, Follows;
    FollowsTouchesOne(id, w.runs[id], evs, row');
    LogExtends(id, w.runs[id], w.log, evs, row');
    forall k | k in w.runs && k != id ensures LogOk(k, w.runs[k], w.log + evs) {
      LogIgnores(k, w.runs[k], w.log, evs);
    }
  }

  lemma AskKeeps(w: World, run: string, asker: string, why: string)
    requires WorldOk(w) && Enabled(w, AskCancel(run, asker, why))
    ensures WorldOk(Step(w, AskCancel(run, asker, why)))
  {
    hide RowOk, PcOk, Follows, LogOk;
    var row := w.runs[run];
    var row' := CancelTx(row, asker, why, w.now);
    CancelKeeps(row, asker, why, w.now);
    FollowsAsked(run, row, row');
    MoveKeepsRuns(w, run, row', []);
    assert w.log + [] == w.log;
    forall e | e in w.execs && w.execs[e].run == run && Active(w.execs[e].pc) ensures PcOk(row', w.execs[e].pc) {
      AskStable(row, row', w.execs[e].pc);
    }
  }

  lemma MoveKeepsExecs(w: World, e: nat, s: StepTo)
    requires ExecsOk(w) && e in w.execs
    requires Active(s.pc) ==> PcOk(s.row, s.pc)
    requires var x := w.execs[e];
      Active(x.pc) || w.runs[x.run].state.RunQueued? || (s.row == w.runs[x.run] && !Active(s.pc))
    ensures ExecsOk(w.(runs := w.runs[w.execs[e].run := s.row], log := w.log + s.log,
                       execs := w.execs[e := w.execs[e].(pc := s.pc)]))
  {
    var x := w.execs[e];
    var w' := w.(runs := w.runs[x.run := s.row], log := w.log + s.log, execs := w.execs[e := x.(pc := s.pc)]);
    forall f | f in w.execs && f != e && w.execs[f].run == x.run && Active(w.execs[f].pc)
      ensures s.row == w.runs[x.run] && !Active(s.pc)
    {
      assert PcOk(w.runs[x.run], w.execs[f].pc);
      if Active(x.pc) { assert Rivals(x, w.execs[f]); }
    }
    forall f | f in w'.execs && Active(w'.execs[f].pc) ensures PcOk(w'.runs[w'.execs[f].run], w'.execs[f].pc) {
      if f != e { assert w'.runs[w.execs[f].run] == w.runs[w.execs[f].run]; }
    }
    forall f, g | f in w'.execs && g in w'.execs && Rivals(w'.execs[f], w'.execs[g]) ensures f == g {
      if f != e && g != e { assert Rivals(w.execs[f], w.execs[g]); }
    }
  }

  lemma GoKeeps(w: World, e: nat, rep: Report)
    requires WorldOk(w) && Enabled(w, Go(e, rep))
    ensures WorldOk(Step(w, Go(e, rep)))
  {
    var x := w.execs[e];
    var s := Advance(x, w.runs[x.run], w.now, rep);
    Access(x, w.runs[x.run], w.now, rep);
    MoveKeepsRuns(w, x.run, s.row, s.log);
    MoveKeepsExecs(w, e, s);
  }

  lemma QuietKeeps(w: World, a: Action)
    requires WorldOk(w) && Enabled(w, a) && (a.Tick? || a.Call? || a.Crash?)
    ensures WorldOk(Step(w, a))
  {
    hide LogOk, RowOk, PcOk;
  }

  lemma StepKeeps(w: World, a: Action)
    requires WorldOk(w) && Enabled(w, a)
    ensures WorldOk(Step(w, a))
  {
    match a
    case Create(id, steps, availableAt, actor) =>
      var row := FreshRun(steps, availableAt);
      FreshRunOk(steps, availableAt);
      FreshLogOk(id, row, w.log, QueuedEntry(id, actor));
      CreateKeeps(w, id, row, QueuedEntry(id, actor));
    case AskCancel(run, asker, why) => AskKeeps(w, run, asker, why);
    case Go(e, rep) => GoKeeps(w, e, rep);
    case _ => QuietKeeps(w, a);
  }

  lemma {:induction false} RunKeeps(w: World, acts: seq<Action>)
    requires WorldOk(w) && Feasible(w, acts)
    ensures WorldOk(Run(w, acts))
    decreases |acts|
  {
    if |acts| > 0 {
      StepKeeps(w, acts[0]);
      RunKeeps(Step(w, acts[0]), acts[1..]);
    }
  }

  /** Under every interleaving of executors, cancellation requests, clock moves and crashes. */
  lemma ReachableOk(w: World)
    requires Reachable(w)
    ensures WorldOk(w)
  {
    var now, acts :| Feasible(Initial(now), acts) && Run(Initial(now), acts) == w;
    RunKeeps(Initial(now), acts);
  }

  /** Appending one action to a feasible run of the system. */
  lemma {:induction false} RunAppend(w: World, acts: seq<Action>, a: Action)
    requires Feasible(w, acts) && Enabled(Run(w, acts), a)
    ensures Feasible(w, acts + [a]) && Run(w, acts + [a]) == Step(Run(w, acts), a)
    decreases |acts|
  {
    if |acts| == 0 {
      assert acts + [a] == [a] && [a][1..] == [];
    } else {
      RunAppend(Step(w, acts[0]), acts[1..], a);
      assert (acts + [a])[1..] == acts[1..] + [a];
    }
  }
}
