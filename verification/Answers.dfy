/**
 * What the runner's answers make of the steps: in every history a step stands as the answer of its last
 * launch says, with the reason that answer has.
 */
module Answers {
  import opened Wrappers
  import opened Machine
  import opened Tables
  import opened History
  import opened Invariant
  import opened Protocol
  import opened Safety

  /** The run's own deadline was the shorter timeout, and it ran out. */
  ghost predicate OutOfBudget(rep: Report) { rep.res == TimedOut && rep.byRun }

  /** The reason a failure has by itself. */
  function OwnReason(res: RunnerResult): Code {
    match res
    case Failed(_) => StepCodeFailedExit
    case TimedOut => StepCodeFailedTimeout
    case SpawnFailed => StepCodeFailedSpawn
    case Signalled(_) => StepCodeFailedSignal
    case Succeeded => NoCode
  }

  /**
   * A step that does not run, as the answer of its last launch leaves it: succeeded on a success, cancelled
   * on a kill that was asked for, and on a failure parked while attempts are left, failed when none is. A
   * parked step may have been skipped since.
   */
  ghost predicate Stands(s: StepRow, rep: Report) {
    && (s.state == StepSucceeded <==> rep.res == Succeeded)
    && (s.state == StepCancelled <==> rep.res == Signalled(true))
    && (s.state == StepFailed ==> s.attempt >= s.maxAttempts)
    && (s.state == StepPending ==> s.attempt < s.maxAttempts && s.nextAttemptAt.Some?)
    && (s.state == StepSkipped ==> s.attempt < s.maxAttempts)
    && s.state != StepRunning
  }

  /** With the reason the answer gives it; a step skipped after a failed attempt has the reason of the skip. */
  ghost predicate Explained(s: StepRow, rep: Report) {
    match s.state
    case StepSucceeded => s.reason == StepCodeSucceeded
    case StepCancelled => s.reason == StepCodeCancelled
    case StepFailed => s.reason == if s.maxAttempts <= 1 || OutOfBudget(rep) then OwnReason(rep.res) else StepCodeRetriesExhausted
    case StepPending => s.reason == if OutOfBudget(rep) then StepCodeFailedTimeout else StepCodeRetryScheduled
    case _ => true
  }

  /** A parked step waits for the end of its attempt and the delay; one that ran out of budget does not wait. */
  ghost predicate ParkedFor(s: StepRow, rep: Report, answeredAt: int, recordedAt: int) {
    s.state == StepPending ==>
      s.nextAttemptAt == Some(
        if OutOfBudget(rep) then (if rep.finishedAt.Some? then rep.finishedAt.value else recordedAt)
        else (if rep.finishedAt.Some? then rep.finishedAt.value else answeredAt) + rep.delay)
  }

  lemma RecordedOne(s: StepRow, rep: Report, answeredAt: int, recordedAt: int)
    requires s.state == StepRunning && 0 < s.attempt <= s.maxAttempts
    ensures var out := Decide(rep, s.attempt, s.maxAttempts, answeredAt);
      var m := NextStepState(s.state, out.event, NO_GUARDS.(reasonCode := out.reason, attemptsLeft := s.attempt < s.maxAttempts));
      && m.Moved?
      && var t := s.(state := m.next, reason := RowReason(out, m.next),
                     nextAttemptAt := if m.next.StepPending? then Some(GateOf(out, recordedAt)) else None);
         Stands(t, rep) && Explained(t, rep) && ParkedFor(t, rep, answeredAt, recordedAt)
  {
  }

  /**
   * Recording what the engine makes of an answer is never refused, and leaves the step as the answer says:
   * everything else of the run stays as it was.
   */
  lemma RecordedAsAnswered(id: string, row: RunRow, i: nat, rep: Report, answeredAt: int, recordedAt: int)
    requires UniqueNames(row.steps) && i < |row.steps| && row.steps[i].state == StepRunning
    requires 0 < row.steps[i].attempt <= row.steps[i].maxAttempts
    ensures var s := row.steps[i]; var t := RecordTx(id, row, s.name, Decide(rep, s.attempt, s.maxAttempts, answeredAt), recordedAt);
      && t.Commit? && |t.row.steps| == |row.steps| && t.row == row.(steps := row.steps[i := t.row.steps[i]])
      && t.row.steps[i].name == s.name && t.row.steps[i].attempt == s.attempt && t.row.steps[i].maxAttempts == s.maxAttempts
      && Stands(t.row.steps[i], rep) && Explained(t.row.steps[i], rep) && ParkedFor(t.row.steps[i], rep, answeredAt, recordedAt)
  {
    FindByIndex(row.steps, i);
    RecordedOne(row.steps[i], rep, answeredAt, recordedAt);
    hide Find, UniqueNames, Decide, Stands, Explained, ParkedFor, GateOf, RowReason, NextStepState;
  }

  // ----- over whole runs -----

  datatype Heard = Heard(rep: Report, at: int)
  type Answers = map<(string, string), Heard>

  /** The answer of the last launch of every step that has been launched and answered. */
  function Told(w: World, acts: seq<Action>, known: Answers): Answers
    requires Feasible(w, acts)
    decreases |acts|
  {
    if |acts| == 0 then known else Told(Step(w, acts[0]), acts[1..], ToldBy(w, acts[0], known))
  }

  function ToldBy(w: World, a: Action, known: Answers): Answers {
    match a
    case Go(e, rep) => if e in w.execs then Hear(w.execs[e], w.now, rep, known) else known
    case _ => known
  }

  /** An executor whose process runs hears its answer; at no other point is there one to hear. */
  function Hear(x: Exec, now: int, rep: Report, known: Answers): Answers {
    if x.pc.Launched? then known[(x.run, x.pc.name) := Heard(rep, now)] else known
  }

  /** Parked as the answer says, recorded at some time after it was given. */
  ghost predicate Parks(s: StepRow, h: Heard) { exists at :: h.at <= at && ParkedFor(s, h.rep, h.at, at) }

  /** A step that was never launched has no answer; one that was and does not run stands by its last one. */
  ghost predicate StepStands(s: StepRow, key: (string, string), known: Answers) {
    && (s.attempt == 0 ==> key !in known)
    && (s.attempt > 0 && s.state != StepRunning ==>
          key in known && Stands(s, known[key].rep) && Explained(s, known[key].rep) && Parks(s, known[key]))
  }

  ghost predicate RowStands(id: string, row: RunRow, known: Answers) {
    forall i :: 0 <= i < |row.steps| ==> StepStands(row.steps[i], (id, row.steps[i].name), known)
  }

  ghost predicate RunsAt(row: RunRow, name: string, i: nat) {
    i < |row.steps| && row.steps[i].name == name && row.steps[i].state == StepRunning
  }

  /** What an executor is about to record is what the last answer amounts to, and whether it spent the run's time. */
  ghost predicate Carries(row: RunRow, id: string, pc: Pc, known: Answers) {
    match pc
    case Launched(name, _, _) => exists i: nat :: RunsAt(row, name, i)
    case Recording(name, out, spent) =>
      && (id, name) in known
      && var h := known[(id, name)];
         && spent == OutOfBudget(h.rep)
         && exists i: nat :: RunsAt(row, name, i) && out == Decide(h.rep, row.steps[i].attempt, row.steps[i].maxAttempts, h.at)
    case _ => true
  }

  ghost predicate ToldOk(w: World, known: Answers) {
    && (forall k :: k in known ==> k.0 in w.runs && known[k].at <= w.now)
    && (forall id :: id in w.runs ==> RowStands(id, w.runs[id], known))
    && (forall e :: e in w.execs && w.execs[e].run in w.runs ==> Carries(w.runs[w.execs[e].run], w.execs[e].run, w.execs[e].pc, known))
  }

  // ----- what one access does to it -----

  lemma AllSkippedStand(id: string, row: RunRow, code: Code, known: Answers)
    requires RowStands(id, row, known)
    ensures RowStands(id, row.(steps := SkipRows(row.steps, code)), known)
  {
    forall i | 0 <= i < |row.steps| ensures StepStands(SkipRow(row.steps[i], code), (id, row.steps[i].name), known)
      && SkipRow(row.steps[i], code).name == row.steps[i].name
    {
      SkippedStands(row.steps[i], code, (id, row.steps[i].name), known);
    }
    hide StepStands;
  }

  lemma SkippedStands(s: StepRow, code: Code, key: (string, string), known: Answers)
    requires StepStands(s, key, known)
    ensures StepStands(SkipRow(s, code), key, known)
  {
    if s.state.StepPending? && s.attempt > 0 {
      assert ParkedFor(SkipRow(s, code), known[key].rep, known[key].at, known[key].at);
    }
  }

  /** One step written, the others left alone. */
  lemma OneStands(id: string, row: RunRow, i: nat, s': StepRow, known: Answers)
    requires RowStands(id, row, known) && i < |row.steps| && s'.name == row.steps[i].name
    requires StepStands(s', (id, s'.name), known)
    ensures RowStands(id, row.(steps := row.steps[i := s']), known)
  {
    hide StepStands;
  }

  lemma SameStepsStand(id: string, row: RunRow, row': RunRow, known: Answers)
    requires RowStands(id, row, known) && row'.steps == row.steps
    ensures RowStands(id, row', known)
  {
    hide StepStands;
  }

  lemma ClaimStands(id: string, row: RunRow, owner: string, ttl: int, now: int, known: Answers)
    requires RowStands(id, row, known) && ClaimTx(id, row, owner, ttl, now).Commit?
    ensures RowStands(id, ClaimTx(id, row, owner, ttl, now).row, known)
  {
    AllSkippedStand(id, row, StepCodeCancelled, known);
    hide SkipRows, StepStands;
  }

  lemma ObserveStands(id: string, row: RunRow, owner: string, actor: string, now: int, known: Answers)
    requires RowStands(id, row, known) && ObserveTx(id, row, owner, actor, RunCodeCancelledManual, now).Commit?
    ensures RowStands(id, ObserveTx(id, row, owner, actor, RunCodeCancelledManual, now).row, known)
  {
    AllSkippedStand(id, row, StepCodeCancelled, known);
    hide SkipRows, StepStands;
  }

  lemma StartStands(id: string, row: RunRow, name: string, known: Answers)
    requires RowStands(id, row, known) && StartTx(id, row, name).Commit?
    ensures RowStands(id, StartTx(id, row, name).row, known) && exists i: nat :: RunsAt(StartTx(id, row, name).row, name, i)
  {
    hide RowStands;
    var t, i := StartTx(id, row, name), Find(row.steps, name).value;
    assert RunsAt(t.row, name, i);
    OneStands(id, row, i, t.row.steps[i], known);
  }

  lemma SkipStands(id: string, row: RunRow, name: string, now: int, known: Answers)
    requires RowStands(id, row, known) && RecordTx(id, row, name, SKIP_OUTCOME, now).Commit?
    ensures RowStands(id, RecordTx(id, row, name, SKIP_OUTCOME, now).row, known)
  {
    var t, i := RecordTx(id, row, name, SKIP_OUTCOME, now), Find(row.steps, name).value;
    SkippedStands(row.steps[i], StepCodeSkippedUpstream, (id, name), known);
    hide RowStands;
    if row.steps[i].attempt > 0 {
      var h := known[(id, name)];
      assert ParkedFor(t.row.steps[i], h.rep, h.at, h.at);
    }
    OneStands(id, row, i, t.row.steps[i], known);
  }

  lemma RecordStands(id: string, row: RunRow, pc: Pc, now: int, known: Answers)
    requires RowOk(row) && RowStands(id, row, known) && pc.Recording? && Carries(row, id, pc, known)
    requires known[(id, pc.name)].at <= now
    ensures RecordTx(id, row, pc.name, pc.out, now).Commit?
    ensures RowStands(id, RecordTx(id, row, pc.name, pc.out, now).row, known)
    ensures var row' := RecordTx(id, row, pc.name, pc.out, now).row;
      forall j :: 0 <= j < |row.steps| && row.steps[j].name == pc.name ==> row'.steps[j].state != StepRunning
  {
    var h := known[(id, pc.name)];
    var i: nat :| RunsAt(row, pc.name, i) && pc.out == Decide(h.rep, row.steps[i].attempt, row.steps[i].maxAttempts, h.at);
    Attempted(row, i);
    RecordedAsAnswered(id, row, i, h.rep, h.at, now);
    hide RowOk, RowStands, RecordTx, Carries, Decide, Stands, Explained, ParkedFor;
    var t := RecordTx(id, row, pc.name, pc.out, now);
    NotRunning(t.row.steps[i], h.rep);
    OneStands(id, row, i, t.row.steps[i], known);
  }

  lemma NotRunning(s: StepRow, rep: Report)
    requires Stands(s, rep)
    ensures s.state != StepRunning
  {
  }

  lemma Attempted(row: RunRow, i: nat)
    requires RowOk(row) && i < |row.steps| && row.steps[i].state == StepRunning
    ensures UniqueNames(row.steps) && 0 < row.steps[i].attempt <= row.steps[i].maxAttempts
  {
    assert StepOk(row, i);
  }

  /** The answer of a running step is news of that step alone. */
  lemma LaunchStands(id: string, row: RunRow, pc: Pc, now: int, rep: Report, known: Answers)
    requires RowOk(row) && PcOk(row, pc) && RowStands(id, row, known) && pc.Launched? && Carries(row, id, pc, known)
    ensures var known' := known[(id, pc.name) := Heard(rep, now)];
      && RowStands(id, row, known')
      && Carries(row, id, Recording(pc.name, Decide(rep, pc.attempt, pc.maxAttempts, now), rep.byRun && rep.res.TimedOut?), known')
  {
    var i: nat :| RunsAt(row, pc.name, i);
    Attempted(row, i);
    var known' := known[(id, pc.name) := Heard(rep, now)];
    forall j | 0 <= j < |row.steps| ensures StepStands(row.steps[j], (id, row.steps[j].name), known') {
      if j != i {
        assert row.steps[j].name != pc.name;
        assert StepStands(row.steps[j], (id, row.steps[j].name), known);
      }
    }
  }

  lemma AccessStands(x: Exec, row: RunRow, now: int, rep: Report, known: Answers)
    requires RowOk(row) && (Active(x.pc) ==> PcOk(row, x.pc)) && RowStands(x.run, row, known) && Carries(row, x.run, x.pc, known)
    requires forall k :: k in known ==> known[k].at <= now
    ensures var s := Advance(x, row, now, rep);
      RowStands(x.run, s.row, Hear(x, now, rep, known)) && Carries(s.row, x.run, s.pc, Hear(x, now, rep, known))
  {
    hide RowOk, PcOk, RowStands, NextRunnable, RetryDue, Decide, FinishCode, RecordTx, ClaimTx, ObserveTx, FinishTx, StartTx, PendingNames;
    match x.pc
    case Fresh => if ClaimTx(x.run, row, x.owner, x.ttl, now).Commit? { ClaimStands(x.run, row, x.owner, x.ttl, now, known); }
    case Starting(name, _, _) => if StartTx(x.run, row, name).Commit? { StartStands(x.run, row, name, known); }
    case Launched(_, _, _) => LaunchStands(x.run, row, x.pc, now, rep, known);
    case Recording(_, _, _) => RecordStands(x.run, row, x.pc, now, known);
    case Skipping(names, _) =>
      if |names| > 0 && RecordTx(x.run, row, names[0], SKIP_OUTCOME, now).Commit? { SkipStands(x.run, row, names[0], now, known); }
    case Observing(asker) =>
      if ObserveTx(x.run, row, x.owner, asker, RunCodeCancelledManual, now).Commit? { ObserveStands(x.run, row, x.owner, asker, now, known); }
    case Finishing(code) => if FinishTx(x.run, row, x.owner, code, now).Commit? { FinishStands(x.run, row, x.owner, code, now, known); }
    case _ =>
  }

  lemma FinishStands(id: string, row: RunRow, owner: string, code: Code, now: int, known: Answers)
    requires RowStands(id, row, known) && FinishTx(id, row, owner, code, now).Commit?
    ensures RowStands(id, FinishTx(id, row, owner, code, now).row, known)
  {
    SameStepsStand(id, row, FinishTx(id, row, owner, code, now).row, known);
    hide RowStands;
  }

  // ----- what every action does to it -----

  /** What is heard of one run says nothing of another. */
  lemma ElsewhereStands(id: string, row: RunRow, x: Exec, now: int, rep: Report, known: Answers)
    requires RowStands(id, row, known) && id != x.run
    ensures RowStands(id, row, Hear(x, now, rep, known))
  {
    forall i | 0 <= i < |row.steps| ensures StepStands(row.steps[i], (id, row.steps[i].name), Hear(x, now, rep, known)) {
      assert StepStands(row.steps[i], (id, row.steps[i].name), known);
    }
  }

  lemma ElsewhereCarries(id: string, row: RunRow, pc: Pc, x: Exec, now: int, rep: Report, known: Answers)
    requires Carries(row, id, pc, known) && (id != x.run || !x.pc.Launched?)
    ensures Carries(row, id, pc, Hear(x, now, rep, known))
  {
    hide Decide;
  }

  lemma IdleCarries(id: string, row: RunRow, pc: Pc, known: Answers)
    requires !Active(pc)
    ensures Carries(row, id, pc, known)
  {
  }

  /** Two executors act on one run at once only when the access of the one changes nothing. */
  lemma Bystanders(x: Exec, y: Exec, row: RunRow, now: int, rep: Report)
    requires RowOk(row) && CanAdvance(x, row, now, rep) && (Active(x.pc) ==> PcOk(row, x.pc))
    requires Active(y.pc) && PcOk(row, y.pc) && x.run == y.run && !Rivals(x, y)
    ensures !x.pc.Launched? && Advance(x, row, now, rep).row == row
  {
    assert !row.state.RunQueued?;
    hide RowOk, PcOk, Advance, CanAdvance;
    Access(x, row, now, rep);
  }

  lemma NotRivals(w: World, e: nat, f: nat)
    requires WorldOk(w) && e in w.execs && f in w.execs && f != e
    ensures !Rivals(w.execs[e], w.execs[f])
  {
    hide RunsOk, PcOk;
  }

  lemma GoTold(w: World, e: nat, rep: Report, known: Answers)
    requires WorldOk(w) && ToldOk(w, known) && Enabled(w, Go(e, rep))
    ensures ToldOk(Step(w, Go(e, rep)), ToldBy(w, Go(e, rep), known))
  {
    hide WorldOk, RowOk, LogOk, PcOk, Advance, RowStands, Carries, CanAdvance;
    Standing(w, e);
    var x := w.execs[e];
    var row := w.runs[x.run];
    AccessStands(x, row, w.now, rep, known);
    var w' := Step(w, Go(e, rep));
    var known' := Hear(x, w.now, rep, known);
    forall id | id in w'.runs ensures RowStands(id, w'.runs[id], known') {
      if id != x.run { ElsewhereStands(id, w.runs[id], x, w.now, rep, known); }
    }
    forall f | f in w'.execs && w'.execs[f].run in w'.runs ensures Carries(w'.runs[w'.execs[f].run], w'.execs[f].run, w'.execs[f].pc, known') {
      var y := w'.execs[f];
      if f != e {
        if !Active(y.pc) { IdleCarries(y.run, w'.runs[y.run], y.pc, known'); }
        else {
          if y.run == x.run {
            NotRivals(w, e, f);
            Standing(w, f);
            Bystanders(x, y, row, w.now, rep);
          }
          ElsewhereCarries(y.run, w.runs[y.run], y.pc, x, w.now, rep, known);
        }
      }
    }
  }

  lemma Standing(w: World, e: nat)
    requires WorldOk(w) && e in w.execs
    ensures var x := w.execs[e]; x.run in w.runs && RowOk(w.runs[x.run]) && (Active(x.pc) ==> PcOk(w.runs[x.run], x.pc))
  {
    hide RowOk, LogOk, PcOk;
  }

  lemma FreshStands(id: string, steps: seq<NewStep>, availableAt: int, known: Answers)
    requires forall k :: k in known ==> k.0 != id
    ensures RowStands(id, FreshRun(steps, availableAt), known)
  {
  }

  lemma AskCarries(id: string, row: RunRow, asker: string, why: string, now: int, pc: Pc, known: Answers)
    requires Carries(row, id, pc, known)
    ensures Carries(CancelTx(row, asker, why, now), id, pc, known)
  {
    hide Decide;
    var row' := CancelTx(row, asker, why, now);
    assert forall i: nat, n :: RunsAt(row, n, i) ==> RunsAt(row', n, i);
  }

  lemma StepTold(w: World, a: Action, known: Answers)
    requires WorldOk(w) && ToldOk(w, known) && Enabled(w, a)
    ensures ToldOk(Step(w, a), ToldBy(w, a, known))
  {
    hide WorldOk, RowStands, Carries, Advance, CanAdvance, FreshRun, Insertable;
    NotYet(w);
    match a
    case Go(e, rep) => GoTold(w, e, rep, known);
    case Create(id, steps, availableAt, _) => FreshStands(id, steps, availableAt, known);
    case AskCancel(run, asker, why) =>
      SameStepsStand(run, w.runs[run], CancelTx(w.runs[run], asker, why, w.now), known);
      hide CancelTx;
      forall e | e in w.execs && w.execs[e].run == run ensures Carries(CancelTx(w.runs[run], asker, why, w.now), run, w.execs[e].pc, known) {
        AskCarries(run, w.runs[run], asker, why, w.now, w.execs[e].pc, known);
      }
    case Call(e, x) => IdleCarries(x.run, w.runs[x.run], x.pc, known);
    case Crash(e) => IdleCarries(w.execs[e].run, w.runs[w.execs[e].run], Gone, known);
    case Tick(_) =>
  }

  lemma NotYet(w: World)
    requires WorldOk(w)
    ensures forall e :: e in w.execs ==> w.execs[e].run in w.runs
  {
  }

  lemma {:induction false} RunTold(w: World, acts: seq<Action>, known: Answers)
    requires WorldOk(w) && ToldOk(w, known) && Feasible(w, acts)
    ensures WorldOk(Run(w, acts)) && ToldOk(Run(w, acts), Told(w, acts, known))
    decreases |acts|
  {
    if |acts| > 0 {
      StepKeeps(w, acts[0]);
      StepTold(w, acts[0], known);
      hide WorldOk, ToldOk, Step, Enabled, ToldBy;
      RunTold(Step(w, acts[0]), acts[1..], ToldBy(w, acts[0], known));
    }
  }

  lemma Begins(now: int)
    ensures WorldOk(Initial(now)) && ToldOk(Initial(now), map[])
  {
  }

  /**
   * In every history a step that was launched and does not run stands by the answer of its last launch:
   * succeeded exactly on a success, cancelled exactly on a kill that was asked for, and otherwise parked, with
   * the time of its next attempt, skipped since then, or failed when no attempt is left; with its reason.
   */
  lemma StandsByItsAnswer(now: int, acts: seq<Action>, id: string, i: nat)
    requires Feasible(Initial(now), acts) && id in Run(Initial(now), acts).runs && i < |Run(Initial(now), acts).runs[id].steps|
    ensures var s, known := Run(Initial(now), acts).runs[id].steps[i], Told(Initial(now), acts, map[]);
      && (s.attempt == 0 ==> (id, s.name) !in known && (s.state == StepPending || s.state == StepSkipped))
      && (s.attempt > 0 && s.state != StepRunning ==>
            && (id, s.name) in known
            && Stands(s, known[(id, s.name)].rep) && Explained(s, known[(id, s.name)].rep) && Parks(s, known[(id, s.name)]))
  {
    Begins(now);
    hide WorldOk, Initial, Stands, Explained, Parks;
    RunTold(Initial(now), acts, map[]);
    hide Run, Told;
    var w := Run(Initial(now), acts);
    assert RowStands(id, w.runs[id], Told(Initial(now), acts, map[]));
    assert StepStands(w.runs[id].steps[i], (id, w.runs[id].steps[i].name), Told(Initial(now), acts, map[]));
    if w.runs[id].steps[i].attempt == 0 { NeverLaunched(w, id, i); }
  }

  lemma NeverLaunched(w: World, id: string, i: nat)
    requires WorldOk(w) && id in w.runs && i < |w.runs[id].steps| && w.runs[id].steps[i].attempt == 0
    ensures w.runs[id].steps[i].state == StepPending || w.runs[id].steps[i].state == StepSkipped
  {
    assert StepOk(w.runs[id], i);
  }

  /** An executor that has its answer always gets it recorded: its step runs no more, and the run's own deadline ends the loop. */
  lemma AnswerIsRecorded(now: int, acts: seq<Action>, e: nat, rep: Report)
    requires Feasible(Initial(now), acts) && e in Run(Initial(now), acts).execs && Run(Initial(now), acts).execs[e].pc.Recording?
    ensures var w, known := Run(Initial(now), acts), Told(Initial(now), acts, map[]); var x := w.execs[e];
      && Enabled(w, Go(e, rep)) && (x.run, x.pc.name) in known
      && var w' := Step(w, Go(e, rep));
         && e in w'.execs && x.run in w'.runs && w'.execs[e].pc == (if OutOfBudget(known[(x.run, x.pc.name)].rep) then Closing(true) else Head)
         && forall i :: 0 <= i < |w'.runs[x.run].steps| && w'.runs[x.run].steps[i].name == x.pc.name ==> w'.runs[x.run].steps[i].state != StepRunning
  {
    Begins(now);
    hide *;
    RunTold(Initial(now), acts, map[]);
    var w, known := Run(Initial(now), acts), Told(Initial(now), acts, map[]);
    AnswerAt(w, known, e);
    var x := w.execs[e];
    RecordedNow(x, w.runs[x.run], w.now, rep, known);
    GoOnce(w, e, rep);
  }

  lemma AnswerAt(w: World, known: Answers, e: nat)
    requires WorldOk(w) && ToldOk(w, known) && e in w.execs && w.execs[e].pc.Recording?
    ensures var x := w.execs[e];
      && x.run in w.runs && RowOk(w.runs[x.run]) && RowStands(x.run, w.runs[x.run], known) && Carries(w.runs[x.run], x.run, x.pc, known)
      && forall k :: k in known ==> known[k].at <= w.now
  {
    hide WorldOk, RowOk, PcOk, RowStands, Carries;
    Standing(w, e);
  }

  lemma GoOnce(w: World, e: nat, rep: Report)
    requires e in w.execs && w.execs[e].pc.Recording? && w.execs[e].run in w.runs
    ensures Enabled(w, Go(e, rep))
    ensures var x, w' := w.execs[e], Step(w, Go(e, rep)); var s := Advance(x, w.runs[x.run], w.now, rep);
      e in w'.execs && w'.execs[e].pc == s.pc && x.run in w'.runs && w'.runs[x.run] == s.row
  {
    hide Advance;
  }

  lemma RecordedNow(x: Exec, row: RunRow, now: int, rep: Report, known: Answers)
    requires RowOk(row) && x.pc.Recording? && RowStands(x.run, row, known) && Carries(row, x.run, x.pc, known)
    requires forall k :: k in known ==> known[k].at <= now
    ensures (x.run, x.pc.name) in known
    ensures var s := Advance(x, row, now, rep);
      && s.pc == (if OutOfBudget(known[(x.run, x.pc.name)].rep) then Closing(true) else Head)
      && forall i :: 0 <= i < |s.row.steps| && s.row.steps[i].name == x.pc.name ==> s.row.steps[i].state != StepRunning
  {
    hide RowOk, RowStands, RecordTx, Decide;
    RecordStands(x.run, row, x.pc, now, known);
    SameLength(x.run, row, x.pc.name, x.pc.out, now);
  }

  lemma SameLength(id: string, row: RunRow, name: string, out: Outcome, now: int)
    requires RecordTx(id, row, name, out, now).Commit?
    ensures var row' := RecordTx(id, row, name, out, now).row;
      |row'.steps| == |row.steps| && forall i :: 0 <= i < |row.steps| ==> row'.steps[i].name == row.steps[i].name
  {
  }
}
