/**
 * What the `needs` lists of a job decide: which step is taken next, in what order steps start, and which
 * are skipped. Stated over the specification a run was created from.
 */
module Upstream {
  import opened Wrappers
  import opened Machine
  import opened Tables
  import opened Graph
  import opened History
  import opened Invariant
  import opened Protocol
  import opened Safety
  import Results

  /** Step i names step j among its needs. A need that names no step of the job says nothing. */
  ghost predicate Wants(specs: seq<NewStep>, i: nat, j: nat) {
    i < |specs| && j < |specs| && specs[j].name in specs[i].needs
  }

  /** How often a step may be tried: once, and once more for every retry it is given. */
  function Tries(n: NewStep): int {
    match n.retryMax case None => 1 case Some(r) => if r < 0 then 1 else 1 + r
  }

  /** The frozen part of a run's rows is that of this specification. */
  ghost predicate MadeFrom(row: RunRow, specs: seq<NewStep>) {
    && Insertable(specs) && |row.steps| == |specs| && row.deps == FreshRun(specs, 0).deps
    && forall i :: 0 <= i < |specs| ==> row.steps[i].name == specs[i].name && row.steps[i].maxAttempts == Tries(specs[i])
  }

  lemma FreshIsMade(specs: seq<NewStep>, availableAt: int)
    requires Insertable(specs)
    ensures MadeFrom(FreshRun(specs, availableAt), specs)
    ensures var row := FreshRun(specs, availableAt);
      && row.state.RunQueued? && row.availableAt == availableAt && row.cancelAt.None?
      && forall i :: 0 <= i < |specs| ==>
           row.steps[i].state.StepPending? && row.steps[i].attempt == 0 && row.steps[i].nextAttemptAt.None? && row.steps[i].reason.NoCode?
  {
  }

  /** The keys of the tables take a specification exactly when no two steps have one name and no step names one need twice. */
  lemma InsertableExactly(specs: seq<NewStep>)
    ensures Insertable(specs) <==>
      && (forall i: nat, j: nat :: i < |specs| && j < |specs| && specs[i].name == specs[j].name ==> i == j)
      && (forall i: nat :: i < |specs| ==> NoNeedTwice(specs[i].needs))
  {
  }

  ghost predicate NoNeedTwice(needs: seq<string>) {
    forall j: nat, k: nat :: j < |needs| && k < |needs| && needs[j] == needs[k] ==> j == k
  }

  lemma MadeKept(row: RunRow, row': RunRow, specs: seq<NewStep>)
    requires MadeFrom(row, specs) && SameShape(row, row')
    ensures MadeFrom(row', specs)
  {
  }

  /** The edges are the needs, from the step that needs to the step that is needed. */
  lemma NeedsAre(row: RunRow, specs: seq<NewStep>, i: nat, j: nat)
    requires MadeFrom(row, specs) && i < |specs| && j < |specs|
    ensures Needs(row, i, j) <==> Wants(specs, i, j)
  {
    var a, b := specs[i].name, specs[j].name;
    if (a, b) in EdgesOf(specs) {
      var h, k :| 0 <= h < |specs| && 0 <= k < |specs[h].needs| && (specs[h].name, specs[h].needs[k]) == (a, b);
      assert h == i;
    }
    if b in specs[i].needs {
      var k :| 0 <= k < |specs[i].needs| && specs[i].needs[k] == b;
      assert (specs[i].name, specs[i].needs[k]) in EdgesOf(specs);
    }
  }

  // ----- the next step -----

  /** Pending, past its retry gate, and every step it needs has succeeded. */
  ghost predicate Ready(row: RunRow, specs: seq<NewStep>, now: int, i: nat)
    requires |row.steps| == |specs|
  {
    && i < |specs| && row.steps[i].state.StepPending?
    && (match row.steps[i].nextAttemptAt case None => true case Some(at) => at <= now)
    && forall j: nat :: Wants(specs, i, j) ==> row.steps[j].state.StepSucceeded?
  }

  lemma ReadyExactly(row: RunRow, specs: seq<NewStep>, now: int, i: nat)
    requires MadeFrom(row, specs) && i < |specs|
    ensures Runnable(row, now, i) <==> Ready(row, specs, now, i)
  {
    forall j: nat | j < |specs| ensures Needs(row, i, j) <==> Wants(specs, i, j) { NeedsAre(row, specs, i, j); }
    hide Needs, Wants, MadeFrom;
  }

  /** The step taken next is the first that is ready, and none is taken exactly when none is ready. */
  lemma NextIsFirstReady(row: RunRow, specs: seq<NewStep>, now: int)
    requires MadeFrom(row, specs)
    ensures match NextRunnable(row, now)
      case Some(i) => Ready(row, specs, now, i) && forall h: nat :: h < i ==> !Ready(row, specs, now, h)
      case None => forall i: nat :: i < |specs| ==> !Ready(row, specs, now, i)
  {
    assert |row.steps| == |specs|;
    forall i: nat | i < |specs| ensures Runnable(row, now, i) <==> Ready(row, specs, now, i) { ReadyExactly(row, specs, now, i); }
    hide Runnable, Ready, MadeFrom;
  }

  // ----- over whole runs -----

  /** The specification every run was created from. */
  function Given(acts: seq<Action>, known: map<string, seq<NewStep>>): map<string, seq<NewStep>>
    decreases |acts|
  {
    if |acts| == 0 then known else Given(acts[1..], GivenBy(acts[0], known))
  }

  function GivenBy(a: Action, known: map<string, seq<NewStep>>): map<string, seq<NewStep>> {
    match a case Create(id, steps, _, _) => known[id := steps] case _ => known
  }

  predicate IsEvent(e: Entry, id: string, name: string, k: Kind) { e.run == id && e.step == Some(name) && e.kind == k }

  /** A success of this step stands in the log before position p. */
  ghost predicate SucceededBefore(log: seq<Entry>, p: nat, id: string, name: string) {
    exists q :: 0 <= q < p && q < |log| && IsEvent(log[q], id, name, KStepSucceeded)
  }

  /** No step starts before all it needs have succeeded. */
  ghost predicate InOrder(log: seq<Entry>, id: string, specs: seq<NewStep>) {
    forall p: nat, i: nat, j: nat :: p < |log| && Wants(specs, i, j) && IsEvent(log[p], id, specs[i].name, KStepStarted) ==>
      SucceededBefore(log, p, id, specs[j].name)
  }

  ghost predicate GivenOk(w: World, known: map<string, seq<NewStep>>) {
    && known.Keys == w.runs.Keys
    && forall id :: id in known ==> MadeFrom(w.runs[id], known[id]) && InOrder(w.log, id, known[id])
  }

  lemma {:induction false} PartIn(log: seq<Entry>, run: string, step: Option<string>, e: Entry)
    requires e in Part(log, run, step)
    ensures e in log && e.run == run && e.step == step
    decreases |log|
  {
    var last := log[|log| - 1];
    if e in Part(log[..|log| - 1], run, step) { PartIn(log[..|log| - 1], run, step, e); }
  }

  /** A step that has succeeded has its event in the log. */
  lemma SuccessIsLogged(id: string, row: RunRow, log: seq<Entry>, j: nat)
    requires LogOk(id, row, log) && j < |row.steps| && row.steps[j].state.StepSucceeded?
    ensures SucceededBefore(log, |log|, id, row.steps[j].name)
  {
    var name := row.steps[j].name;
    var p := Part(log, id, Some(name));
    assert StepPartOk(p, row.steps[j]);
    var e := p[|p| - 1];
    assert Legal(e);
    hide LogOk, StepPartOk;
    PartIn(log, id, Some(name), e);
    var q :| 0 <= q < |log| && log[q] == e;
    assert IsEvent(log[q], id, name, KStepSucceeded);
  }

  lemma OrderStays(log: seq<Entry>, more: seq<Entry>, id: string, specs: seq<NewStep>)
    requires InOrder(log, id, specs)
    requires forall e, i: nat :: e in more && i < |specs| ==> !IsEvent(e, id, specs[i].name, KStepStarted)
    ensures InOrder(log + more, id, specs)
  {
    var all := log + more;
    assert forall p: nat :: |log| <= p < |all| ==> all[p] in more;
    forall p: nat, i: nat, j: nat | p < |log| && Wants(specs, i, j) && IsEvent(log[p], id, specs[i].name, KStepStarted)
      ensures SucceededBefore(all, p, id, specs[j].name)
    {
      Earlier(log, more, p, id, specs[j].name);
    }
    assert forall p: nat :: p < |log| ==> all[p] == log[p];
  }

  lemma Earlier(log: seq<Entry>, more: seq<Entry>, p: nat, id: string, name: string)
    requires p <= |log| && SucceededBefore(log, p, id, name)
    ensures SucceededBefore(log + more, p, id, name)
  {
    var q :| 0 <= q < p && q < |log| && IsEvent(log[q], id, name, KStepSucceeded);
    assert (log + more)[q] == log[q];
  }

  lemma OrderStarts(log: seq<Entry>, e: Entry, id: string, specs: seq<NewStep>, i: nat)
    requires Insertable(specs) && InOrder(log, id, specs) && i < |specs| && IsEvent(e, id, specs[i].name, KStepStarted)
    requires forall j: nat :: Wants(specs, i, j) ==> SucceededBefore(log, |log|, id, specs[j].name)
    ensures InOrder(log + [e], id, specs)
  {
    var all := log + [e];
    forall p: nat, h: nat, j: nat | p < |all| && Wants(specs, h, j) && IsEvent(all[p], id, specs[h].name, KStepStarted)
      ensures SucceededBefore(all, p, id, specs[j].name)
    {
      if p == |log| {
        assert specs[h].name == specs[i].name && h == i;
      } else {
        assert all[p] == log[p];
      }
      Earlier(log, [e], p, id, specs[j].name);
    }
  }

  /** An executor writes a start only before StartStep, and then nothing else. */
  lemma StartsAlone(x: Exec, row: RunRow, now: int, rep: Report, e: Entry)
    requires RowOk(row) && (Active(x.pc) ==> PcOk(row, x.pc)) && e in Advance(x, row, now, rep).log && e.kind.KStepStarted?
    ensures x.pc.Starting? && Advance(x, row, now, rep).log == [e] && IsEvent(e, x.run, x.pc.name, KStepStarted)
  {
    NotAStart(x, row);
    hide RowOk, PcOk, NextRunnable, RetryDue, Decide, FinishCode, RecordTx, ClaimTx, ObserveTx, FinishTx, StartTx;
    match x.pc
    case Starting(name, _, _) => if StartTx(x.run, row, name).Commit? { StartWrites(x.run, row, name); }
    case Recording(name, out, _) => if RecordTx(x.run, row, name, out, now).Commit? { RecordNoStart(x.run, row, name, out, now); }
    case Skipping(names, _) =>
      if |names| > 0 && RecordTx(x.run, row, names[0], SKIP_OUTCOME, now).Commit? { RecordNoStart(x.run, row, names[0], SKIP_OUTCOME, now); }
    case Fresh => if ClaimTx(x.run, row, x.owner, x.ttl, now).Commit? { ClaimNoStart(x.run, row, x.owner, x.ttl, now); }
    case Observing(asker) =>
      if ObserveTx(x.run, row, x.owner, asker, RunCodeCancelledManual, now).Commit? {
        ObserveNoStart(x.run, row, x.owner, asker, RunCodeCancelledManual, now);
      }
    case Finishing(code) => if FinishTx(x.run, row, x.owner, code, now).Commit? { FinishNoStart(x.run, row, x.owner, code, now); }
    case _ =>
  }

  ghost predicate NoStart(log: seq<Entry>) { forall e :: e in log ==> !e.kind.KStepStarted? }

  lemma StartWrites(id: string, row: RunRow, name: string)
    requires StartTx(id, row, name).Commit?
    ensures var log := StartTx(id, row, name).log; |log| == 1 && IsEvent(log[0], id, name, KStepStarted)
  {
    hide Find;
  }

  lemma ClaimNoStart(id: string, row: RunRow, owner: string, ttl: int, now: int)
    requires ClaimTx(id, row, owner, ttl, now).Commit?
    ensures NoStart(ClaimTx(id, row, owner, ttl, now).log)
  {
    hide SkipEntries, PendingNames, SkipRows;
    SkipsNoStart(id, PendingNames(row.steps), StepCodeCancelled);
  }

  lemma ObserveNoStart(id: string, row: RunRow, owner: string, actor: string, code: Code, now: int)
    requires ObserveTx(id, row, owner, actor, code, now).Commit?
    ensures NoStart(ObserveTx(id, row, owner, actor, code, now).log)
  {
    hide SkipEntries, PendingNames, SkipRows;
    SkipsNoStart(id, PendingNames(row.steps), StepCodeCancelled);
  }

  lemma FinishNoStart(id: string, row: RunRow, owner: string, code: Code, now: int)
    requires FinishTx(id, row, owner, code, now).Commit?
    ensures NoStart(FinishTx(id, row, owner, code, now).log)
  {
    hide AllTerminal, AnyFailedOrCancelled, LeaseValid;
  }

  lemma NotAStart(x: Exec, row: RunRow)
    requires Active(x.pc) ==> PcOk(row, x.pc)
    ensures x.pc.Recording? ==> !x.pc.out.event.EvStepStarted?
  {
    hide OnlyRunning;
  }

  lemma RecordNoStart(id: string, row: RunRow, name: string, out: Outcome, now: int)
    requires RecordTx(id, row, name, out, now).Commit? && !out.event.EvStepStarted?
    ensures NoStart(RecordTx(id, row, name, out, now).log)
  {
    hide Find;
  }

  lemma {:induction false} SkipsNoStart(id: string, names: seq<string>, code: Code)
    ensures forall e :: e in SkipEntries(id, names, code) ==> e.kind.KStepSkipped?
    decreases |names|
  {
    if |names| > 0 { SkipsNoStart(id, names[..|names| - 1], code); }
  }

  lemma GoInOrder(x: Exec, row: RunRow, log: seq<Entry>, now: int, rep: Report, specs: seq<NewStep>)
    requires RowOk(row) && LogOk(x.run, row, log) && (Active(x.pc) ==> PcOk(row, x.pc))
    requires MadeFrom(row, specs) && InOrder(log, x.run, specs)
    ensures InOrder(log + Advance(x, row, now, rep).log, x.run, specs)
  {
    hide RowOk, LogOk, Advance, InOrder, MadeFrom, PcOk, Active;
    var more := Advance(x, row, now, rep).log;
    if e :| e in more && e.kind.KStepStarted? {
      StartsAlone(x, row, now, rep, e);
      StillActive(x.pc);
      var i := StartNeeds(x.run, row, log, specs, x.pc);
      MadeInsertable(row, specs);
      OrderStarts(log, e, x.run, specs, i);
    } else {
      OrderStays(log, more, x.run, specs);
    }
  }

  lemma StillActive(pc: Pc)
    requires pc.Starting?
    ensures Active(pc)
  {
  }

  lemma MadeInsertable(row: RunRow, specs: seq<NewStep>)
    requires MadeFrom(row, specs)
    ensures Insertable(specs)
  {
  }

  lemma StartNeeds(id: string, row: RunRow, log: seq<Entry>, specs: seq<NewStep>, pc: Pc) returns (i: nat)
    requires LogOk(id, row, log) && MadeFrom(row, specs) && pc.Starting? && PcOk(row, pc)
    ensures i < |specs| && specs[i].name == pc.name
    ensures forall j: nat :: Wants(specs, i, j) ==> SucceededBefore(log, |log|, id, specs[j].name)
  {
    i := Find(row.steps, pc.name).value;
    assert UpstreamsSucceeded(row, i);
    forall j: nat | Wants(specs, i, j) ensures SucceededBefore(log, |log|, id, specs[j].name) {
      NeedsAre(row, specs, i, j);
      SuccessIsLogged(id, row, log, j);
    }
  }

  lemma Standing(w: World, e: nat)
    requires WorldOk(w) && e in w.execs
    ensures var x := w.execs[e];
      && x.run in w.runs && RowOk(w.runs[x.run]) && LogOk(x.run, w.runs[x.run], w.log)
      && (Active(x.pc) ==> PcOk(w.runs[x.run], x.pc))
  {
    hide RowOk, LogOk, PcOk;
  }

  lemma ShapeOf(id: string, row: RunRow, evs: seq<Entry>, row': RunRow)
    requires Follows(id, row, evs, row')
    ensures SameShape(row, row')
  {
    hide StepDelta, RunDelta;
  }

  lemma GoGiven(w: World, e: nat, rep: Report, known: map<string, seq<NewStep>>)
    requires WorldOk(w) && GivenOk(w, known) && Enabled(w, Go(e, rep))
    ensures GivenOk(Step(w, Go(e, rep)), known)
  {
    hide WorldOk, RowOk, LogOk, PcOk, Advance, Follows, MadeFrom, InOrder, CanAdvance, SameShape;
    Standing(w, e);
    var x := w.execs[e];
    var row := w.runs[x.run];
    var s := Advance(x, row, w.now, rep);
    Access(x, row, w.now, rep);
    ShapeOf(x.run, row, s.log, s.row);
    FollowsTouchesOne(x.run, row, s.log, s.row);
    MadeKept(row, s.row, known[x.run]);
    GoInOrder(x, row, w.log, w.now, rep, known[x.run]);
    hide AccessOk, Active;
    forall id | id in known && id != x.run ensures InOrder(w.log + s.log, id, known[id]) { OrderStays(w.log, s.log, id, known[id]); }
  }

  lemma StepGiven(w: World, a: Action, known: map<string, seq<NewStep>>)
    requires WorldOk(w) && GivenOk(w, known) && Enabled(w, a)
    ensures GivenOk(Step(w, a), GivenBy(a, known))
  {
    hide WorldOk, MadeFrom, InOrder, CanAdvance, Advance;
    match a
    case Go(e, rep) => GoGiven(w, e, rep, known);
    case Create(id, steps, availableAt, actor) => CreateGiven(w, id, steps, availableAt, actor, known);
    case AskCancel(run, asker, why) => AskGiven(w, run, asker, why, known);
    case _ =>
  }

  lemma StrangersOnly(w: World, id: string)
    requires WorldOk(w) && id !in w.runs
    ensures forall e :: e in w.log ==> e.run != id
  {
    hide RowOk, LogOk, ExecsOk;
  }

  lemma StrangersInOrder(log: seq<Entry>, id: string, specs: seq<NewStep>)
    requires forall e :: e in log ==> e.run != id
    ensures InOrder(log, id, specs)
  {
  }

  lemma CreateGiven(w: World, id: string, steps: seq<NewStep>, availableAt: int, actor: string, known: map<string, seq<NewStep>>)
    requires WorldOk(w) && GivenOk(w, known) && Enabled(w, Create(id, steps, availableAt, actor))
    ensures GivenOk(Step(w, Create(id, steps, availableAt, actor)), known[id := steps])
  {
    hide WorldOk, MadeFrom, InOrder, FreshRun;
    FreshIsMade(steps, availableAt);
    StrangersOnly(w, id);
    StrangersInOrder(w.log, id, steps);
    var q := QueuedEntry(id, actor);
    var log, all := w.log + [q], known[id := steps];
    forall k | k in all ensures InOrder(log, k, all[k]) { OrderStays(w.log, [q], k, all[k]); }
  }

  lemma AskGiven(w: World, run: string, asker: string, why: string, known: map<string, seq<NewStep>>)
    requires GivenOk(w, known) && Enabled(w, AskCancel(run, asker, why))
    ensures GivenOk(Step(w, AskCancel(run, asker, why)), known)
  {
    MadeKept(w.runs[run], CancelTx(w.runs[run], asker, why, w.now), known[run]);
    hide MadeFrom, InOrder;
  }

  lemma {:induction false} RunGiven(w: World, acts: seq<Action>, known: map<string, seq<NewStep>>)
    requires WorldOk(w) && GivenOk(w, known) && Feasible(w, acts)
    ensures WorldOk(Run(w, acts)) && GivenOk(Run(w, acts), Given(acts, known))
    decreases |acts|
  {
    if |acts| > 0 {
      StepKeeps(w, acts[0]);
      StepGiven(w, acts[0], known);
      hide WorldOk, GivenOk, Step, Enabled, GivenBy;
      RunGiven(Step(w, acts[0]), acts[1..], GivenBy(acts[0], known));
    }
  }

  lemma Begins(now: int)
    ensures WorldOk(Initial(now)) && GivenOk(Initial(now), map[])
  {
  }

  /** In every reachable state every run is known by its specification, and its rows are that one's. */
  lemma RunsAreMade(now: int, acts: seq<Action>, id: string)
    requires Feasible(Initial(now), acts) && id in Run(Initial(now), acts).runs
    ensures id in Given(acts, map[]) && MadeFrom(Run(Initial(now), acts).runs[id], Given(acts, map[])[id])
  {
    Begins(now);
    hide WorldOk, Initial, MadeFrom;
    RunGiven(Initial(now), acts, map[]);
  }

  /** In every history no step of a run has started before each of the steps it needs had succeeded. */
  lemma NeedsComeFirst(now: int, acts: seq<Action>, id: string, i: nat, j: nat, p: nat)
    requires Feasible(Initial(now), acts) && id in Given(acts, map[])
    requires var specs, log := Given(acts, map[])[id], Run(Initial(now), acts).log;
      && i < |specs| && j < |specs| && specs[j].name in specs[i].needs
      && p < |log| && log[p].run == id && log[p].step == Some(specs[i].name) && log[p].kind == KStepStarted
    ensures var specs, log := Given(acts, map[])[id], Run(Initial(now), acts).log;
      exists q :: 0 <= q < p && log[q].run == id && log[q].step == Some(specs[j].name) && log[q].kind == KStepSucceeded
  {
    Begins(now);
    RunGiven(Initial(now), acts, map[]);
    hide Given, Run, WorldOk, MadeFrom;
    var specs, log := Given(acts, map[])[id], Run(Initial(now), acts).log;
    assert Wants(specs, i, j) && IsEvent(log[p], id, specs[i].name, KStepStarted);
    assert SucceededBefore(log, p, id, specs[j].name);
  }

  /** No step is ever launched more often than its retries allow. */
  lemma TriesAreBudgeted(now: int, acts: seq<Action>, id: string, i: nat)
    requires Feasible(Initial(now), acts) && id in Given(acts, map[]) && i < |Given(acts, map[])[id]|
    ensures var w, specs := Run(Initial(now), acts), Given(acts, map[])[id];
      && id in w.runs && i < |w.runs[id].steps| && w.runs[id].steps[i].name == specs[i].name
      && StartedCount(Part(w.log, id, Some(specs[i].name))) <= Tries(specs[i])
  {
    Begins(now);
    hide WorldOk, Initial;
    RunGiven(Initial(now), acts, map[]);
    var w := Run(Initial(now), acts);
    assert MadeFrom(w.runs[id], Given(acts, map[])[id]);
    assert Reachable(w);
    hide Given, Run, Tries, GivenOk, Part, StartedCount, Reachable;
    Results.AttemptsAreBudgeted(w, id);
  }

  // ----- what a finished run skipped -----

  ghost predicate AStepFailed(row: RunRow) { exists j :: 0 <= j < |row.steps| && row.steps[j].state == StepFailed }

  /** A failed step lies at most d needs above step i. */
  ghost predicate Doomed(row: RunRow, specs: seq<NewStep>, i: nat, d: nat)
    requires |row.steps| == |specs|
    decreases d
  {
    d > 0 && exists j: nat :: Wants(specs, i, j) && (row.steps[j].state.StepFailed? || Doomed(row, specs, j, d - 1))
  }

  /** No chain of needs upwards from step i is d long. */
  ghost predicate Bounded(specs: seq<NewStep>, i: nat, d: nat)
    decreases d
  {
    d > 0 && forall j: nat :: Wants(specs, i, j) ==> Bounded(specs, j, d - 1)
  }

  lemma {:induction false} DoomedExactly(row: RunRow, specs: seq<NewStep>, i: nat, d: nat)
    requires MadeFrom(row, specs) && i < |specs|
    ensures FailedAbove(row, i, d) <==> Doomed(row, specs, i, d)
    decreases d
  {
    if d > 0 {
      forall j: nat | j < |specs| ensures Needs(row, i, j) <==> Wants(specs, i, j) { NeedsAre(row, specs, i, j); }
      var e: nat := d - 1;
      forall j: nat | j < |specs| ensures FailedAbove(row, j, e) <==> Doomed(row, specs, j, e) { DoomedExactly(row, specs, j, e); }
      hide Needs, MadeFrom;
    }
  }

  lemma {:induction false} BoundedExactly(row: RunRow, specs: seq<NewStep>, i: nat, d: nat)
    requires MadeFrom(row, specs) && i < |specs|
    ensures Grounded(row, i, d) <==> Bounded(specs, i, d)
    decreases d
  {
    if d > 0 {
      forall j: nat | j < |specs| ensures Needs(row, i, j) <==> Wants(specs, i, j) { NeedsAre(row, specs, i, j); }
      var e: nat := d - 1;
      forall j: nat | j < |specs| ensures Grounded(row, j, e) <==> Bounded(specs, j, e) { BoundedExactly(row, specs, j, e); }
      hide Needs, MadeFrom;
    }
  }

  /** A failed step lies somewhere above step i. */
  ghost predicate IsDoomed(row: RunRow, specs: seq<NewStep>, i: nat)
    requires |row.steps| == |specs|
  {
    exists d: nat :: Doomed(row, specs, i, d)
  }

  /** The needs above step i come to no end: it stands on a cycle or below one. */
  ghost predicate IsEndless(specs: seq<NewStep>, i: nat) { forall d: nat :: !Bounded(specs, i, d) }

  lemma DoomedAtAll(row: RunRow, specs: seq<NewStep>, i: nat)
    requires MadeFrom(row, specs) && i < |specs|
    ensures DependsOnFailed(row, i) <==> IsDoomed(row, specs, i)
    ensures WellFounded(row, i) <==> !IsEndless(specs, i)
  {
    forall d: nat ensures FailedAbove(row, i, d) <==> Doomed(row, specs, i, d) { DoomedExactly(row, specs, i, d); }
    forall d: nat ensures Grounded(row, i, d) <==> Bounded(specs, i, d) { BoundedExactly(row, specs, i, d); }
    hide MadeFrom, Wants, Needs;
  }

  /**
   * A run that ended by running out of runnable steps skipped exactly the steps above which, along the
   * needs of its specification, a step failed or a cycle lies; it failed exactly when a step did.
   */
  lemma SkippedExactly(now: int, acts: seq<Action>, id: string, i: nat)
    requires Feasible(Initial(now), acts) && id in Run(Initial(now), acts).runs
    requires var row := Run(Initial(now), acts).runs[id];
      (row.state.RunSucceeded? || row.state.RunFailed?) && !row.reason.RunCodeTimedOut? && i < |row.steps|
    ensures id in Given(acts, map[]) && |Given(acts, map[])[id]| == |Run(Initial(now), acts).runs[id].steps|
    ensures var row, specs := Run(Initial(now), acts).runs[id], Given(acts, map[])[id];
      && (row.steps[i].state.StepSkipped? <==> IsDoomed(row, specs, i) || IsEndless(specs, i))
      && (row.state.RunFailed? <==> AStepFailed(row))
  {
    hide *;
    Reached(now, acts);
    RunsAreMade(now, acts, id);
    var w := Run(Initial(now), acts);
    var row, specs := w.runs[id], Given(acts, map[])[id];
    MadeLength(row, specs);
    ClosedRun(w, id, i);
    DoomedAtAll(row, specs, i);
  }

  lemma Reached(now: int, acts: seq<Action>)
    requires Feasible(Initial(now), acts)
    ensures Reachable(Run(Initial(now), acts))
  {
  }

  lemma MadeLength(row: RunRow, specs: seq<NewStep>)
    requires MadeFrom(row, specs)
    ensures |row.steps| == |specs|
  {
  }

  lemma ClosedRun(w: World, id: string, i: nat)
    requires Reachable(w) && id in w.runs && i < |w.runs[id].steps|
    requires var row := w.runs[id]; (row.state.RunSucceeded? || row.state.RunFailed?) && !row.reason.RunCodeTimedOut?
    ensures var row := w.runs[id];
      && (row.steps[i].state.StepSkipped? <==> DependsOnFailed(row, i) || !WellFounded(row, i))
      && (row.state.RunFailed? <==> AStepFailed(row))
  {
    hide Reachable, DependsOnFailed, WellFounded, SomeFailed, AStepFailed;
    Results.FinishedRunClosure(w, id);
    FailedTwice(w.runs[id]);
  }

  lemma FailedTwice(row: RunRow)
    ensures SomeFailed(row) <==> AStepFailed(row)
  {
    if SomeFailed(row) {
      var i: nat :| i < |row.steps| && row.steps[i].state.StepFailed?;
      assert row.steps[i].state == StepFailed;
    }
  }
}
