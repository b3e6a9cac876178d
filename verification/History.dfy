/**
 * run_events as a history. The log is cut into partitions, one per run and one per step of a run, and
 * every transaction is shown to extend each partition by at most one entry that the machine allows and
 * that starts at the stored state and ends at the new one. The chain and replay facts follow from that.
 */
module History {
  import opened Wrappers
  import opened Machine
  import opened Tables

  /** The events of one run (step None) or of one of its steps, in id order. */
  function Part(log: seq<Entry>, run: string, step: Option<string>): seq<Entry> {
    if |log| == 0 then []
    else Part(log[..|log| - 1], run, step)
         + (var e := log[|log| - 1]; if e.run == run && e.step == step then [e] else [])
  }

  lemma {:induction false} PartAppend(a: seq<Entry>, b: seq<Entry>, run: string, step: Option<string>)
    ensures Part(a + b, run, step) == Part(a, run, step) + Part(b, run, step)
  {
    if |b| == 0 {
      assert a + b == a;
    } else {
      assert (a + b)[..|a + b| - 1] == a + b[..|b| - 1];
      PartAppend(a, b[..|b| - 1], run, step);
    }
  }

  lemma PartOne(e: Entry, run: string, step: Option<string>)
    ensures Part([e], run, step) == if e.run == run && e.step == step then [e] else []
  {
    assert [e][..0] == [];
  }

  lemma {:induction false} PartOfStranger(log: seq<Entry>, run: string, step: Option<string>)
    requires forall e :: e in log ==> e.run != run || e.step != step
    ensures Part(log, run, step) == []
  {
    if |log| > 0 {
      PartOfStranger(log[..|log| - 1], run, step);
      assert log[|log| - 1] in log;
    }
  }

  // ----- entries the machines allow -----

  /** The drawn form of the run machine: which state changes an event name may stand for. */
  predicate RunMoves(a: RunState, b: RunState, k: Kind) {
    match k
    case KRunStarted => a.RunQueued? && b.RunRunning?
    case KRunDeferred => a.RunQueued? && b.RunQueued?
    case KRunSucceeded => a.RunRunning? && b.RunSucceeded?
    case KRunFailed => a.RunRunning? && b.RunFailed?
    case KRunCancelled => (a.RunQueued? || a.RunRunning?) && b.RunCancelled?
    case KRunRequeued => a.RunRunning? && b.RunQueued?
    case KRunPoisoned => a.RunRunning? && b.RunFailed?
    case KRunReopened => a.IsTerminal() && b.RunQueued?
    case _ => false
  }

  predicate StepMoves(a: StepState, b: StepState, k: Kind) {
    match k
    case KStepStarted => a.StepPending? && b.StepRunning?
    case KStepSkipped => a.StepPending? && b.StepSkipped?
    case KStepSucceeded => a.StepRunning? && b.StepSucceeded?
    case KStepFailed => a.StepRunning? && b.StepFailed?
    case KStepRetryScheduled => a.StepRunning? && b.StepPending?
    case KStepCancelled => a.StepRunning? && b.StepCancelled?
    case _ => false
  }

  /** The drawn form is exactly what the run machine does under some event and some guards. */
  lemma RunMovesExact(a: RunState, b: RunState, k: Kind)
    ensures RunMoves(a, b, k) <==>
      exists ev, g :: NextRunState(a, ev, g).Moved? && NextRunState(a, ev, g).next == b
                      && EmitKind(NextRunState(a, ev, g).effects) == Some(k)
  {
    if RunMoves(a, b, k) {
      var w := RunWitness(a, k);
      RunMoveWitness(a, w.event, w.guards);
      RunMoveObeys(a, w.event, w.guards);
    }
    forall ev, g | NextRunState(a, ev, g).Moved? ensures RunMoves(a, NextRunState(a, ev, g).next, KindOf(NextRunState(a, ev, g).effects)) {
      RunMoveWitness(a, ev, g);
    }
  }

  lemma StepMovesExact(a: StepState, b: StepState, k: Kind)
    ensures StepMoves(a, b, k) <==>
      exists ev, g :: NextStepState(a, ev, g).Moved? && NextStepState(a, ev, g).next == b
                      && EmitKind(NextStepState(a, ev, g).effects) == Some(k)
  {
    if StepMoves(a, b, k) {
      var w := StepWitness(a, k);
      StepMoveWitness(a, w.event, w.guards);
      StepMoveObeys(a, w.event, w.guards);
    }
    forall ev, g | NextStepState(a, ev, g).Moved? ensures StepMoves(a, NextStepState(a, ev, g).next, KindOf(NextStepState(a, ev, g).effects)) {
      StepMoveWitness(a, ev, g);
    }
  }

  /** An input that makes the run machine emit k from state a. */
  function RunWitness(a: RunState, k: Kind): Input {
    var g := NO_GUARDS.(reasonCode := RunCodeSucceeded, leaseValid := true, allStepsTerminal := true, deferReason := "x");
    match k
    case KRunStarted => Input(EvClaim, g)
    case KRunDeferred => Input(EvDeferred, g)
    case KRunSucceeded => Input(EvAllStepsDone, g)
    case KRunFailed => Input(EvAllStepsDone, g.(anyStepFailed := true))
    case KRunCancelled => if a.RunQueued? then Input(EvClaim, g.(cancelRequested := true)) else Input(EvCancelObserved, g)
    case KRunRequeued => Input(EvLeaseExpired, g.(leaseValid := false, crashBudgetLeft := true))
    case KRunPoisoned => Input(EvLeaseExpired, g.(leaseValid := false))
    case _ => Input(EvOperatorRetry, g)
  }

  function StepWitness(a: StepState, k: Kind): Input {
    var g := NO_GUARDS.(reasonCode := StepCodeSucceeded);
    match k
    case KStepStarted => Input(EvStepStarted, g)
    case KStepSkipped => Input(EvUpstreamFailed, g)
    case KStepSucceeded => Input(EvStepSucceeded, g)
    case KStepFailed => Input(EvStepFailed, g)
    case KStepRetryScheduled => Input(EvStepFailed, g.(attemptsLeft := true))
    case _ => Input(EvCancelObserved, g)
  }

  /** The run events some store method writes; the others belong to the reaper and the operator. */
  predicate FiredByStore(k: Kind) {
    !k.KRunDeferred? && !k.KRunRequeued? && !k.KRunPoisoned? && !k.KRunReopened?
  }

  predicate Legal(e: Entry) {
    && e.from.Some?
    && match (e.from.value, e.to)
       case (OfRun(a), OfRun(b)) => e.step.None? && RunMoves(a, b, e.kind) && FiredByStore(e.kind)
       case (OfStep(a), OfStep(b)) => e.step.Some? && StepMoves(a, b, e.kind)
       case _ => false
  }

  predicate Chained(p: seq<Entry>) {
    forall i :: 0 < i < |p| ==> p[i].from == Some(p[i - 1].to)
  }

  function StartedCount(p: seq<Entry>): nat {
    if |p| == 0 then 0
    else StartedCount(p[..|p| - 1]) + if p[|p| - 1].kind.KStepStarted? then 1 else 0
  }

  ghost predicate RunPartOk(p: seq<Entry>, st: RunState) {
    && |p| > 0
    && p[0].from.None? && p[0].to == OfRun(RunQueued) && p[0].kind.KRunQueued?
    && Chained(p) && p[|p| - 1].to == OfRun(st)
    && forall i :: 0 < i < |p| ==> Legal(p[i])
  }

  ghost predicate StepPartOk(p: seq<Entry>, s: StepRow) {
    && (p == [] ==> s.state.StepPending?)
    && (p != [] ==> p[0].from == Some(OfStep(StepPending)) && p[|p| - 1].to == OfStep(s.state))
    && Chained(p) && (forall i :: 0 <= i < |p| ==> Legal(p[i]))
    && StartedCount(p) == s.attempt
  }

  ghost predicate KnownStep(row: RunRow, step: Option<string>) {
    step.Some? ==> exists i :: 0 <= i < |row.steps| && row.steps[i].name == step.value
  }

  /** The log agrees with the rows of one run. */
  ghost predicate LogOk(id: string, row: RunRow, log: seq<Entry>) {
    && RunPartOk(Part(log, id, None), row.state)
    && (forall i :: 0 <= i < |row.steps| ==> StepPartOk(Part(log, id, Some(row.steps[i].name)), row.steps[i]))
    && (forall e :: e in log && e.run == id ==> KnownStep(row, e.step))
  }

  // ----- one write, one event -----

  predicate SameShape(row: RunRow, row': RunRow) {
    && |row'.steps| == |row.steps| && row'.deps == row.deps
    && forall i :: 0 <= i < |row.steps| ==>
         row'.steps[i].name == row.steps[i].name && row'.steps[i].maxAttempts == row.steps[i].maxAttempts
  }

  ghost predicate RunDelta(p: seq<Entry>, a: RunState, b: RunState) {
    (p == [] && a == b) || (|p| == 1 && Legal(p[0]) && p[0].from == Some(OfRun(a)) && p[0].to == OfRun(b))
  }

  ghost predicate StepDelta(p: seq<Entry>, s: StepRow, s': StepRow) {
    || (p == [] && s'.state == s.state && s'.attempt == s.attempt)
    || (|p| == 1 && Legal(p[0]) && p[0].from == Some(OfStep(s.state)) && p[0].to == OfStep(s'.state)
        && s'.attempt == s.attempt + if p[0].kind.KStepStarted? then 1 else 0)
  }

  /** Every state that changed carries exactly one legal event, and nothing else carries any. */
  ghost predicate Follows(id: string, row: RunRow, evs: seq<Entry>, row': RunRow) {
    && SameShape(row, row')
    && RunDelta(Part(evs, id, None), row.state, row'.state)
    && (forall i :: 0 <= i < |row.steps| ==>
          StepDelta(Part(evs, id, Some(row.steps[i].name)), row.steps[i], row'.steps[i]))
    && (forall e :: e in evs ==> e.run == id && KnownStep(row, e.step))
  }

  lemma RunMoveWitness(a: RunState, ev: Event, g: Guards)
    requires NextRunState(a, ev, g).Moved?
    ensures var m := NextRunState(a, ev, g);
      && RunMoves(a, m.next, KindOf(m.effects))
      && (ev.EvClaim? || ev.EvAllStepsDone? || ev.EvCancelObserved? ==> FiredByStore(KindOf(m.effects)))
  {
    var fx := NextRunState(a, ev, g).effects;
    EmitKindOfEmitsOnly(fx, fx[|fx| - 1].kind);
  }

  lemma StepMoveWitness(a: StepState, ev: Event, g: Guards)
    requires NextStepState(a, ev, g).Moved?
    ensures var m := NextStepState(a, ev, g);
      StepMoves(a, m.next, KindOf(m.effects)) && (KindOf(m.effects).KStepStarted? <==> ev.EvStepStarted?)
  {
    var fx := NextStepState(a, ev, g).effects;
    EmitKindOfEmitsOnly(fx, fx[|fx| - 1].kind);
  }

  // ----- skip batches -----

  ghost predicate Distinct(names: seq<string>) {
    forall j, k :: 0 <= j < k < |names| ==> names[j] != names[k]
  }

  lemma {:induction false} PendingNamesKnown(steps: seq<StepRow>, n: string) returns (i: nat)
    requires n in PendingNames(steps)
    ensures i < |steps| && steps[i].name == n && steps[i].state.StepPending?
  {
    if steps[0].state.StepPending? && steps[0].name == n {
      i := 0;
    } else {
      var k := PendingNamesKnown(steps[1..], n);
      i := k + 1;
    }
  }

  lemma {:induction false} PendingNamesHas(steps: seq<StepRow>, i: nat)
    requires i < |steps| && UniqueNames(steps)
    ensures steps[i].name in PendingNames(steps) <==> steps[i].state.StepPending?
  {
    if i > 0 {
      assert UniqueNames(steps[1..]);
      assert steps[1..][i - 1] == steps[i];
      PendingNamesHas(steps[1..], i - 1);
    } else if steps[0].name in PendingNames(steps[1..]) {
      var k := PendingNamesKnown(steps[1..], steps[0].name);
    }
  }

  lemma {:induction false} PendingNamesDistinct(steps: seq<StepRow>)
    requires UniqueNames(steps)
    ensures Distinct(PendingNames(steps))
  {
    if |steps| > 0 {
      assert UniqueNames(steps[1..]);
      PendingNamesDistinct(steps[1..]);
      var tail := PendingNames(steps[1..]);
      forall k | 0 <= k < |tail| ensures tail[k] != steps[0].name {
        var i := PendingNamesKnown(steps[1..], tail[k]);
        assert steps[i + 1].name == tail[k];
      }
    }
  }

  lemma PartPush(a: seq<Entry>, e: Entry, run: string, step: Option<string>)
    ensures Part(a + [e], run, step) == if e.run == run && e.step == step then Part(a, run, step) + [e] else Part(a, run, step)
  {
    assert (a + [e])[..|a|] == a;
  }

  lemma NoSkips(id: string, names: seq<string>, code: Code, step: Option<string>)
    requires |names| == 0
    ensures Part(SkipEntries(id, names, code), id, step) == []
  {
  }

  lemma SkipsTail(id: string, names: seq<string>, code: Code)
    requires |names| > 0 && Distinct(names)
    ensures var init, tail := names[..|names| - 1], names[|names| - 1];
      && Distinct(init) && names == init + [tail] && tail !in init
      && SkipEntries(id, names, code) == SkipEntries(id, init, code) + [SkipEntry(id, tail, code)]
  {
  }

  lemma {:induction false} PartOfSkips(id: string, names: seq<string>, code: Code, n: string)
    requires Distinct(names)
    ensures Part(SkipEntries(id, names, code), id, Some(n)) == if n in names then [SkipEntry(id, n, code)] else []
    ensures Part(SkipEntries(id, names, code), id, None) == []
  {
    hide Part, SkipEntries, Distinct;
    if |names| == 0 {
      NoSkips(id, names, code, Some(n));
      NoSkips(id, names, code, None);
    } else {
      var init, tail := names[..|names| - 1], names[|names| - 1];
      SkipsTail(id, names, code);
      PartOfSkips(id, init, code, n);
      PartPush(SkipEntries(id, init, code), SkipEntry(id, tail, code), id, Some(n));
      PartPush(SkipEntries(id, init, code), SkipEntry(id, tail, code), id, None);
    }
  }

  lemma PartOfClosing(id: string, names: seq<string>, code: Code, last: Entry, n: string)
    requires Distinct(names) && last.run == id && last.step.None?
    ensures Part(SkipEntries(id, names, code) + [last], id, Some(n)) == if n in names then [SkipEntry(id, n, code)] else []
    ensures Part(SkipEntries(id, names, code) + [last], id, None) == [last]
  {
    hide SkipEntries, Distinct, Part;
    var skips := SkipEntries(id, names, code);
    PartOfSkips(id, names, code, n);
    PartAppend(skips, [last], id, Some(n));
    PartAppend(skips, [last], id, None);
    PartOne(last, id, Some(n));
    PartOne(last, id, None);
  }

  /** In a closing batch every pending step gets its own skip event, and no other step gets any. */
  lemma ClosingStep(id: string, row: RunRow, code: Code, last: Entry, i: nat)
    requires UniqueNames(row.steps) && i < |row.steps|
    requires last.run == id && last.step.None? && !code.NoCode?
    ensures StepDelta(Part(SkipEntries(id, PendingNames(row.steps), code) + [last], id, Some(row.steps[i].name)),
                      row.steps[i], SkipRow(row.steps[i], code))
  {
    hide Distinct, UniqueNames, PendingNames, Part, SkipEntries;
    var n, names := row.steps[i].name, PendingNames(row.steps);
    PendingNamesDistinct(row.steps);
    PendingNamesHas(row.steps, i);
    PartOfClosing(id, names, code, last, n);
  }

  lemma {:induction false} SkipEntriesName(id: string, names: seq<string>, code: Code, e: Entry)
    requires e in SkipEntries(id, names, code)
    ensures e.run == id && e.step.Some? && e.step.value in names
  {
    if e != SkipEntry(id, names[|names| - 1], code) { SkipEntriesName(id, names[..|names| - 1], code, e); }
  }

  lemma ClosingKnown(id: string, row: RunRow, code: Code, e: Entry)
    requires e in SkipEntries(id, PendingNames(row.steps), code)
    ensures e.run == id && KnownStep(row, e.step)
  {
    SkipEntriesName(id, PendingNames(row.steps), code, e);
    var i := PendingNamesKnown(row.steps, e.step.value);
  }

  /** Closing a run over its pending steps: one event a step and one for the run. */
  lemma ClosingFollows(id: string, row: RunRow, code: Code, last: Entry, row': RunRow)
    requires UniqueNames(row.steps)
    requires last.run == id && last.step.None? && Legal(last)
    requires last.from == Some(OfRun(row.state)) && last.to == OfRun(row'.state)
    requires row'.deps == row.deps && row'.steps == SkipRows(row.steps, code) && !code.NoCode?
    ensures Follows(id, row, SkipEntries(id, PendingNames(row.steps), code) + [last], row')
  {
    hide Distinct, UniqueNames, PendingNames, Part, SkipEntries, StepDelta;
    var names := PendingNames(row.steps);
    var skips := SkipEntries(id, names, code);
    PendingNamesDistinct(row.steps);
    PartOfClosing(id, names, code, last, "");
    forall i | 0 <= i < |row.steps|
      ensures StepDelta(Part(skips + [last], id, Some(row.steps[i].name)), row.steps[i], row'.steps[i])
    {
      ClosingStep(id, row, code, last, i);
    }
    forall e | e in skips + [last] ensures e.run == id && KnownStep(row, e.step) {
      if e in skips { ClosingKnown(id, row, code, e); }
    }
  }

  /** A transaction that changes one step and writes one entry about it. */
  lemma StepWriteFollows(id: string, row: RunRow, i: nat, s': StepRow, e: Entry)
    requires UniqueNames(row.steps) && i < |row.steps|
    requires e.run == id && e.step == Some(row.steps[i].name) && Legal(e)
    requires e.from == Some(OfStep(row.steps[i].state)) && e.to == OfStep(s'.state)
    requires s'.name == row.steps[i].name && s'.maxAttempts == row.steps[i].maxAttempts
    requires s'.attempt == row.steps[i].attempt + if e.kind.KStepStarted? then 1 else 0
    ensures Follows(id, row, [e], row.(steps := row.steps[i := s']))
  {
    hide Part, Legal;
    PartOne(e, id, None);
    forall j | 0 <= j < |row.steps| ensures Part([e], id, Some(row.steps[j].name)) == if i == j then [e] else [] {
      PartOne(e, id, Some(row.steps[j].name));
      assert i < j || j < i ==> row.steps[i].name != row.steps[j].name;
    }
  }

  lemma RunWriteFollows(id: string, row: RunRow, row': RunRow, e: Entry)
    requires e.run == id && e.step.None? && Legal(e)
    requires e.from == Some(OfRun(row.state)) && e.to == OfRun(row'.state)
    requires row'.steps == row.steps && row'.deps == row.deps
    ensures Follows(id, row, [e], row')
  {
    hide Part, Legal;
    PartOne(e, id, None);
    forall j | 0 <= j < |row.steps| ensures Part([e], id, Some(row.steps[j].name)) == [] {
      PartOne(e, id, Some(row.steps[j].name));
    }
  }

  lemma ClaimFollows(id: string, row: RunRow, owner: string, ttl: int, now: int)
    requires UniqueNames(row.steps) && ClaimTx(id, row, owner, ttl, now).Commit?
    ensures var t := ClaimTx(id, row, owner, ttl, now); Follows(id, row, t.log, t.row)
  {
    var t := ClaimTx(id, row, owner, ttl, now);
    RunMoveWitness(row.state, EvClaim, ClaimGuards(row, now));
    if t.out.RunRunning? {
      RunWriteFollows(id, row, t.row, t.log[0]);
    } else {
      ClosingFollows(id, row, StepCodeCancelled, t.log[|t.log| - 1], t.row);
    }
  }

  lemma StartFollows(id: string, row: RunRow, name: string)
    requires UniqueNames(row.steps) && StartTx(id, row, name).Commit?
    ensures var t := StartTx(id, row, name); Follows(id, row, t.log, t.row)
  {
    var t := StartTx(id, row, name);
    var i := Find(row.steps, name).value;
    StepMoveWitness(row.steps[i].state, EvStepStarted, NO_GUARDS);
    StepWriteFollows(id, row, i, t.row.steps[i], t.log[0]);
  }

  lemma RecordFollows(id: string, row: RunRow, name: string, out: Outcome, now: int)
    requires UniqueNames(row.steps) && RecordTx(id, row, name, out, now).Commit? && !out.event.EvStepStarted?
    ensures var t := RecordTx(id, row, name, out, now); Follows(id, row, t.log, t.row)
  {
    var t := RecordTx(id, row, name, out, now);
    var i := Find(row.steps, name).value;
    var s := row.steps[i];
    StepMoveWitness(s.state, out.event, NO_GUARDS.(reasonCode := out.reason, attemptsLeft := s.attempt < s.maxAttempts));
    StepWriteFollows(id, row, i, t.row.steps[i], t.log[0]);
  }

  lemma FinishFollows(id: string, row: RunRow, owner: string, code: Code, now: int)
    requires FinishTx(id, row, owner, code, now).Commit?
    ensures var t := FinishTx(id, row, owner, code, now); Follows(id, row, t.log, t.row)
  {
    var t := FinishTx(id, row, owner, code, now);
    RunMoveWitness(row.state, EvAllStepsDone, FinishGuards(row, owner, code, now));
    RunWriteFollows(id, row, t.row, t.log[0]);
  }

  lemma ObserveFollows(id: string, row: RunRow, owner: string, actor: string, code: Code, now: int)
    requires UniqueNames(row.steps) && ObserveTx(id, row, owner, actor, code, now).Commit?
    ensures var t := ObserveTx(id, row, owner, actor, code, now); Follows(id, row, t.log, t.row)
  {
    var t := ObserveTx(id, row, owner, actor, code, now);
    RunMoveWitness(row.state, EvCancelObserved, NO_GUARDS.(leaseValid := LeaseValid(row, owner, now), reasonCode := code));
    ClosingFollows(id, row, StepCodeCancelled, t.log[|t.log| - 1], t.row);
  }

  // ----- the log keeps agreeing with the rows -----

  lemma StartedCountAppend(p: seq<Entry>, e: Entry)
    ensures StartedCount(p + [e]) == StartedCount(p) + if e.kind.KStepStarted? then 1 else 0
  {
    assert (p + [e])[..|p + [e]| - 1] == p;
  }

  lemma RunPartExtends(p: seq<Entry>, q: seq<Entry>, a: RunState, b: RunState)
    requires RunPartOk(p, a) && RunDelta(q, a, b)
    ensures RunPartOk(p + q, b)
  {
    if q == [] { assert p + q == p; }
  }

  lemma StepPartExtends(p: seq<Entry>, q: seq<Entry>, s: StepRow, s': StepRow)
    requires StepPartOk(p, s) && StepDelta(q, s, s')
    ensures StepPartOk(p + q, s')
  {
    if q == [] {
      assert p + q == p;
    } else {
      assert q == [q[0]];
      StartedCountAppend(p, q[0]);
    }
  }

  lemma LogExtends(id: string, row: RunRow, log: seq<Entry>, evs: seq<Entry>, row': RunRow)
    requires LogOk(id, row, log) && Follows(id, row, evs, row')
    ensures LogOk(id, row', log + evs)
  {
    PartAppend(log, evs, id, None);
    RunPartExtends(Part(log, id, None), Part(evs, id, None), row.state, row'.state);
    forall i | 0 <= i < |row'.steps|
      ensures StepPartOk(Part(log + evs, id, Some(row'.steps[i].name)), row'.steps[i])
    {
      var key := Some(row.steps[i].name);
      PartAppend(log, evs, id, key);
      StepPartExtends(Part(log, id, key), Part(evs, id, key), row.steps[i], row'.steps[i]);
    }
    forall e | e in log + evs && e.run == id ensures KnownStep(row', e.step) {
      assert KnownStep(row, e.step);
      if e.step.Some? {
        var i :| 0 <= i < |row.steps| && row.steps[i].name == e.step.value;
        assert row'.steps[i].name == e.step.value;
      }
    }
  }

  /** Another run's events leave this run's history alone. */
  lemma LogIgnores(id: string, row: RunRow, log: seq<Entry>, evs: seq<Entry>)
    requires LogOk(id, row, log)
    requires forall e :: e in evs ==> e.run != id
    ensures LogOk(id, row, log + evs)
  {
    forall step: Option<string> ensures Part(log + evs, id, step) == Part(log, id, step) {
      PartAppend(log, evs, id, step);
      PartOfStranger(evs, id, step);
      assert Part(log, id, step) + [] == Part(log, id, step);
    }
  }
}
