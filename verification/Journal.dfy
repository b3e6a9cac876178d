/**
 * What the rows and the log of a run say of why and by whom: the events each transaction writes, word for
 * word, and the reasons and leases that stand in every history.
 */
module Journal {
  import opened Wrappers
  import opened Machine
  import opened Tables
  import opened Invariant
  import opened Protocol
  import opened Safety
  import A = Answers

  // ----- one transaction -----

  /** The pending steps, each once and from the first to the last. */
  ghost predicate Picks(steps: seq<StepRow>, ix: seq<nat>) {
    && (forall k :: 0 <= k < |ix| ==> ix[k] < |steps| && steps[ix[k]].state == StepPending)
    && (forall j, k :: 0 <= j < k < |ix| ==> ix[j] < ix[k])
    && (forall i: nat :: i < |steps| && steps[i].state == StepPending ==> i in ix)
  }

  lemma {:induction false} PendingInOrder(steps: seq<StepRow>) returns (ix: seq<nat>)
    ensures Picks(steps, ix) && |ix| == |PendingNames(steps)|
    ensures forall k :: 0 <= k < |ix| ==> PendingNames(steps)[k] == steps[ix[k]].name
    decreases |steps|
  {
    ix := [];
    if |steps| > 0 {
      var rest := PendingInOrder(steps[1..]);
      ix := Picked(steps, rest);
      var first: seq<string> := if steps[0].state == StepPending then [steps[0].name] else [];
      assert PendingNames(steps) == first + PendingNames(steps[1..]);
      hide Picks, PendingNames;
    }
  }

  /** The picks of the rest, one further on, after the first step when that is pending too. */
  lemma Picked(steps: seq<StepRow>, rest: seq<nat>) returns (ix: seq<nat>)
    requires |steps| > 0 && Picks(steps[1..], rest)
    ensures Picks(steps, ix)
    ensures var d := if steps[0].state == StepPending then 1 else 0;
      && |ix| == d + |rest| && (d == 1 ==> ix[0] == 0)
      && forall k :: 0 <= k < |rest| ==> ix[d + k] < |steps| && steps[ix[d + k]] == steps[1..][rest[k]]
  {
    var d: nat := if steps[0].state == StepPending then 1 else 0;
    ix := seq(d + |rest|, k requires 0 <= k < d + |rest| => if k < d then 0 else rest[k - d] + 1);
    assert forall k :: 0 <= k < |rest| ==> ix[d + k] == rest[k] + 1;
    PickedAll(steps, rest, ix, d);
  }

  lemma PickedAll(steps: seq<StepRow>, rest: seq<nat>, ix: seq<nat>, d: nat)
    requires |steps| > 0 && Picks(steps[1..], rest) && |ix| == d + |rest|
    requires d == if steps[0].state == StepPending then 1 else 0
    requires d == 1 ==> ix[0] == 0
    requires forall k :: 0 <= k < |rest| ==> ix[d + k] == rest[k] + 1
    ensures Picks(steps, ix)
    ensures forall k :: 0 <= k < |rest| ==> ix[d + k] < |steps| && steps[ix[d + k]] == steps[1..][rest[k]]
  {
    hide Picks;
    forall k | 0 <= k < |ix| ensures ix[k] < |steps| && steps[ix[k]].state == StepPending && (k >= d ==> ix[k] > 0) {
      if k >= d { OnePicked(steps, rest, ix, d, k - d); }
    }
    forall k | 0 <= k < |rest| ensures ix[d + k] < |steps| && steps[ix[d + k]] == steps[1..][rest[k]] { OnePicked(steps, rest, ix, d, k); }
    forall j, k | d <= j < k < |ix| ensures ix[j] < ix[k] { TwoPicked(steps, rest, ix, d, j - d, k - d); }
    forall i: nat | i < |steps| && steps[i].state == StepPending ensures i in ix { AtLast(steps, rest, ix, d, i); }
    assert forall j, k :: 0 <= j < k < |ix| ==> ix[j] < ix[k];
    ArePicks(steps, ix);
  }

  lemma ArePicks(steps: seq<StepRow>, ix: seq<nat>)
    requires forall k :: 0 <= k < |ix| ==> ix[k] < |steps| && steps[ix[k]].state == StepPending
    requires forall j, k :: 0 <= j < k < |ix| ==> ix[j] < ix[k]
    requires forall i: nat :: i < |steps| && steps[i].state == StepPending ==> i in ix
    ensures Picks(steps, ix)
  {
  }

  lemma TwoPicked(steps: seq<StepRow>, rest: seq<nat>, ix: seq<nat>, d: nat, j: nat, k: nat)
    requires |steps| > 0 && Picks(steps[1..], rest) && |ix| == d + |rest| && j < k < |rest|
    requires ix[d + j] == rest[j] + 1 && ix[d + k] == rest[k] + 1
    ensures ix[d + j] < ix[d + k]
  {
  }

  lemma OnePicked(steps: seq<StepRow>, rest: seq<nat>, ix: seq<nat>, d: nat, k: nat)
    requires |steps| > 0 && Picks(steps[1..], rest) && |ix| == d + |rest| && k < |rest| && ix[d + k] == rest[k] + 1
    ensures 0 < ix[d + k] < |steps| && steps[ix[d + k]] == steps[1..][rest[k]] && steps[ix[d + k]].state == StepPending
  {
    assert steps[1..][rest[k]] == steps[ix[d + k]];
  }

  lemma AtLast(steps: seq<StepRow>, rest: seq<nat>, ix: seq<nat>, d: nat, i: nat)
    requires |steps| > 0 && Picks(steps[1..], rest) && |ix| == d + |rest| && i < |steps| && steps[i].state == StepPending
    requires d == if steps[0].state == StepPending then 1 else 0
    requires d == 1 ==> ix[0] == 0
    requires forall k :: 0 <= k < |rest| ==> ix[d + k] == rest[k] + 1
    ensures i in ix
  {
    if i > 0 {
      var j: nat := i - 1;
      assert steps[1..][j] == steps[i];
      var k :| 0 <= k < |rest| && rest[k] == j;
      assert ix[d + k] == i;
    } else {
      assert ix[0] == 0;
    }
  }

  predicate IsSkip(e: Entry, id: string, name: string, code: Code) {
    e == Entry(id, Some(name), KStepSkipped, Some(OfStep(StepPending)), OfStep(StepSkipped), code, "system")
  }

  /** A pending step leaves as skipped, because of the request; any other stays as it is. */
  function LeftOut(s: StepRow): StepRow {
    match s.state
    case StepPending => StepRow(s.name, StepSkipped, s.attempt, s.maxAttempts, s.nextAttemptAt, StepCodeCancelled)
    case _ => s
  }

  lemma {:induction false} SkipsInOrder(id: string, names: seq<string>, code: Code)
    ensures |SkipEntries(id, names, code)| == |names|
    ensures forall k :: 0 <= k < |names| ==> IsSkip(SkipEntries(id, names, code)[k], id, names[k], code)
    decreases |names|
  {
    if |names| > 0 { SkipsInOrder(id, names[..|names| - 1], code); }
  }

  /** A run closed by a request: its pending steps leave one after the other, then the run by whoever asked. */
  ghost predicate Closes(id: string, row: RunRow, t: Tx, ix: seq<nat>, asker: string) {
    && t.Commit? && Picks(row.steps, ix) && |t.log| == |ix| + 1
    && (forall k :: 0 <= k < |ix| ==> IsSkip(t.log[k], id, row.steps[ix[k]].name, StepCodeCancelled))
    && t.log[|ix|] == Entry(id, None, KRunCancelled, Some(OfRun(row.state)), OfRun(RunCancelled), RunCodeCancelledManual,
                            if asker == "" then "system" else asker)
    && |t.row.steps| == |row.steps|
    && (forall i :: 0 <= i < |row.steps| ==> t.row.steps[i] == LeftOut(row.steps[i]))
    && t.row.state == RunCancelled && t.row.reason == RunCodeCancelledManual
    && t.row.leaseEpoch == row.leaseEpoch
  }

  lemma ClaimWrites(id: string, row: RunRow, owner: string, ttl: int, now: int) returns (ix: seq<nat>)
    requires ClaimTx(id, row, owner, ttl, now).Commit?
    ensures var t := ClaimTx(id, row, owner, ttl, now);
      if row.cancelAt.None? then
        t.log == [Entry(id, None, KRunStarted, Some(OfRun(RunQueued)), OfRun(RunRunning), NoCode, if owner == "" then "system" else owner)]
      else Closes(id, row, t, ix, if row.cancelBy.Some? then row.cancelBy.value else "") && t.row.leaseOwner == row.leaseOwner
           && t.row.leaseExpiresAt == row.leaseExpiresAt
  {
    ix := PendingInOrder(row.steps);
    SkipsInOrder(id, PendingNames(row.steps), StepCodeCancelled);
    hide PendingNames, SkipEntries, Picks;
  }

  lemma ObserveWrites(id: string, row: RunRow, owner: string, actor: string, now: int) returns (ix: seq<nat>)
    requires ObserveTx(id, row, owner, actor, RunCodeCancelledManual, now).Commit?
    ensures var t := ObserveTx(id, row, owner, actor, RunCodeCancelledManual, now);
      Closes(id, row, t, ix, actor) && t.row.leaseOwner == "" && t.row.leaseExpiresAt.None?
  {
    ix := PendingInOrder(row.steps);
    SkipsInOrder(id, PendingNames(row.steps), StepCodeCancelled);
    hide PendingNames, SkipEntries, Picks;
  }

  /** The one event of a step's new state. */
  function Becoming(st: StepState): Kind {
    match st
    case StepPending => KStepRetryScheduled
    case StepRunning => KStepStarted
    case StepSucceeded => KStepSucceeded
    case StepFailed => KStepFailed
    case StepSkipped => KStepSkipped
    case StepCancelled => KStepCancelled
  }

  /** The event of a recorded outcome says what the row says: from which state to which, and why. */
  lemma RecordWrites(id: string, row: RunRow, name: string, out: Outcome, now: int)
    requires RecordTx(id, row, name, out, now).Commit?
    ensures var t := RecordTx(id, row, name, out, now); var i := Find(row.steps, name);
      && i.Some? && |t.row.steps| == |row.steps|
      && var s, s' := row.steps[i.value], t.row.steps[i.value];
         && t.log == [Entry(id, Some(name), Becoming(s'.state), Some(OfStep(s.state)), OfStep(s'.state),
                            if s'.state == StepRunning then out.reason else s'.reason, "system")]
         && (out.retry.None? || s'.state != StepPending ==> s'.reason == out.reason)
         && (s'.state == StepPending <==> s'.nextAttemptAt.Some?)
  {
    hide Find;
  }

  lemma StartWrites(id: string, row: RunRow, name: string)
    requires StartTx(id, row, name).Commit?
    ensures StartTx(id, row, name).log ==
      [Entry(id, Some(name), KStepStarted, Some(OfStep(StepPending)), OfStep(StepRunning), NoCode, "system")]
  {
    hide Find;
  }

  lemma FinishWrites(id: string, row: RunRow, owner: string, code: Code, now: int)
    requires FinishTx(id, row, owner, code, now).Commit?
    ensures var t := FinishTx(id, row, owner, code, now);
      && t.log == [Entry(id, None, if t.row.state == RunFailed then KRunFailed else KRunSucceeded,
                         Some(OfRun(RunRunning)), OfRun(t.row.state), code, "system")]
      && t.row == row.(state := if AnyFailedOrCancelled(row.steps) then RunFailed else RunSucceeded, reason := code,
                       leaseOwner := "", leaseExpiresAt := None)
  {
    hide AnyFailedOrCancelled, AllTerminal, LeaseValid;
  }

  /** The reason a run is finished with: its deadline, else what the first failed or cancelled step says, else success. */
  lemma {:induction false} FinishCodeExactly(row: RunRow, timedOut: bool, i: nat)
    requires forall h: nat :: h < i && h < |row.steps| ==> row.steps[h].state != StepFailed && row.steps[h].state != StepCancelled
    ensures timedOut ==> FinishCode(row, timedOut) == RunCodeTimedOut
    ensures !timedOut && i < |row.steps| && row.steps[i].state == StepFailed ==> FinishCode(row, timedOut) == RunCodeFailedStep
    ensures !timedOut && i < |row.steps| && row.steps[i].state == StepCancelled ==> FinishCode(row, timedOut) == RunCodeCancelledManual
    ensures !timedOut && i >= |row.steps| ==> FinishCode(row, timedOut) == RunCodeSucceeded
  {
    FirstBadAt(row.steps, i);
  }

  lemma {:induction false} FirstBadAt(steps: seq<StepRow>, i: nat)
    requires forall h: nat :: h < i && h < |steps| ==> steps[h].state != StepFailed && steps[h].state != StepCancelled
    ensures i < |steps| && (steps[i].state == StepFailed || steps[i].state == StepCancelled) ==> FirstBad(steps) == Some(steps[i].state)
    ensures i >= |steps| ==> FirstBad(steps) == None
    decreases |steps|
  {
    if |steps| > 0 && i > 0 { FirstBadAt(steps[1..], i - 1); }
  }

  // ----- what stands in every history -----

  /** Why a run is where it is, why a step left without running, and whose the run is. */
  ghost predicate Reasoned(row: RunRow) {
    && (match row.state
        case RunQueued => row.reason == NoCode && row.leaseEpoch == 0
        case RunRunning => row.reason == NoCode && row.leaseEpoch == 1
        case RunCancelled => row.reason == RunCodeCancelledManual && row.leaseEpoch <= 1
        case RunSucceeded => (row.reason == RunCodeSucceeded || row.reason == RunCodeTimedOut) && row.leaseEpoch == 1
        case RunFailed => (row.reason == RunCodeFailedStep || row.reason == RunCodeTimedOut) && row.leaseEpoch == 1)
    && (if row.state == RunRunning then row.leaseExpiresAt.Some? else row.leaseOwner == "" && row.leaseExpiresAt.None?)
    && forall i: nat :: i < |row.steps| ==> StepReasoned(row, row.steps[i])
  }

  ghost predicate StepReasoned(row: RunRow, s: StepRow) {
    && (s.state == StepPending && s.attempt == 0 ==> s.reason == NoCode)
    && (s.state == StepSkipped ==> s.reason == if row.state == RunCancelled then StepCodeCancelled else StepCodeSkippedUpstream)
  }

  /** What one event may say. */
  ghost predicate Says(e: Entry) {
    e.actor != "" &&
    match e.kind
    case KRunQueued => e.step.None? && e.from.None? && e.to == OfRun(RunQueued) && e.reason == NoCode
    case KRunStarted => e.step.None? && e.from == Some(OfRun(RunQueued)) && e.to == OfRun(RunRunning) && e.reason == NoCode
    case KRunCancelled =>
      && e.step.None? && (e.from == Some(OfRun(RunQueued)) || e.from == Some(OfRun(RunRunning)))
      && e.to == OfRun(RunCancelled) && e.reason == RunCodeCancelledManual
    case KRunSucceeded =>
      && e.step.None? && e.from == Some(OfRun(RunRunning)) && e.to == OfRun(RunSucceeded) && e.actor == "system"
      && (e.reason == RunCodeSucceeded || e.reason == RunCodeTimedOut)
    case KRunFailed =>
      && e.step.None? && e.from == Some(OfRun(RunRunning)) && e.to == OfRun(RunFailed) && e.actor == "system"
      && (e.reason == RunCodeFailedStep || e.reason == RunCodeTimedOut)
    case KStepStarted => OfOneStep(e, StepPending, StepRunning) && e.reason == NoCode
    case KStepSucceeded => OfOneStep(e, StepRunning, StepSucceeded) && e.reason == StepCodeSucceeded
    case KStepCancelled => OfOneStep(e, StepRunning, StepCancelled) && e.reason == StepCodeCancelled
    case KStepRetryScheduled => OfOneStep(e, StepRunning, StepPending) && (e.reason == StepCodeRetryScheduled || e.reason == StepCodeFailedTimeout)
    case KStepFailed =>
      && OfOneStep(e, StepRunning, StepFailed)
      && (e.reason == StepCodeFailedExit || e.reason == StepCodeFailedTimeout || e.reason == StepCodeFailedSpawn
          || e.reason == StepCodeFailedSignal || e.reason == StepCodeRetriesExhausted)
    case KStepSkipped => OfOneStep(e, StepPending, StepSkipped) && (e.reason == StepCodeCancelled || e.reason == StepCodeSkippedUpstream)
    case _ => false
  }

  ghost predicate OfOneStep(e: Entry, a: StepState, b: StepState) {
    e.step.Some? && e.from == Some(OfStep(a)) && e.to == OfStep(b) && e.actor == "system"
  }

  /** What an executor relies on to write no other. */
  ghost predicate Ready(row: RunRow, pc: Pc) {
    match pc
    case Observing(_) => NoneIs(row, StepSkipped)
    case Finishing(code) => code == RunCodeSucceeded || code == RunCodeFailedStep || code == RunCodeTimedOut
    case _ => true
  }

  ghost predicate AllSay(log: seq<Entry>) { forall e :: e in log ==> Says(e) }

  // ----- what one access does to it -----

  lemma FreshReasoned(steps: seq<NewStep>, availableAt: int, id: string, actor: string)
    ensures Reasoned(FreshRun(steps, availableAt)) && Says(QueuedEntry(id, actor))
    ensures QueuedEntry(id, actor) == Entry(id, None, KRunQueued, None, OfRun(RunQueued), NoCode, if actor == "" then "system" else actor)
  {
  }

  lemma ClosedReasoned(id: string, row: RunRow, t: Tx, ix: seq<nat>, asker: string)
    requires Closes(id, row, t, ix, asker) && Reasoned(row) && NoneIs(row, StepSkipped)
    requires (row.state == RunQueued || row.state == RunRunning) && t.row.leaseOwner == "" && t.row.leaseExpiresAt.None?
    ensures Reasoned(t.row) && AllSay(t.log)
  {
    forall e | e in t.log ensures Says(e) {
      var k :| 0 <= k < |t.log| && t.log[k] == e;
      if k < |ix| { assert IsSkip(t.log[k], id, row.steps[ix[k]].name, StepCodeCancelled); }
    }
    hide Closes, IsSkip, Picks;
    ClosedSteps(id, row, t, ix, asker);
  }

  lemma ClosedSteps(id: string, row: RunRow, t: Tx, ix: seq<nat>, asker: string)
    requires Closes(id, row, t, ix, asker) && NoneIs(row, StepSkipped)
    ensures t.row.state == RunCancelled && t.row.reason == RunCodeCancelledManual && t.row.leaseEpoch == row.leaseEpoch
    ensures forall i: nat :: i < |row.steps| && |t.row.steps| == |row.steps| ==>
      t.row.steps[i].state != StepPending && (t.row.steps[i].state == StepSkipped ==> t.row.steps[i].reason == StepCodeCancelled)
    ensures |t.row.steps| == |row.steps|
  {
    hide Picks, IsSkip;
    forall i: nat | i < |row.steps| ensures t.row.steps[i] == LeftOut(row.steps[i]) && row.steps[i].state != StepSkipped {}
  }

  lemma ClaimReasoned(id: string, row: RunRow, owner: string, ttl: int, now: int)
    requires RowOk(row) && Reasoned(row) && ClaimTx(id, row, owner, ttl, now).Commit?
    ensures Reasoned(ClaimTx(id, row, owner, ttl, now).row) && AllSay(ClaimTx(id, row, owner, ttl, now).log)
  {
    var ix := ClaimWrites(id, row, owner, ttl, now);
    var t := ClaimTx(id, row, owner, ttl, now);
    assert row.state == RunQueued && NoneIs(row, StepSkipped);
    hide RowOk, Closes, SkipEntries, PendingNames, SkipRows;
    if row.cancelAt.Some? { ClosedReasoned(id, row, t, ix, if row.cancelBy.Some? then row.cancelBy.value else ""); }
  }

  lemma ObserveReasoned(id: string, row: RunRow, owner: string, actor: string, now: int)
    requires Reasoned(row) && NoneIs(row, StepSkipped) && row.state == RunRunning
    requires ObserveTx(id, row, owner, actor, RunCodeCancelledManual, now).Commit?
    ensures Reasoned(ObserveTx(id, row, owner, actor, RunCodeCancelledManual, now).row)
    ensures AllSay(ObserveTx(id, row, owner, actor, RunCodeCancelledManual, now).log)
  {
    var ix := ObserveWrites(id, row, owner, actor, now);
    hide Reasoned, NoneIs, ObserveTx, Closes, AllSay;
    ClosedReasoned(id, row, ObserveTx(id, row, owner, actor, RunCodeCancelledManual, now), ix, actor);
  }

  /** One step of a running run written. */
  lemma OneReasoned(row: RunRow, i: nat, s: StepRow)
    requires Reasoned(row) && row.state == RunRunning && i < |row.steps| && StepReasoned(row, s)
    ensures Reasoned(row.(steps := row.steps[i := s]))
  {
  }

  lemma StartReasoned(id: string, row: RunRow, name: string)
    requires Reasoned(row) && StartTx(id, row, name).Commit?
    ensures Reasoned(StartTx(id, row, name).row) && AllSay(StartTx(id, row, name).log)
  {
    StartWrites(id, row, name);
    var i := Find(row.steps, name).value;
    hide Reasoned, Find;
    OneReasoned(row, i, StartTx(id, row, name).row.steps[i]);
  }

  lemma SkipReasoned(id: string, row: RunRow, name: string, now: int)
    requires Reasoned(row) && row.state == RunRunning && RecordTx(id, row, name, SKIP_OUTCOME, now).Commit?
    ensures Reasoned(RecordTx(id, row, name, SKIP_OUTCOME, now).row) && AllSay(RecordTx(id, row, name, SKIP_OUTCOME, now).log)
  {
    RecordWrites(id, row, name, SKIP_OUTCOME, now);
    var i := Find(row.steps, name).value;
    hide Reasoned, Find;
    OneReasoned(row, i, RecordTx(id, row, name, SKIP_OUTCOME, now).row.steps[i]);
  }

  lemma RecordReasoned(id: string, row: RunRow, pc: Pc, now: int, known: A.Answers)
    requires RowOk(row) && Reasoned(row) && row.state == RunRunning && pc.Recording? && A.Carries(row, id, pc, known)
    ensures RecordTx(id, row, pc.name, pc.out, now).Commit?
    ensures Reasoned(RecordTx(id, row, pc.name, pc.out, now).row) && AllSay(RecordTx(id, row, pc.name, pc.out, now).log)
  {
    var h := known[(id, pc.name)];
    var i: nat :| A.RunsAt(row, pc.name, i) && pc.out == Decide(h.rep, row.steps[i].attempt, row.steps[i].maxAttempts, h.at);
    A.Attempted(row, i);
    FindByIndex(row.steps, i);
    A.RecordedAsAnswered(id, row, i, h.rep, h.at, now);
    RecordWrites(id, row, pc.name, pc.out, now);
    var t := RecordTx(id, row, pc.name, pc.out, now);
    hide Reasoned, RowOk, Decide, RecordTx, A.Carries, A.ParkedFor;
    AnswerSays(id, row.steps[i], t.row.steps[i], h.rep, t.log[0]);
    OneReasoned(row, i, t.row.steps[i]);
  }

  lemma AnswerSays(id: string, s: StepRow, s': StepRow, rep: Report, e: Entry)
    requires s.state == StepRunning && s'.attempt == s.attempt && s'.attempt > 0 && s'.state != StepSkipped
    requires A.Stands(s', rep) && A.Explained(s', rep)
    requires e == Entry(id, Some(s.name), Becoming(s'.state), Some(OfStep(s.state)), OfStep(s'.state),
                        if s'.state == StepRunning then e.reason else s'.reason, "system")
    ensures Says(e) && forall row: RunRow :: StepReasoned(row, s')
  {
  }

  lemma FinishReasoned(id: string, row: RunRow, owner: string, code: Code, now: int)
    requires Reasoned(row) && PcOk(row, Finishing(code)) && Ready(row, Finishing(code)) && FinishTx(id, row, owner, code, now).Commit?
    ensures Reasoned(FinishTx(id, row, owner, code, now).row) && AllSay(FinishTx(id, row, owner, code, now).log)
  {
    hide FinishTx, PcOk, AnyFailedOrCancelled, StepReasoned, AllSay;
    FinishWrites(id, row, owner, code, now);
    FailedOnly(row, code);
    var t := FinishTx(id, row, owner, code, now);
    SameReasons(row, t.row);
    OneSaid(t.log[0]);
    assert t.log == [t.log[0]];
  }

  lemma SameReasons(row: RunRow, row': RunRow)
    requires Reasoned(row) && row'.steps == row.steps && (row.state == RunCancelled <==> row'.state == RunCancelled)
    ensures forall i: nat :: i < |row'.steps| ==> StepReasoned(row', row'.steps[i])
  {
    assert forall i: nat :: i < |row.steps| ==> StepReasoned(row, row.steps[i]);
  }

  /** At the end of a run a cancelled step cannot be the one that counts as failed. */
  lemma FailedOnly(row: RunRow, code: Code)
    requires PcOk(row, Finishing(code))
    ensures row.state == RunRunning
    ensures (code == RunCodeFailedStep ==> AnyFailedOrCancelled(row.steps)) && (code == RunCodeSucceeded ==> !AnyFailedOrCancelled(row.steps))
  {
    hide AllTerminal;
  }

  lemma AccessReasoned(x: Exec, row: RunRow, now: int, rep: Report, known: A.Answers)
    requires RowOk(row) && (Active(x.pc) ==> PcOk(row, x.pc)) && Reasoned(row) && Ready(row, x.pc) && A.Carries(row, x.run, x.pc, known)
    ensures var s := Advance(x, row, now, rep);
      Reasoned(s.row) && Ready(s.row, s.pc) && AllSay(s.log)
  {
    Running(row, x.pc);
    hide RowOk, PcOk, NoneIs, Advance, Reasoned, Ready, AllSay, Active, A.Carries;
    if x.pc.Fresh? || x.pc.Observing? || x.pc.Finishing? {
      EndsReasoned(x, row, now, rep);
    } else if x.pc.Starting? || x.pc.Recording? || x.pc.Skipping? {
      StepsReasoned(x, row, now, rep, known);
    } else {
      ReadsReasoned(x, row, now, rep);
    }
  }

  lemma EndsReasoned(x: Exec, row: RunRow, now: int, rep: Report)
    requires x.pc.Fresh? || x.pc.Observing? || x.pc.Finishing?
    requires RowOk(row) && (Active(x.pc) ==> PcOk(row, x.pc) && row.state == RunRunning) && Reasoned(row) && Ready(row, x.pc)
    ensures var s := Advance(x, row, now, rep); Reasoned(s.row) && Ready(s.row, s.pc) && AllSay(s.log)
  {
    hide RowOk, PcOk, Reasoned, AllSay, NextRunnable, RetryDue, Decide, FinishCode, PendingNames, NoneIs;
    hide RecordTx, ClaimTx, ObserveTx, FinishTx, StartTx;
    NothingSaid();
    match x.pc
    case Fresh => if ClaimTx(x.run, row, x.owner, x.ttl, now).Commit? { ClaimReasoned(x.run, row, x.owner, x.ttl, now); }
    case Observing(asker) =>
      if ObserveTx(x.run, row, x.owner, asker, RunCodeCancelledManual, now).Commit? { ObserveReasoned(x.run, row, x.owner, asker, now); }
    case Finishing(code) => if FinishTx(x.run, row, x.owner, code, now).Commit? { FinishReasoned(x.run, row, x.owner, code, now); }
  }

  lemma StepsReasoned(x: Exec, row: RunRow, now: int, rep: Report, known: A.Answers)
    requires x.pc.Starting? || x.pc.Recording? || x.pc.Skipping?
    requires RowOk(row) && row.state == RunRunning && Reasoned(row) && A.Carries(row, x.run, x.pc, known)
    ensures var s := Advance(x, row, now, rep); Reasoned(s.row) && Ready(s.row, s.pc) && AllSay(s.log)
  {
    hide RowOk, Reasoned, AllSay, NextRunnable, RetryDue, Decide, FinishCode, PendingNames, A.Carries;
    hide RecordTx, ClaimTx, ObserveTx, FinishTx, StartTx;
    NothingSaid();
    match x.pc
    case Starting(name, _, _) => if StartTx(x.run, row, name).Commit? { StartReasoned(x.run, row, name); }
    case Recording(_, _, _) => RecordReasoned(x.run, row, x.pc, now, known);
    case Skipping(names, _) =>
      if |names| > 0 && RecordTx(x.run, row, names[0], SKIP_OUTCOME, now).Commit? { SkipReasoned(x.run, row, names[0], now); }
  }

  lemma ReadsReasoned(x: Exec, row: RunRow, now: int, rep: Report)
    requires !x.pc.Fresh? && !x.pc.Observing? && !x.pc.Finishing? && !x.pc.Starting? && !x.pc.Recording? && !x.pc.Skipping?
    requires Reasoned(row) && Ready(row, x.pc) && (x.pc.Head? ==> NoneIs(row, StepSkipped)) && (x.pc.Judging? ==> NoneIs(row, StepCancelled))
    ensures var s := Advance(x, row, now, rep); Reasoned(s.row) && Ready(s.row, s.pc) && AllSay(s.log)
  {
    hide Reasoned, AllSay, NextRunnable, RetryDue, Decide, FinishCode, RecordTx, ClaimTx, ObserveTx, FinishTx, StartTx, PendingNames, NoneIs;
    NothingSaid();
    if x.pc.Judging? { Judged(row, x.pc.timedOut); }
  }

  lemma NothingSaid()
    ensures AllSay([])
  {
  }

  /** What holds at the points that matter. */
  lemma Running(row: RunRow, pc: Pc)
    requires Active(pc) ==> PcOk(row, pc)
    ensures Active(pc) ==> row.state == RunRunning
    ensures pc.Head? ==> NoneIs(row, StepSkipped)
    ensures pc.Judging? ==> NoneIs(row, StepCancelled)
  {
    hide OnlyRunning;
  }

  lemma Judged(row: RunRow, timedOut: bool)
    requires NoneIs(row, StepCancelled)
    ensures Ready(row, Finishing(FinishCode(row, timedOut)))
  {
    FirstBadExact(row.steps);
    hide FirstBad;
  }

  // ----- what every action does to it -----

  ghost predicate RowsReason(w: World) {
    && AllSay(w.log)
    && (forall id :: id in w.runs ==> Reasoned(w.runs[id]))
    && (forall e :: e in w.execs && w.execs[e].run in w.runs ==> Ready(w.runs[w.execs[e].run], w.execs[e].pc))
  }

  ghost predicate JournalOk(w: World, known: A.Answers) { A.ToldOk(w, known) && RowsReason(w) }

  lemma Together(a: seq<Entry>, b: seq<Entry>)
    requires AllSay(a) && AllSay(b)
    ensures AllSay(a + b)
  {
    hide Says;
  }

  lemma IdleReady(row: RunRow, pc: Pc)
    requires !Active(pc)
    ensures Ready(row, pc)
  {
  }

  lemma GoReasoned(w: World, e: nat, rep: Report, known: A.Answers)
    requires WorldOk(w) && JournalOk(w, known) && Enabled(w, Go(e, rep))
    ensures RowsReason(Step(w, Go(e, rep)))
  {
    hide WorldOk, RowOk, PcOk, Advance, Reasoned, Ready, AllSay, CanAdvance, A.Carries, A.RowStands;
    A.Standing(w, e);
    var x := w.execs[e];
    var row := w.runs[x.run];
    AccessReasoned(x, row, w.now, rep, known);
    var s := Advance(x, row, w.now, rep);
    Together(w.log, s.log);
    forall f | f in w.execs && f != e && w.execs[f].run == x.run ensures Ready(s.row, w.execs[f].pc) {
      var y := w.execs[f];
      if !Active(y.pc) { IdleReady(s.row, y.pc); }
      else {
        A.NotRivals(w, e, f);
        A.Standing(w, f);
        A.Bystanders(x, y, row, w.now, rep);
      }
    }
  }

  lemma AskReasoned(row: RunRow, asker: string, why: string, now: int, pc: Pc)
    requires Reasoned(row)
    ensures Reasoned(CancelTx(row, asker, why, now)) && (Ready(row, pc) ==> Ready(CancelTx(row, asker, why, now), pc))
  {
  }

  lemma StepReasons(w: World, a: Action, known: A.Answers)
    requires WorldOk(w) && JournalOk(w, known) && Enabled(w, a)
    ensures JournalOk(Step(w, a), A.ToldBy(w, a, known))
  {
    A.StepTold(w, a, known);
    hide WorldOk, Reasoned, Ready, AllSay, Step, Enabled, A.ToldOk, A.ToldBy;
    A.NotYet(w);
    match a
    case Go(e, rep) => GoReasoned(w, e, rep, known);
    case Create(_, _, _, _) => CreateReasons(w, a);
    case AskCancel(_, _, _) => AskReasons(w, a);
    case _ => OthersReason(w, a);
  }

  lemma CreateReasons(w: World, a: Action)
    requires a.Create? && Enabled(w, a) && RowsReason(w) && forall e :: e in w.execs ==> w.execs[e].run in w.runs
    ensures RowsReason(Step(w, a))
  {
    FreshReasoned(a.steps, a.availableAt, a.id, a.actor);
    hide AllSay, Reasoned, Ready, FreshRun, Insertable, QueuedEntry, Says;
    OneSaid(QueuedEntry(a.id, a.actor));
    Together(w.log, [QueuedEntry(a.id, a.actor)]);
  }

  lemma AskReasons(w: World, a: Action)
    requires a.AskCancel? && Enabled(w, a) && RowsReason(w)
    ensures RowsReason(Step(w, a))
  {
    hide AllSay, Reasoned, Ready, CancelTx;
    var row := w.runs[a.run];
    AskReasoned(row, a.asker, a.why, w.now, Gone);
    forall e | e in w.execs && w.execs[e].run == a.run ensures Ready(CancelTx(row, a.asker, a.why, w.now), w.execs[e].pc) {
      AskReasoned(row, a.asker, a.why, w.now, w.execs[e].pc);
    }
  }

  lemma OthersReason(w: World, a: Action)
    requires (a.Tick? || a.Call? || a.Crash?) && Enabled(w, a) && RowsReason(w)
    ensures RowsReason(Step(w, a))
  {
    hide AllSay, Reasoned, Ready;
    match a
    case Call(e, x) => IdleReady(w.runs[x.run], x.pc);
    case Crash(e) => if w.execs[e].run in w.runs { IdleReady(w.runs[w.execs[e].run], Gone); }
    case Tick(_) =>
  }

  lemma OneSaid(e: Entry)
    requires Says(e)
    ensures AllSay([e])
  {
  }

  lemma {:induction false} RunReasons(w: World, acts: seq<Action>, known: A.Answers)
    requires WorldOk(w) && JournalOk(w, known) && Feasible(w, acts)
    ensures JournalOk(Run(w, acts), A.Told(w, acts, known))
    decreases |acts|
  {
    if |acts| > 0 {
      StepKeeps(w, acts[0]);
      StepReasons(w, acts[0], known);
      hide WorldOk, JournalOk, Step, Enabled, A.ToldBy;
      RunReasons(Step(w, acts[0]), acts[1..], A.ToldBy(w, acts[0], known));
    }
  }

  lemma Begins(now: int)
    ensures WorldOk(Initial(now)) && JournalOk(Initial(now), map[])
  {
  }

  /**
   * In every reachable state every run stands with its reason and its lease, every skipped step with the reason
   * of its skip, and every event says one of the things it may say, by somebody.
   */
  lemma ReasonsStand(w: World)
    requires Reachable(w)
    ensures forall id :: id in w.runs ==> Reasoned(w.runs[id])
    ensures forall e :: e in w.log ==> Says(e)
  {
    var now, acts :| Feasible(Initial(now), acts) && Run(Initial(now), acts) == w;
    Begins(now);
    hide WorldOk, Initial, Reasoned, Says, Run, Feasible;
    RunReasons(Initial(now), acts, map[]);
  }
}
