/** The invariant sweep of internal/store/fsck.go for I2, I10 and I15, and what it finds on reachable states. */
module Fsck {
  import opened Wrappers
  import opened Machine
  import opened Tables
  import opened History
  import Invariant
  import Protocol
  import Results

  datatype Violation = OpenStep(run: string, step: string) | WrongAggregate(run: string) | BrokenChain(run: string)

  /** What each check is named after. */
  ghost predicate Broken(runs: map<string, RunRow>, log: seq<Entry>, v: Violation) {
    match v
    case OpenStep(id, name) =>
      && id in runs && runs[id].state.IsTerminal()
      && exists i :: 0 <= i < |runs[id].steps| && runs[id].steps[i].name == name && !runs[id].steps[i].state.IsTerminal()
    case WrongAggregate(id) => id in runs && AggregateOf(States(runs[id].steps)) != runs[id].state
    case BrokenChain(id) => ChainBroken(log, id)
  }

  method OpenSteps(id: string, row: RunRow) returns (out: seq<Violation>)
    ensures forall v :: v in out <==> v.OpenStep? && Broken(map[id := row], [], v)
  {
    out := [];
    if !row.state.IsTerminal() { return; }
    for i := 0 to |row.steps|
      invariant forall v :: v in out <==>
        v.OpenStep? && v.run == id && (exists k :: 0 <= k < i && row.steps[k].name == v.step && !row.steps[k].state.IsTerminal())
    {
      if !row.steps[i].state.IsTerminal() { out := out + [OpenStep(id, row.steps[i].name)]; }
    }
  }

  /** I2 and I10, run by run; the order of the runs is the map's. */
  method SweepRuns(runs: map<string, RunRow>) returns (out: seq<Violation>)
    ensures forall v :: v in out <==> !v.BrokenChain? && Broken(runs, [], v)
  {
    out := [];
    var ids := runs.Keys;
    while ids != {}
      invariant ids <= runs.Keys
      invariant forall v :: v in out <==> !v.BrokenChain? && v.run !in ids && Broken(runs, [], v)
      decreases ids
    {
      var id :| id in ids;
      var open := OpenSteps(id, runs[id]);
      var want := RunAggregate(States(runs[id].steps));
      assert forall v: Violation :: v.OpenStep? ==> (Broken(map[id := runs[id]], [], v) <==> v.run == id && Broken(runs, [], v));
      out := out + open;
      if want != runs[id].state { out := out + [WrongAggregate(id)]; }
      ids := ids - {id};
    }
  }

  lemma ChainedPush(p: seq<Entry>, e: Entry)
    ensures Chained(p + [e]) <==> Chained(p) && (p == [] || e.from == Some(p[|p| - 1].to))
  {
    var q := p + [e];
    forall i | 0 < i < |p| ensures (q[i].from == Some(q[i - 1].to)) == (p[i].from == Some(p[i - 1].to)) {}
    if Chained(q) {
      forall i | 0 < i < |p| ensures p[i].from == Some(p[i - 1].to) { assert q[i].from == Some(q[i - 1].to); }
      if p != [] { assert q[|p|].from == Some(q[|p| - 1].to); }
    }
  }

  ghost predicate ChainBroken(log: seq<Entry>, id: string) { exists step :: !Chained(Part(log, id, step)) }

  /** Where a partition stands: the state its last event ended in. */
  ghost function Stand(log: seq<Entry>, run: string, step: Option<string>): Option<State> {
    var p := Part(log, run, step);
    if p == [] then None else Some(p[|p| - 1].to)
  }

  lemma StandNext(log: seq<Entry>, e: Entry, run: string, step: Option<string>)
    ensures Stand(log + [e], run, step) == if run == e.run && step == e.step then Some(e.to) else Stand(log, run, step)
    ensures Chained(Part(log + [e], run, step)) <==>
      Chained(Part(log, run, step)) && !(run == e.run && step == e.step && BreaksAt(log, e))
  {
    PartPush(log, e, run, step);
    ChainedPush(Part(log, e.run, e.step), e);
  }

  ghost predicate BreaksAt(log: seq<Entry>, e: Entry) {
    Stand(log, e.run, e.step).Some? && e.from != Stand(log, e.run, e.step)
  }

  lemma ChainBrokenNext(log: seq<Entry>, e: Entry, id: string)
    ensures ChainBroken(log + [e], id) <==> ChainBroken(log, id) || (id == e.run && BreaksAt(log, e))
  {
    hide Chained, BreaksAt, Part;
    if ChainBroken(log, id) {
      var step :| !Chained(Part(log, id, step));
      StandNext(log, e, id, step);
    }
    if ChainBroken(log + [e], id) {
      var step :| !Chained(Part(log + [e], id, step));
      StandNext(log, e, id, step);
    }
    StandNext(log, e, e.run, e.step);
  }

  /** The window query of I15: one walk in id order, remembering where each partition stands. */
  method SweepLog(log: seq<Entry>) returns (out: seq<Violation>)
    ensures forall v :: v in out <==> v.BrokenChain? && ChainBroken(log, v.run)
  {
    out := [];
    var last: map<(string, Option<string>), State> := map[];
    for n := 0 to |log|
      invariant forall run, step :: Stand(log[..n], run, step) == if (run, step) in last then Some(last[(run, step)]) else None
      invariant forall v :: v in out <==> v.BrokenChain? && ChainBroken(log[..n], v.run)
    {
      var e := log[n];
      var key := (e.run, e.step);
      ghost var seen := log[..n];
      assert log[..n + 1] == seen + [e];
      hide Stand, ChainBroken;
      forall run, step ensures Stand(seen + [e], run, step) ==
        if run == e.run && step == e.step then Some(e.to) else Stand(seen, run, step)
      {
        StandNext(seen, e, run, step);
      }
      forall id ensures ChainBroken(seen + [e], id) <==> ChainBroken(seen, id) || (id == e.run && BreaksAt(seen, e)) {
        ChainBrokenNext(seen, e, id);
      }
      if key in last && e.from != Some(last[key]) { out := out + [BrokenChain(e.run)]; }
      last := last[key := e.to];
    }
    assert log[..|log|] == log;
  }

  /** The sweep reports exactly the broken rows. */
  method Sweep(runs: map<string, RunRow>, log: seq<Entry>) returns (out: seq<Violation>)
    ensures forall v :: v in out <==> Broken(runs, log, v)
  {
    var a := SweepRuns(runs);
    var b := SweepLog(log);
    out := a + b;
  }

  /**
   * On every reachable state the sweep is silent about I2 and I15. I10 it reports for each queued run,
   * for a running run whose steps have all ended, and for a cancelled run without a cancelled step (or
   * with a failed one): there the stored state and the aggregate differ by design of the code.
   */
  lemma SweepOfReachable(w: Protocol.World, v: Violation)
    requires Protocol.Reachable(w)
    ensures Broken(w.runs, w.log, v) <==>
      && v.WrongAggregate? && v.run in w.runs
      && var row := w.runs[v.run];
         match row.state
         case RunQueued => true
         case RunRunning => AllTerminal(row.steps)
         case RunCancelled => Invariant.NoneIs(row, StepCancelled) || Invariant.SomeFailed(row)
         case _ => false
  {
    match v
    case OpenStep(id, name) =>
      if id in w.runs { Results.NothingOpenUnderAnEnd(w, id); }
    case WrongAggregate(id) =>
      if id in w.runs { Results.I10Exactly(w, id); }
    case BrokenChain(id) =>
      forall step ensures Chained(Part(w.log, id, step)) { Results.EventChainHolds(w, id, step); }
  }
}
