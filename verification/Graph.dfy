/** The frozen dependency graph of a run and what a finished run says about it. */
module Graph {
  import opened Tables

  /** Every chain of edges upwards from step i has fewer than d edges. */
  ghost predicate Grounded(row: RunRow, i: nat, d: nat)
    requires i < |row.steps|
    decreases d
  {
    d > 0 && forall j: nat :: j < |row.steps| && Needs(row, i, j) ==> Grounded(row, j, d - 1)
  }

  /** No cycle can be reached upwards from step i. */
  ghost predicate WellFounded(row: RunRow, i: nat)
    requires i < |row.steps|
  {
    exists d: nat :: Grounded(row, i, d)
  }

  /** A failed step lies above step i, at most d edges away. */
  ghost predicate FailedAbove(row: RunRow, i: nat, d: nat)
    requires i < |row.steps|
    decreases d
  {
    && d > 0
    && exists j: nat ::
         j < |row.steps| && Needs(row, i, j) && (row.steps[j].state.StepFailed? || FailedAbove(row, j, d - 1))
  }

  /** Step i transitively depends on a failed step. */
  ghost predicate DependsOnFailed(row: RunRow, i: nat)
    requires i < |row.steps|
  {
    exists d: nat :: FailedAbove(row, i, d)
  }

  /** A numbering that decreases along every edge: the graph has no cycle. */
  ghost predicate Ranks(row: RunRow, rank: seq<nat>) {
    && |rank| == |row.steps|
    && forall i: nat, j: nat :: i < |row.steps| && j < |row.steps| && Needs(row, i, j) ==> rank[j] < rank[i]
  }

  lemma {:induction false} GroundedGrows(row: RunRow, i: nat, d: nat, e: nat)
    requires i < |row.steps| && Grounded(row, i, d) && d <= e
    ensures Grounded(row, i, e)
    decreases d
  {
    forall j: nat | j < |row.steps| && Needs(row, i, j) ensures Grounded(row, j, e - 1) {
      GroundedGrows(row, j, d - 1, e - 1);
    }
  }

  /** One depth that serves every upstream of step i with index below k. */
  lemma {:induction false} CommonDepth(row: RunRow, i: nat, k: nat) returns (d: nat)
    requires i < |row.steps| && k <= |row.steps|
    requires forall j: nat :: j < k && Needs(row, i, j) ==> WellFounded(row, j)
    ensures forall j: nat :: j < k && Needs(row, i, j) ==> Grounded(row, j, d)
  {
    d := 0;
    if k > 0 {
      d := CommonDepth(row, i, k - 1);
      if Needs(row, i, k - 1) {
        var e: nat :| Grounded(row, k - 1, e);
        var m := if d < e then e else d;
        forall j: nat | j < k && Needs(row, i, j) ensures Grounded(row, j, m) {
          GroundedGrows(row, j, if j == k - 1 then e else d, m);
        }
        d := m;
      }
    }
  }

  lemma WellFoundedFromUpstreams(row: RunRow, i: nat)
    requires i < |row.steps|
    requires forall j: nat :: j < |row.steps| && Needs(row, i, j) ==> WellFounded(row, j)
    ensures WellFounded(row, i)
  {
    var d := CommonDepth(row, i, |row.steps|);
    assert Grounded(row, i, d + 1);
  }

  lemma {:induction false} RankedIsGrounded(row: RunRow, rank: seq<nat>, i: nat)
    requires Ranks(row, rank) && i < |row.steps|
    ensures Grounded(row, i, rank[i] + 1)
    decreases rank[i]
  {
    forall j: nat | j < |row.steps| && Needs(row, i, j) ensures Grounded(row, j, rank[i]) {
      RankedIsGrounded(row, rank, j);
      GroundedGrows(row, j, rank[j] + 1, rank[i]);
    }
  }

  /** The graph is what the rows froze: it does not change while names and edges do not. */
  lemma {:induction false} GroundedFrozen(row: RunRow, row': RunRow, i: nat, d: nat)
    requires |row'.steps| == |row.steps| && row'.deps == row.deps && i < |row.steps|
    requires forall j :: 0 <= j < |row.steps| ==> row'.steps[j].name == row.steps[j].name
    ensures Grounded(row, i, d) <==> Grounded(row', i, d)
    decreases d
  {
    if d > 0 {
      forall j: nat | j < |row.steps| ensures Needs(row, i, j) == Needs(row', i, j) {}
      var e := d - 1;
      forall j: nat | j < |row.steps| ensures Grounded(row, j, e) <==> Grounded(row', j, e) {
        GroundedFrozen(row, row', j, e);
      }
    }
  }

  // ----- what the end of a run says about the graph -----

  /** A step was started only after every upstream had succeeded. */
  ghost predicate StartedProperly(row: RunRow) {
    forall i: nat :: i < |row.steps| && row.steps[i].attempt > 0 ==>
      UpstreamsSucceeded(row, i) && WellFounded(row, i)
  }

  ghost predicate RanMeansStarted(row: RunRow) {
    forall i: nat :: i < |row.steps| && !row.steps[i].state.StepPending? && !row.steps[i].state.StepSkipped? ==>
      row.steps[i].attempt > 0
  }

  /** What is left over can never become runnable. */
  ghost predicate Stuck(row: RunRow) {
    forall i: nat :: i < |row.steps| && (row.steps[i].state.StepPending? || row.steps[i].state.StepSkipped?) ==>
      !UpstreamsSucceeded(row, i)
  }

  /** Every step ended as succeeded, failed or skipped. */
  ghost predicate RanOut(row: RunRow) {
    forall i: nat :: i < |row.steps| ==>
      row.steps[i].state.StepSucceeded? || row.steps[i].state.StepFailed? || row.steps[i].state.StepSkipped?
  }

  lemma {:induction false} SkippedHasFailedAbove(row: RunRow, i: nat, d: nat)
    requires Stuck(row) && RanOut(row)
    requires i < |row.steps| && row.steps[i].state.StepSkipped? && Grounded(row, i, d)
    ensures FailedAbove(row, i, d)
    decreases d
  {
    var j: nat :| j < |row.steps| && Needs(row, i, j) && !row.steps[j].state.StepSucceeded?;
    if row.steps[j].state.StepSkipped? { SkippedHasFailedAbove(row, j, d - 1); }
  }

  lemma {:induction false} FailedAboveIsSkipped(row: RunRow, i: nat, d: nat)
    requires StartedProperly(row) && RanMeansStarted(row) && RanOut(row)
    requires i < |row.steps| && FailedAbove(row, i, d)
    ensures row.steps[i].state.StepSkipped?
    decreases d
  {
    var j: nat :| j < |row.steps| && Needs(row, i, j) && (row.steps[j].state.StepFailed? || FailedAbove(row, j, d - 1));
    if !row.steps[j].state.StepFailed? { FailedAboveIsSkipped(row, j, d - 1); }
    assert !UpstreamsSucceeded(row, i);
  }

  /**
   * The closure of a run that ran out of runnable steps, for any graph: a step was skipped exactly when
   * it transitively depends on a failed step or sits on or below a cycle, and every other step ran.
   */
  lemma SkipClosure(row: RunRow, i: nat)
    requires StartedProperly(row) && RanMeansStarted(row) && RanOut(row) && Stuck(row)
    requires i < |row.steps|
    ensures row.steps[i].state.StepSkipped? <==> DependsOnFailed(row, i) || !WellFounded(row, i)
  {
    if row.steps[i].state.StepSkipped? && WellFounded(row, i) {
      var d: nat :| Grounded(row, i, d);
      SkippedHasFailedAbove(row, i, d);
    }
    if DependsOnFailed(row, i) {
      var d: nat :| FailedAbove(row, i, d);
      FailedAboveIsSkipped(row, i, d);
    }
  }

  /** On an acyclic graph the skipped steps are exactly the transitive dependents of the failed ones. */
  lemma SkipClosureAcyclic(row: RunRow, rank: seq<nat>, i: nat)
    requires StartedProperly(row) && RanMeansStarted(row) && RanOut(row) && Stuck(row)
    requires Ranks(row, rank) && i < |row.steps|
    ensures row.steps[i].state.StepSkipped? <==> DependsOnFailed(row, i)
  {
    RankedIsGrounded(row, rank, i);
    SkipClosure(row, i);
  }
}
