/** The exact verdict of the EXPLAIN cost guard, on the numbers of the plan. */
module CostVerdict {
  import opened Syntax
  import opened Policy
  import opened Pipeline
  import opened Execution

  /** The cost, 0 if the plan has none, is not above the threshold. */
  predicate CostWithin(r: Reading, threshold: Option<real>) {
    match r
    case Missing => threshold.Some? ==> 0.0 <= threshold.value
    case Known(cost) => threshold.Some? ==> cost <= threshold.value
    case Malformed => false
  }

  /** The row count, 0 if the plan has none, truncated toward zero, is not above the limit. */
  predicate RowsWithin(r: Reading, limit: Option<int>) {
    match r
    case Missing => limit.Some? ==> 0 <= limit.value
    case Known(rows) =>
      limit.Some? ==> if limit.value >= 0 then rows < (limit.value + 1) as real else rows <= limit.value as real
    case Malformed => false
  }

  /** A plan within both thresholds. */
  predicate Affordable(plan: Plan, policy: GuardPolicy) {
    CostWithin(plan.cost, policy.costThreshold) && RowsWithin(plan.rows, policy.maxEstimatedRows)
  }

  /** The truncation of a number toward zero is at most `k`. */
  lemma {:induction false} TruncateExactly(r: real, k: int)
    ensures Truncate(r) <= k <==> if k >= 0 then r < (k + 1) as real else r <= k as real
  {
    if r >= 0.0 {
      FloorAtMost(r, k);
    } else {
      FloorAtMost(-r, -k - 1);
    }
  }

  lemma {:induction false} FloorAtMost(r: real, k: int)
    ensures r.Floor <= k <==> r < (k + 1) as real
  {
    assert r.Floor as real <= r < (r.Floor + 1) as real;
  }

  /** What the guard reports on a plan it can read. */
  lemma {:induction false} ExceededExactly(plan: Plan, policy: GuardPolicy)
    requires !plan.cost.Malformed? && !plan.rows.Malformed?
    ensures CostExceeded(plan, policy) <==> !CostWithin(plan.cost, policy.costThreshold)
    ensures RowsExceeded(plan, policy) <==> !RowsWithin(plan.rows, policy.maxEstimatedRows)
  {
    if policy.maxEstimatedRows.Some? && plan.rows.Known? {
      TruncateExactly(plan.rows.value, policy.maxEstimatedRows.value);
    }
  }

  /** The judgement of a plan: what it exceeds, or that it could not be had or read. */
  lemma {:induction false} JudgedExactly(plan: Option<Plan>, sql: string, policy: GuardPolicy)
    ensures plan.None? ==>
      JudgePlan(plan, sql, policy)
        == Judged(GuardResult(Block, None, sql, [Violation("explain_failed", High, BlockIt)]))
    ensures plan.Some? ==>
      (JudgePlan(plan, sql, policy).ReadingRaised? <==> plan.value.cost.Malformed? || plan.value.rows.Malformed?)
    ensures plan.Some? && Affordable(plan.value, policy) ==>
      JudgePlan(plan, sql, policy) == Judged(GuardResult(Pass, Some(sql), sql, []))
    ensures plan.Some? && JudgePlan(plan, sql, policy).Judged? && !Affordable(plan.value, policy) ==>
      JudgePlan(plan, sql, policy) == Judged(GuardResult(Block, None, sql, Overruns(plan.value, policy)))
  {
    if plan.Some? && !plan.value.cost.Malformed? && !plan.value.rows.Malformed? {
      ExceededExactly(plan.value, policy);
    }
  }

  /** One violation for each threshold the plan is above. */
  function Overruns(plan: Plan, policy: GuardPolicy): seq<Violation> {
    (if CostWithin(plan.cost, policy.costThreshold) then [] else [Violation("cost_exceeded", High, BlockIt)])
    + (if RowsWithin(plan.rows, policy.maxEstimatedRows) then [] else [Violation("rows_exceeded", High, BlockIt)])
  }

  /**
   * The guard lets a text through exactly if no threshold is set, or the plan can be had and is
   * affordable; it raises exactly if a threshold is set and a number of the plan is malformed.
   */
  lemma {:induction false} CostGuardExactly(d: Driver, log: Log, sql: string, policy: GuardPolicy, params: Params)
    ensures var judged := CostGuard(d, log, sql, policy, params).0;
      var asks := policy.costThreshold.Some? || policy.maxEstimatedRows.Some?;
      var plan := Explain(d, log, sql, params).0;
      && (judged.Judged? && ForwardSafe(judged.result) <==> !asks || (plan.Some? && Affordable(plan.value, policy)))
      && (judged.ReadingRaised? <==> asks && plan.Some? && (plan.value.cost.Malformed? || plan.value.rows.Malformed?))
      && (judged.Judged? && ForwardSafe(judged.result) ==> judged.result == GuardResult(Pass, Some(sql), sql, []))
  {
    JudgedExactly(Explain(d, log, sql, params).0, sql, policy);
  }

  /** The text asks for the plan of `sql` and runs nothing. */
  predicate AsksForPlan(text: string, sql: string) {
    text == "EXPLAIN (FORMAT JSON, COSTS true, ANALYZE false, TIMING false, BUFFERS false)" + " " + sql
  }

  /**
   * Asking for a plan sends only its EXPLAIN, and gives the plan exactly if opening a cursor, executing
   * and fetching all succeed; the cursor is closed on every path.
   */
  lemma {:induction false} ExplainExactly(d: Driver, log: Log, sql: string, params: Params)
    ensures var (plan, after) := Explain(d, log, sql, params);
      && log <= after
      && (d.opens(|log|) <==> after != log + [OpenFailed])
      && (d.opens(|log|) ==>
            && |after| >= |log| + 3
            && after[|log|] == Opened(|log|)
            && after[|log| + 1].Executed?
            && after[|log| + 1].cursor == |log| && after[|log| + 1].params == params
            && AsksForPlan(after[|log| + 1].text, sql)
            && after[|after| - 1] == Closed(|log|)
            && (forall i :: |log| + 2 <= i < |after| ==> !after[i].Executed? && !after[i].Opened?))
      && (plan.Some? <==>
            && d.opens(|log|) && d.executes(|log| + 1)
            && d.fetches(|log| + 2).Cell? && d.fetches(|log| + 2).plan.Some?)
      && (plan.Some? ==> plan == d.fetches(|log| + 2).plan)
  {
  }
}
