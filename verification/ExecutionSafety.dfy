/** Safety of whole runs of guarded calls, whatever the driver does. */
module ExecutionSafety {
  import opened Syntax
  import opened Policy
  import opened Pipeline
  import opened Execution
  import opened CostVerdict

  /** A run: the calls one after another on one connection. */
  ghost function RunAll(reqs: seq<Request>, fe: Frontend, d: Driver, log: Log): (seq<Outcome>, Log)
    decreases |reqs|
  {
    if reqs == [] then ([], log)
    else
      var (o, log1) := Guarded(reqs[0], fe, d, log);
      var (os, log2) := RunAll(reqs[1..], fe, d, log1);
      ([o] + os, log2)
  }

  // ---------------------------------------------------------------- what was sent

  /** The policy has an allowlist and does not let HIGH violations through. */
  predicate Production(policy: GuardPolicy) {
    policy.allowedTables.Some? && !policy.minBlockSeverity.Critical?
  }

  lemma {:induction false} ProductionExactly(policy: GuardPolicy)
    ensures ProductionReady(policy) <==> Production(policy)
  {
  }

  /** `safe` is the text the guard cleared for this request. */
  ghost predicate Cleared(req: Request, safe: string, fe: Frontend) {
    && (req.requireProduction ==> Production(req.policy))
    && ForwardSafe(Check(req.sql, req.policy, fe))
    && Check(req.sql, req.policy, fe).sql == Some(safe)
  }

  /**
   * Just before entry `i`, and not before `start`: an EXPLAIN of the same text and parameters with an
   * affordable plan, its cursor closed again.
   */
  predicate Explained(log: Log, start: nat, i: nat, safe: string, params: Params, policy: GuardPolicy) {
    && start + 5 <= i < |log|
    && log[i - 5].Opened?
    && log[i - 4].Executed? && AsksForPlan(log[i - 4].text, safe)
    && log[i - 4].cursor == log[i - 5].cursor && log[i - 4].params == params && log[i - 4].ok
    && log[i - 3].Fetched? && log[i - 3].cursor == log[i - 5].cursor
    && log[i - 3].result.Cell? && log[i - 3].result.plan.Some? && Affordable(log[i - 3].result.plan.value, policy)
    && log[i - 2] == Closed(log[i - 5].cursor)
    && log[i - 1].Opened?
  }

  /** The call is to check costs and a threshold is set. */
  predicate AsksCost(req: Request) {
    req.checkCost && (req.policy.costThreshold.Some? || req.policy.maxEstimatedRows.Some?)
  }

  /** Entry `i` of the call that began at `start` sends the EXPLAIN of `safe`, or `safe` after its own EXPLAIN. */
  predicate SentSafely(log: Log, start: nat, i: nat, req: Request, safe: string)
    requires i < |log| && log[i].Executed?
  {
    log[i].params == req.params &&
    (|| (AsksForPlan(log[i].text, safe) && AsksCost(req))
     || (log[i].text == safe && (AsksCost(req) ==> Explained(log, start, i, safe, req.params, req.policy))))
  }

  /** What request `req`, whose call began at `start`, may have put into the log at `i`. */
  ghost predicate Justified(log: Log, start: nat, i: nat, req: Request, fe: Frontend)
    requires i < |log|
  {
    log[i].Executed? ==> exists safe :: Cleared(req, safe, fe) && SentSafely(log, start, i, req, safe)
  }

  /** Everything a call sent between `start` and `end` is justified by its own request. */
  ghost predicate SegmentJustified(log: Log, start: nat, end: nat, req: Request, fe: Frontend)
    requires end <= |log|
  {
    forall i :: start <= i < end ==> Justified(log, start, i, req, fe)
  }

  lemma {:induction false} ExplainSends(d: Driver, log: Log, sql: string, params: Params)
    ensures var (plan, after) := Explain(d, log, sql, params);
      && log <= after
      && (forall i :: |log| <= i < |after| && after[i].Executed? ==>
          after[i].text == ExplainText(sql) && after[i].params == params)
      && (plan.Some? ==>
            && |after| == |log| + 4
            && after[|log|] == Opened(|log|)
            && after[|log| + 1] == Executed(|log|, ExplainText(sql), params, true)
            && after[|log| + 2] == Fetched(|log|, Cell(plan))
            && after[|log| + 3] == Closed(|log|))
  {
  }

  lemma {:induction false} ForwardSends(d: Driver, log: Log, sql: string, params: Params)
    ensures var (c, after) := Forward(d, log, sql, params);
      && log <= after
      && (forall i :: |log| <= i < |after| && after[i].Executed? ==>
            i == |log| + 1 && after[|log|].Opened? && after[i].text == sql && after[i].params == params)
  {
  }

  /** The cost guard passes only on an affordable plan. */
  lemma {:induction false} CostPassMeans(plan: Option<Plan>, sql: string, policy: GuardPolicy)
    requires JudgePlan(plan, sql, policy).Judged? && ForwardSafe(JudgePlan(plan, sql, policy).result)
    ensures plan.Some? && Affordable(plan.value, policy)
  {
    JudgedExactly(plan, sql, policy);
  }

  lemma {:induction false} CheckedCall(req: Request, safe: string, d: Driver, log: Log)
    requires CostChecked(req)
    ensures var after := ForwardSafely(req, GuardResult(Pass, Some(safe), safe, []), safe, d, log).1;
      log <= after && forall i :: |log| <= i < |after| && after[i].Executed? ==> SentSafely(after, |log|, i, req, safe)
  {
    ExplainSends(d, log, safe, req.params);
    var (plan, log1) := Explain(d, log, safe, req.params);
    var judged := JudgePlan(plan, safe, req.policy);
    if !judged.ReadingRaised? && ForwardSafe(judged.result) {
      CostPassMeans(plan, safe, req.policy);
      ForwardSends(d, log1, safe, req.params);
      var after := Forward(d, log1, safe, req.params).1;
      forall i | |log| <= i < |after| && after[i].Executed?
        ensures SentSafely(after, |log|, i, req, safe)
      {
        if i < |log1| {
          assert after[i] == log1[i];
        } else {
          assert after[|log|] == log1[|log|] && after[|log| + 1] == log1[|log| + 1];
          assert after[|log| + 2] == log1[|log| + 2] && after[|log| + 3] == log1[|log| + 3];
        }
      }
    }
  }

  lemma {:induction false} UncheckedCall(req: Request, safe: string, d: Driver, log: Log)
    requires !CostChecked(req)
    ensures var after := ForwardSafely(req, GuardResult(Pass, Some(safe), safe, []), safe, d, log).1;
      log <= after && forall i :: |log| <= i < |after| && after[i].Executed? ==> SentSafely(after, |log|, i, req, safe)
  {
    ForwardSends(d, log, safe, req.params);
  }

  lemma {:induction false} SameLog(req: Request, a: GuardResult, b: GuardResult, safe: string, d: Driver, log: Log)
    ensures ForwardSafely(req, a, safe, d, log).1 == ForwardSafely(req, b, safe, d, log).1
  {
  }

  lemma {:induction false} ClearedCall(req: Request, structural: GuardResult, safe: string, d: Driver, log: Log)
    ensures var after := ForwardSafely(req, structural, safe, d, log).1;
      log <= after && forall i :: |log| <= i < |after| && after[i].Executed? ==> SentSafely(after, |log|, i, req, safe)
  {
    SameLog(req, structural, GuardResult(Pass, Some(safe), safe, []), safe, d, log);
    if CostChecked(req) {
      CheckedCall(req, safe, d, log);
    } else {
      UncheckedCall(req, safe, d, log);
    }
  }

  lemma {:induction false} GuardedCases(req: Request, fe: Frontend, d: Driver, log: Log)
    ensures var cleared := Check(req.sql, req.policy, fe);
      Guarded(req, fe, d, log) ==
        if req.requireProduction && !Production(req.policy) then (NotProduction, log)
        else if !ForwardSafe(cleared) then (GuardBlocked(cleared), log)
        else ForwardSafely(req, cleared, cleared.sql.value, d, log)
  {
    ProductionExactly(req.policy);
  }

  /** One call: whatever it sends is its own cleared text or the EXPLAIN of it. */
  lemma {:induction false} GuardedJustified(req: Request, fe: Frontend, d: Driver, log: Log)
    ensures log <= Guarded(req, fe, d, log).1
    ensures SegmentJustified(Guarded(req, fe, d, log).1, |log|, |Guarded(req, fe, d, log).1|, req, fe)
  {
    var structural, after := Check(req.sql, req.policy, fe), Guarded(req, fe, d, log).1;
    GuardedCases(req, fe, d, log);
    if !(req.requireProduction && !Production(req.policy)) && ForwardSafe(structural) {
      var safe := structural.sql.value;
      assert Cleared(req, safe, fe);
      ClearedCall(req, structural, safe, d, log);
      forall i | |log| <= i < |after| && after[i].Executed?
        ensures Justified(after, |log|, i, req, fe)
      {
        assert SentSafely(after, |log|, i, req, safe);
      }
    }
  }

  lemma {:induction false} ExplainedStays(log: Log, longer: Log, start: nat, i: nat, safe: string, params: Params,
        policy: GuardPolicy)
    requires log <= longer && i < |log| && Explained(log, start, i, safe, params, policy)
    ensures Explained(longer, start, i, safe, params, policy)
  {
    assert forall j :: 0 <= j <= i ==> longer[j] == log[j];
  }

  lemma {:induction false} SentStays(log: Log, longer: Log, start: nat, i: nat, req: Request, safe: string)
    requires log <= longer && i < |log| && log[i].Executed? && SentSafely(log, start, i, req, safe)
    ensures longer[i] == log[i] && SentSafely(longer, start, i, req, safe)
  {
    if Explained(log, start, i, safe, req.params, req.policy) {
      ExplainedStays(log, longer, start, i, safe, req.params, req.policy);
    }
  }

  /** A longer log keeps what a segment of it was justified by. */
  lemma {:induction false} SegmentStays(log: Log, longer: Log, start: nat, end: nat, req: Request, fe: Frontend)
    requires log <= longer && end <= |log| && SegmentJustified(log, start, end, req, fe)
    ensures SegmentJustified(longer, start, end, req, fe)
  {
    forall i | start <= i < end && longer[i].Executed?
      ensures Justified(longer, start, i, req, fe)
    {
      assert longer[i] == log[i] && Justified(log, start, i, req, fe);
      var safe :| Cleared(req, safe, fe) && SentSafely(log, start, i, req, safe);
      SentStays(log, longer, start, i, req, safe);
    }
  }

  /** Where the calls of a run begin in the log, and where the last one ends. */
  ghost function Marks(reqs: seq<Request>, fe: Frontend, d: Driver, log: Log): (marks: seq<nat>)
    ensures |marks| == |reqs| + 1 && marks[0] == |log|
    decreases |reqs|
  {
    [|log|] + (if reqs == [] then [] else Marks(reqs[1..], fe, d, Guarded(reqs[0], fe, d, log).1))
  }

  /** `marks` cut the log from `start` on into one segment per request. */
  ghost predicate CutsInto(marks: seq<nat>, log: Log, start: nat, n: nat) {
    && |marks| == n + 1
    && marks[0] == start && marks[n] == |log|
    && forall j, k :: 0 <= j <= k <= n ==> marks[j] <= marks[k]
  }

  lemma {:induction false} CutsStep(marks: seq<nat>, rest: seq<nat>, log: Log, start: nat, n: nat)
    requires n > 0 && marks == [start] + rest && rest != [] && start <= rest[0] && CutsInto(rest, log, rest[0], n - 1)
    ensures CutsInto(marks, log, start, n)
  {
    assert forall k :: 0 < k <= n ==> marks[k] == rest[k - 1];
    forall j, k | 0 <= j <= k <= n
      ensures marks[j] <= marks[k]
    {
      if k > 0 {
        assert rest[0] <= rest[k - 1];
      }
    }
  }

  /**
   * Over any run and any driver failures, the log splits into one segment per call, and every text a
   * call sends is the text the guard cleared for that very call, or its EXPLAIN. If the call checks
   * costs, the text itself is sent only right after its own EXPLAIN, with the same parameters and an
   * estimate within both thresholds.
   */
  lemma {:induction false} RunIsJustified(reqs: seq<Request>, fe: Frontend, d: Driver, log: Log)
    ensures log <= RunAll(reqs, fe, d, log).1
    ensures CutsInto(Marks(reqs, fe, d, log), RunAll(reqs, fe, d, log).1, |log|, |reqs|)
    ensures forall k :: 0 <= k < |reqs| ==>
      SegmentJustified(RunAll(reqs, fe, d, log).1, Marks(reqs, fe, d, log)[k], Marks(reqs, fe, d, log)[k + 1],
          reqs[k], fe)
    decreases |reqs|
  {
    if reqs != [] {
      var log1, log2 := Guarded(reqs[0], fe, d, log).1, RunAll(reqs, fe, d, log).1;
      var marks, rest := Marks(reqs, fe, d, log), Marks(reqs[1..], fe, d, log1);
      GuardedJustified(reqs[0], fe, d, log);
      RunIsJustified(reqs[1..], fe, d, log1);
      CutsStep(marks, rest, log2, |log|, |reqs|);
      SegmentStays(log1, log2, |log|, |log1|, reqs[0], fe);
      forall k | 0 <= k < |reqs|
        ensures SegmentJustified(log2, marks[k], marks[k + 1], reqs[k], fe)
      {
        if k > 0 {
          assert reqs[k] == reqs[1..][k - 1] && marks[k] == rest[k - 1] && marks[k + 1] == rest[k - 1 + 1];
        }
      }
    }
  }

  /** No text of a cost-checked call goes out without the EXPLAIN of that call just before it. */
  lemma {:induction false} NoUncheckedExecution(reqs: seq<Request>, fe: Frontend, d: Driver, log: Log, k: nat, i: nat,
        safe: string)
    requires k < |reqs| && CostChecked(reqs[k]) && Cleared(reqs[k], safe, fe)
    requires Marks(reqs, fe, d, log)[k] <= i < Marks(reqs, fe, d, log)[k + 1] && i < |RunAll(reqs, fe, d, log).1|
    requires RunAll(reqs, fe, d, log).1[i].Executed? && RunAll(reqs, fe, d, log).1[i].text != ExplainText(safe)
    ensures Explained(RunAll(reqs, fe, d, log).1, Marks(reqs, fe, d, log)[k], i, safe, reqs[k].params, reqs[k].policy)
  {
    var after, start := RunAll(reqs, fe, d, log).1, Marks(reqs, fe, d, log)[k];
    RunIsJustified(reqs, fe, d, log);
    assert Justified(after, start, i, reqs[k], fe);
  }

  // ---------------------------------------------------------------- cursors

  function Track(open: set<nat>, e: Event): set<nat> {
    if e.Opened? then open + {e.cursor} else if e.Closed? then open - {e.cursor} else open
  }

  /** The cursors opened and not closed. */
  function OpenCursors(log: Log): set<nat>
    decreases |log|
  {
    if log == [] then {} else Track(OpenCursors(log[..|log| - 1]), log[|log| - 1])
  }

  lemma {:induction false} OneMore(log: Log, e: Event)
    ensures OpenCursors(log + [e]) == Track(OpenCursors(log), e)
  {
    assert (log + [e])[..|log|] == log;
  }

  /** Every open cursor was opened at its own position in the log. */
  ghost predicate Fresh(log: Log) {
    forall c :: c in OpenCursors(log) ==> c < |log|
  }

  lemma {:induction false} ExplainLeavesNone(d: Driver, log: Log, sql: string, params: Params)
    requires Fresh(log)
    ensures OpenCursors(Explain(d, log, sql, params).1) == OpenCursors(log) && Fresh(Explain(d, log, sql, params).1)
  {
    var (c, log1) := OpenCursor(d, log);
    if c.None? {
      OneMore(log, OpenFailed);
    } else {
      OneMore(log, Opened(|log|));
      var (ok, log2) := Send(d, log1, c.value, ExplainText(sql), params);
      OneMore(log1, Executed(c.value, ExplainText(sql), params, ok));
      if !ok {
        OneMore(log2, Closed(c.value));
      } else {
        var (f, log3) := FetchOne(d, log2, c.value);
        OneMore(log2, Fetched(c.value, f));
        OneMore(log3, Closed(c.value));
      }
    }
  }

  lemma {:induction false} ForwardLeavesOne(d: Driver, log: Log, sql: string, params: Params)
    requires Fresh(log)
    ensures var (c, after) := Forward(d, log, sql, params);
      && Fresh(after)
      && OpenCursors(after) == OpenCursors(log) + (if c.Some? then {c.value} else {})
      && (c.Some? ==> c.value !in OpenCursors(log))
  {
    var (c, log1) := OpenCursor(d, log);
    if c.None? {
      OneMore(log, OpenFailed);
    } else {
      OneMore(log, Opened(|log|));
      var (ok, log2) := Send(d, log1, c.value, sql, params);
      OneMore(log1, Executed(c.value, sql, params, ok));
      if !ok {
        OneMore(log2, Closed(c.value));
      }
    }
  }

  function CursorOf(o: Outcome): set<nat> {
    if o.Returned? then {o.cursor} else {}
  }

  /** Past the cost guard a call either ends or forwards the text. */
  lemma {:induction false} CallAfter(req: Request, structural: GuardResult, safe: string, d: Driver, log: Log,
        log1: Log)
    requires log1 == if CostChecked(req) then Explain(d, log, safe, req.params).1 else log
    ensures var (o, after) := ForwardSafely(req, structural, safe, d, log);
      var (c, log2) := Forward(d, log1, safe, req.params);
      || (CursorOf(o) == {} && after == log1)
      || (CursorOf(o) == (if c.Some? then {c.value} else {}) && after == log2)
  {
  }

  lemma {:induction false} CallLeavesCursor(req: Request, structural: GuardResult, safe: string, d: Driver, log: Log)
    requires Fresh(log)
    ensures var (o, after) := ForwardSafely(req, structural, safe, d, log);
      Fresh(after) && OpenCursors(after) == OpenCursors(log) + CursorOf(o) && CursorOf(o) !! OpenCursors(log)
  {
    var log1 := if CostChecked(req) then Explain(d, log, safe, req.params).1 else log;
    if CostChecked(req) {
      ExplainLeavesNone(d, log, safe, req.params);
    }
    ForwardLeavesOne(d, log1, safe, req.params);
    CallAfter(req, structural, safe, d, log, log1);
  }

  function CursorsOf(os: seq<Outcome>): set<nat> {
    if os == [] then {} else CursorOf(os[0]) + CursorsOf(os[1..])
  }

  /** Over any run, the cursors left open are exactly those handed to the callers. */
  lemma {:induction false} OnlyReturnedCursorsStayOpen(reqs: seq<Request>, fe: Frontend, d: Driver, log: Log)
    requires Fresh(log)
    ensures var (os, after) := RunAll(reqs, fe, d, log);
      |os| == |reqs| && Fresh(after) && OpenCursors(after) == OpenCursors(log) + CursorsOf(os)
    decreases |reqs|
  {
    if reqs != [] {
      var req := reqs[0];
      var structural := Check(req.sql, req.policy, fe);
      var (o, log1) := Guarded(req, fe, d, log);
      if ForwardSafe(structural) {
        CallLeavesCursor(req, structural, structural.sql.value, d, log);
      }
      assert OpenCursors(log1) == OpenCursors(log) + CursorOf(o);
      OnlyReturnedCursorsStayOpen(reqs[1..], fe, d, log1);
      var (os, log2) := RunAll(reqs[1..], fe, d, log1);
      assert RunAll(reqs, fe, d, log) == ([o] + os, log2);
      assert ([o] + os)[1..] == os;
    }
  }

  // ---------------------------------------------------------------- one call

  /** A call that demands a production policy touches the connection only under one. */
  lemma {:induction false} NoProductionNoCalls(req: Request, fe: Frontend, d: Driver, log: Log)
    requires req.requireProduction && Guarded(req, fe, d, log).1 != log
    ensures Production(req.policy) && ForwardSafe(Check(req.sql, req.policy, fe))
  {
    GuardedCases(req, fe, d, log);
  }

  /** Fail-closed: a call that returns had its text executed last, successfully, on the cursor it returns. */
  lemma {:induction false} ReturnedMeansExecuted(req: Request, fe: Frontend, d: Driver, log: Log)
    requires Guarded(req, fe, d, log).0.Returned?
    ensures var (o, after) := Guarded(req, fe, d, log);
      && |after| >= |log| + 2
      && ForwardSafe(o.structural) && o.structural == Check(req.sql, req.policy, fe)
      && after[|after| - 1] == Executed(o.cursor, o.structural.sql.value, req.params, true)
      && (o.cost.Some? <==> AsksCost(req))
  {
    var safe := Check(req.sql, req.policy, fe).sql.value;
    ExplainSends(d, log, safe, req.params);
  }

  /** Costs are asked for and the plan is above a threshold or could not be had. */
  ghost predicate TooCostly(req: Request, safe: string, d: Driver, log: Log) {
    var plan := Explain(d, log, safe, req.params).0;
    AsksCost(req) && (plan.None? || (!Unreadable(plan.value) && !Affordable(plan.value, req.policy)))
  }

  predicate Unreadable(plan: Plan) {
    plan.cost.Malformed? || plan.rows.Malformed?
  }

  /** Costs are asked for and a number of the plan is malformed. */
  ghost predicate PlanUnreadable(req: Request, safe: string, d: Driver, log: Log) {
    var plan := Explain(d, log, safe, req.params).0;
    AsksCost(req) && plan.Some? && Unreadable(plan.value)
  }

  /** After the EXPLAIN, if there was one, the driver opens a cursor and executes the text. */
  ghost predicate DriverRuns(req: Request, safe: string, d: Driver, log: Log) {
    var sent := if AsksCost(req) then Explain(d, log, safe, req.params).1 else log;
    d.opens(|sent|) && d.executes(|sent| + 1)
  }

  lemma {:induction false} ForwardedExactly(req: Request, structural: GuardResult, safe: string, d: Driver, log: Log)
    ensures var o := ForwardSafely(req, structural, safe, d, log).0;
      var stopped := TooCostly(req, safe, d, log) || PlanUnreadable(req, safe, d, log);
      && !o.NotProduction?
      && (o.GuardBlocked? <==> TooCostly(req, safe, d, log))
      && (o.CostRaised? <==> PlanUnreadable(req, safe, d, log))
      && (o.Returned? <==> !stopped && DriverRuns(req, safe, d, log))
      && (o.DriverRaised? <==> !stopped && !DriverRuns(req, safe, d, log))
  {
    CostGuardExactly(d, log, safe, req.policy, req.params);
  }

  /** How a call ends, and in which order the reasons not to run the text apply. */
  lemma {:induction false} OutcomeExactly(req: Request, fe: Frontend, d: Driver, log: Log)
    ensures var o := Guarded(req, fe, d, log).0;
      var cleared := Check(req.sql, req.policy, fe);
      if req.requireProduction && !Production(req.policy) then o.NotProduction?
      else if !ForwardSafe(cleared) then o == GuardBlocked(cleared)
      else
        var safe := cleared.sql.value;
        if PlanUnreadable(req, safe, d, log) then o.CostRaised?
        else if TooCostly(req, safe, d, log) then o.GuardBlocked?
        else if DriverRuns(req, safe, d, log) then o.Returned?
        else o.DriverRaised?
  {
    var cleared := Check(req.sql, req.policy, fe);
    GuardedCases(req, fe, d, log);
    if ForwardSafe(cleared) {
      ForwardedExactly(req, cleared, cleared.sql.value, d, log);
    }
  }
}
