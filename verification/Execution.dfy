/** Guarded execution over a DB-API connection whose every call may fail, and the EXPLAIN cost guard. */
module Execution {
  import opened Syntax
  import opened SqlValues
  import opened Policy
  import opened Pipeline

  type Params = Option<seq<Value>>

  /** A number in a plan; `Malformed`: float() or int() raises on it. */
  datatype Reading = Missing | Known(value: real) | Malformed

  datatype Plan = Plan(cost: Reading, rows: Reading)

  /** What `fetchone` gives for an EXPLAIN: it raises, there is no row, or a cell; `None`: not a plan. */
  datatype Fetch = FetchRaised | NoRow | Cell(plan: Option<Plan>)

  datatype Event =
    | Opened(cursor: nat)
    | OpenFailed
    | Executed(cursor: nat, text: string, params: Params, ok: bool)
    | Fetched(cursor: nat, result: Fetch)
    | Closed(cursor: nat)

  type Log = seq<Event>

  /** The driver's behaviour: what each call does, by the number of calls before it. */
  datatype Driver = Driver(opens: nat -> bool, executes: nat -> bool, fetches: nat -> Fetch)

  // ---------------------------------------------------------------- single calls

  function OpenCursor(d: Driver, log: Log): (Option<nat>, Log) {
    if d.opens(|log|) then (Some(|log|), log + [Opened(|log|)]) else (None, log + [OpenFailed])
  }

  function Send(d: Driver, log: Log, c: nat, text: string, params: Params): (bool, Log) {
    (d.executes(|log|), log + [Executed(c, text, params, d.executes(|log|))])
  }

  function FetchOne(d: Driver, log: Log, c: nat): (Fetch, Log) {
    (d.fetches(|log|), log + [Fetched(c, d.fetches(|log|))])
  }

  /** A DB-API connection, with the log of what was asked of it. */
  class Connection {
    const driver: Driver
    var log: Log

    constructor (driver: Driver)
      ensures this.driver == driver && log == []
    {
      this.driver := driver;
      log := [];
    }

    method Cursor() returns (c: Option<nat>)
      modifies this
      ensures (c, log) == OpenCursor(driver, old(log))
    {
      if driver.opens(|log|) {
        c := Some(|log|);
        log := log + [Opened(|log|)];
      } else {
        c := None;
        log := log + [OpenFailed];
      }
    }

    method Execute(c: nat, text: string, params: Params) returns (ok: bool)
      modifies this
      ensures (ok, log) == Send(driver, old(log), c, text, params)
    {
      ok := driver.executes(|log|);
      log := log + [Executed(c, text, params, ok)];
    }

    method FetchRow(c: nat) returns (f: Fetch)
      modifies this
      ensures (f, log) == FetchOne(driver, old(log), c)
    {
      f := driver.fetches(|log|);
      log := log + [Fetched(c, f)];
    }

    method Close(c: nat)
      modifies this
      ensures log == old(log) + [Closed(c)]
    {
      log := log + [Closed(c)];
    }
  }

  // ---------------------------------------------------------------- the cost guard

  const EXPLAIN_PREFIX := "EXPLAIN (FORMAT JSON, COSTS true, ANALYZE false, TIMING false, BUFFERS false)"

  function ExplainText(sql: string): string {
    EXPLAIN_PREFIX + " " + sql
  }

  /** `_explain`: the plan, or `None` when anything on the way raises; the cursor is closed in any case. */
  function Explain(d: Driver, log: Log, sql: string, params: Params): (Option<Plan>, Log) {
    var (c, log1) := OpenCursor(d, log);
    if c.None? then (None, log1)
    else
      var (ok, log2) := Send(d, log1, c.value, ExplainText(sql), params);
      if !ok then (None, log2 + [Closed(c.value)])
      else
        var (f, log3) := FetchOne(d, log2, c.value);
        (if f.Cell? then f.plan else None, log3 + [Closed(c.value)])
  }

  method RunExplain(conn: Connection, sql: string, params: Params) returns (plan: Option<Plan>)
    modifies conn
    ensures (plan, conn.log) == Explain(conn.driver, old(conn.log), sql, params)
  {
    plan := None;
    var c := conn.Cursor();
    if c.None? {
      return;
    }
    var ok := conn.Execute(c.value, ExplainText(sql), params);
    if ok {
      var f := conn.FetchRow(c.value);
      if f.Cell? {
        plan := f.plan;
      }
    }
    conn.Close(c.value);
  }

  function ReadingOr(r: Reading, default: real): real {
    if r.Known? then r.value else default
  }

  /** `int()` truncates toward zero. */
  function Truncate(r: real): int {
    if r >= 0.0 then r.Floor else -((-r).Floor)
  }

  predicate CostExceeded(plan: Plan, policy: GuardPolicy) {
    policy.costThreshold.Some? && ReadingOr(plan.cost, 0.0) > policy.costThreshold.value
  }

  predicate RowsExceeded(plan: Plan, policy: GuardPolicy) {
    policy.maxEstimatedRows.Some? && Truncate(ReadingOr(plan.rows, 0.0)) > policy.maxEstimatedRows.value
  }

  /** What the cost guard does with a statement: a verdict, or it raises on a malformed number. */
  datatype CostOutcome = Judged(result: GuardResult) | ReadingRaised

  predicate HasThreshold(policy: GuardPolicy) {
    policy.costThreshold.Some? || policy.maxEstimatedRows.Some?
  }

  function JudgePlan(plan: Option<Plan>, sql: string, policy: GuardPolicy): CostOutcome {
    if plan.None? then Judged(GuardResult(Block, None, sql, [Violation("explain_failed", High, BlockIt)]))
    else if plan.value.cost.Malformed? || plan.value.rows.Malformed? then ReadingRaised
    else
      var violations :=
        (if CostExceeded(plan.value, policy) then [Violation("cost_exceeded", High, BlockIt)] else [])
        + (if RowsExceeded(plan.value, policy) then [Violation("rows_exceeded", High, BlockIt)] else []);
      Judged(if violations != [] then GuardResult(Block, None, sql, violations)
             else GuardResult(Pass, Some(sql), sql, []))
  }

  /** `explain_cost_guard`. */
  function CostGuard(d: Driver, log: Log, sql: string, policy: GuardPolicy, params: Params): (CostOutcome, Log) {
    if !HasThreshold(policy) then (Judged(GuardResult(Pass, Some(sql), sql, [])), log)
    else
      var (plan, log1) := Explain(d, log, sql, params);
      (JudgePlan(plan, sql, policy), log1)
  }

  method RunCostGuard(conn: Connection, sql: string, policy: GuardPolicy, params: Params) returns (r: CostOutcome)
    modifies conn
    ensures (r, conn.log) == CostGuard(conn.driver, old(conn.log), sql, policy, params)
  {
    if policy.costThreshold.None? && policy.maxEstimatedRows.None? {
      return Judged(GuardResult(Pass, Some(sql), sql, []));
    }
    var plan := RunExplain(conn, sql, params);
    if plan.None? {
      return Judged(GuardResult(Block, None, sql, [Violation("explain_failed", High, BlockIt)]));
    }
    if plan.value.cost.Malformed? || plan.value.rows.Malformed? {
      return ReadingRaised;
    }
    var violations: seq<Violation> := [];
    if CostExceeded(plan.value, policy) {
      violations := violations + [Violation("cost_exceeded", High, BlockIt)];
    }
    if RowsExceeded(plan.value, policy) {
      violations := violations + [Violation("rows_exceeded", High, BlockIt)];
    }
    assert violations ==
      (if CostExceeded(plan.value, policy) then [Violation("cost_exceeded", High, BlockIt)] else [])
      + (if RowsExceeded(plan.value, policy) then [Violation("rows_exceeded", High, BlockIt)] else []);
    return Judged(if violations != [] then GuardResult(Block, None, sql, violations)
                  else GuardResult(Pass, Some(sql), sql, []));
  }

  // ---------------------------------------------------------------- execute_guarded

  datatype Request = Request(sql: string, params: Params, policy: GuardPolicy, checkCost: bool, requireProduction: bool)

  /** How a call ends: the open cursor, or what it raised. */
  datatype Outcome =
    | Returned(cursor: nat, structural: GuardResult, cost: Option<GuardResult>)
    | NotProduction
    | GuardBlocked(result: GuardResult)
    | CostRaised
    | DriverRaised

  /** Executing a text on a fresh cursor; a failed execution closes it. */
  function Forward(d: Driver, log: Log, sql: string, params: Params): (Option<nat>, Log) {
    var (c, log1) := OpenCursor(d, log);
    if c.None? then (None, log1)
    else
      var (ok, log2) := Send(d, log1, c.value, sql, params);
      if ok then (c, log2) else (None, log2 + [Closed(c.value)])
  }

  predicate CostChecked(req: Request) {
    req.checkCost && HasThreshold(req.policy)
  }

  /** The call once the text `safe` has been cleared. */
  function ForwardSafely(req: Request, structural: GuardResult, safe: string, d: Driver, log: Log): (Outcome, Log) {
    var (judged, log1) :=
      if CostChecked(req) then CostGuard(d, log, safe, req.policy, req.params)
      else (Judged(GuardResult(Pass, Some(safe), safe, [])), log);
    if judged.ReadingRaised? then (CostRaised, log1)
    else if !ForwardSafe(judged.result) then (GuardBlocked(judged.result), log1)
    else
      var (c, log2) := Forward(d, log1, safe, req.params);
      (if c.Some? then Returned(c.value, structural, if CostChecked(req) then Some(judged.result) else None)
       else DriverRaised, log2)
  }

  /** `execute_guarded`. */
  ghost function Guarded(req: Request, fe: Frontend, d: Driver, log: Log): (Outcome, Log) {
    if req.requireProduction && !ProductionReady(req.policy) then (NotProduction, log)
    else
      var structural := Check(req.sql, req.policy, fe);
      if !ForwardSafe(structural) then (GuardBlocked(structural), log)
      else ForwardSafely(req, structural, structural.sql.value, d, log)
  }

  method RunForward(conn: Connection, sql: string, params: Params) returns (c: Option<nat>)
    modifies conn
    ensures (c, conn.log) == Forward(conn.driver, old(conn.log), sql, params)
  {
    c := conn.Cursor();
    if c.None? {
      return;
    }
    var ok := conn.Execute(c.value, sql, params);
    if !ok {
      conn.Close(c.value);
      c := None;
    }
  }

  method RunForwardSafely(conn: Connection, req: Request, structural: GuardResult, safe: string) returns (o: Outcome)
    modifies conn
    ensures (o, conn.log) == ForwardSafely(req, structural, safe, conn.driver, old(conn.log))
  {
    var cost: Option<GuardResult> := None;
    if req.checkCost && (req.policy.costThreshold.Some? || req.policy.maxEstimatedRows.Some?) {
      var judged := RunCostGuard(conn, safe, req.policy, req.params);
      if judged.ReadingRaised? {
        return CostRaised;
      }
      if !ForwardSafe(judged.result) {
        return GuardBlocked(judged.result);
      }
      cost := Some(judged.result);
    }
    var c := RunForward(conn, safe, req.params);
    o := if c.Some? then Returned(c.value, structural, cost) else DriverRaised;
  }

  method ExecuteGuarded(conn: Connection, req: Request, fe: Frontend) returns (o: Outcome)
    modifies conn
    ensures (o, conn.log) == Guarded(req, fe, conn.driver, old(conn.log))
  {
    if req.requireProduction && !ProductionReady(req.policy) {
      return NotProduction;
    }
    var structural := RunCheck(req.sql, req.policy, fe);
    if structural.verdict.Block? || structural.sql.None? {
      return GuardBlocked(structural);
    }
    o := RunForwardSafely(conn, req, structural, structural.sql.value);
  }
}
