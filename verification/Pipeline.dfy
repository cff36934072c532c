/** The guard: one statement in, a verdict out. */
module Pipeline {
  import opened Syntax
  import opened Traversal
  import opened Policy
  import opened Tables
  import opened Origins
  import opened Limiting
  import opened Rewriting
  import StatementType
  import TableAllowlist
  import ColumnAllowlist
  import Pii
  import Cartesian
  import Tautology
  import Inference

  datatype Verdict = Pass | Transform | Block

  datatype GuardResult = GuardResult(verdict: Verdict, sql: Option<string>, original: string,
        violations: seq<Violation>)

  /** `forward_safe` */
  predicate ForwardSafe(r: GuardResult) {
    !r.verdict.Block? && r.sql.Some?
  }

  /** Nodes other than queries, literal bounds and numbers. */
  predicate IsContent(n: Node) {
    !Limitable(n) && !Junk(n)
  }

  /**
   * What the guard takes from elsewhere: parsing (`None`: it raised), identifier normalisation,
   * rendering, UTF-8 encoding, whether the scope resolver succeeds, and the name denylists run
   * before and after the allowlists.
   */
  datatype Frontend = Frontend(
    parse: (string, string) -> Option<seq<Option<Node>>>,
    normalise: Node -> Node,
    render: (Node, string) -> Option<string>,
    utf8Length: string -> Option<nat>,
    resolves: seq<Located> -> bool,
    early: (seq<Located>, GuardPolicy) -> seq<Violation>,
    late: (seq<Located>, GuardPolicy) -> seq<Violation>)

  // ---------------------------------------------------------------- parsing

  function RealStatements(parsed: seq<Option<Node>>): seq<Node> {
    if parsed == [] then []
    else (if parsed[0].Some? && !parsed[0].value.Semicolon? then [parsed[0].value] else [])
         + RealStatements(parsed[1..])
  }

  /** The first dialect that parses the text. */
  function FirstParse(sql: string, dialects: seq<string>, fe: Frontend): Option<(seq<Option<Node>>, string)> {
    if dialects == [] then None
    else if fe.parse(sql, dialects[0]).Some? then Some((fe.parse(sql, dialects[0]).value, dialects[0]))
    else FirstParse(sql, dialects[1..], fe)
  }

  /** `_parse_with_fallback`. */
  method ParseWithFallback(sql: string, policy: GuardPolicy, fe: Frontend)
    returns (r: Option<(seq<Option<Node>>, string)>)
    ensures r == FirstParse(sql, [policy.dialect] + policy.fallbackDialects, fe)
  {
    var dialects := [policy.dialect] + policy.fallbackDialects;
    var i := 0;
    while i < |dialects|
      invariant 0 <= i <= |dialects|
      invariant FirstParse(sql, dialects[i..], fe) == FirstParse(sql, dialects, fe)
    {
      assert dialects[i..][0] == dialects[i] && dialects[i..][1..] == dialects[i + 1..];
      var parsed := fe.parse(sql, dialects[i]);
      if parsed.Some? {
        return Some((parsed.value, dialects[i]));
      }
      i := i + 1;
    }
    return None;
  }

  predicate Blank(sql: string) {
    forall i :: 0 <= i < |sql| ==> sql[i] in {' ', '\t', '\n', '\r'}
  }

  // ---------------------------------------------------------------- the checks

  function Physicals(ts: seq<Located>): seq<ScopeSource> {
    if ts == [] then [] else [Physical(ts[0])] + Physicals(ts[1..])
  }

  /** What the scope resolver returns: the references lexical scoping binds to base tables. */
  function Resolve(stmt: Node, fe: Frontend): Option<seq<seq<ScopeSource>>> {
    if fe.resolves(FindAll(stmt, IsContent)) then Some([Physicals(LexicalTables(stmt))]) else None
  }

  function StatementTables(stmt: Node, fe: Frontend): seq<Located> {
    RealTables(stmt, Resolve(stmt, fe))
  }

  /** The reports of the checks, in the order they run. */
  function InOrder(gate: seq<Violation>, early: seq<Violation>, pii: seq<Violation>, tables: seq<Violation>,
        columns: seq<Violation>, late: seq<Violation>, cartesian: seq<Violation>, tautology: seq<Violation>,
        inference: seq<Violation>): seq<Violation>
  {
    gate + early + pii + tables + columns + late + cartesian + tautology + inference
  }

  /** Everything the checks report on a statement. */
  ghost function Findings(stmt: Node, policy: GuardPolicy, fe: Frontend): seq<Violation> {
    InOrder(StatementType.CheckStatementType(stmt, policy),
            fe.early(FindAll(stmt, IsContent), policy),
            Pii.CheckPii(stmt, StatementTables(stmt, fe), policy),
            TableAllowlist.CheckTables(StatementTables(stmt, fe), policy),
            ColumnAllowlist.CheckColumns(stmt, StatementTables(stmt, fe), policy),
            fe.late(FindAll(stmt, IsContent), policy),
            Cartesian.CheckCartesian(stmt, policy),
            Tautology.CheckTautology(stmt, policy),
            Inference.CheckInference(stmt, policy))
  }

  method RunChecks(stmt: Node, policy: GuardPolicy, fe: Frontend) returns (violations: seq<Violation>)
    ensures violations == Findings(stmt, policy, fe)
  {
    var content := FindAll(stmt, IsContent);
    var tables := FindRealTables(stmt, Resolve(stmt, fe));
    var v1 := StatementType.RunCheckStatementType(stmt, policy);
    var v2 := Pii.RunCheckPii(stmt, tables, policy);
    var v3 := TableAllowlist.RunCheckTables(tables, policy);
    var v4 := ColumnAllowlist.RunCheckColumns(stmt, tables, policy);
    var v5 := Cartesian.RunCheckCartesian(stmt, policy);
    var v6 := Tautology.RunCheckTautology(stmt, policy);
    var v7 := Inference.RunCheckInference(stmt, policy);
    violations := InOrder(v1, fe.early(content, policy), v2, v3, v4, fe.late(content, policy), v5, v6, v7);
  }

  /** Does a violation stop the statement under this policy? */
  predicate Stops(v: Violation, policy: GuardPolicy) {
    v.action.BlockIt? && Rank(v.severity) >= Rank(policy.minBlockSeverity)
  }

  predicate AnyStops(vs: seq<Violation>, policy: GuardPolicy) {
    vs != [] && (Stops(vs[0], policy) || AnyStops(vs[1..], policy))
  }

  lemma {:induction false} AnyStopsExact(vs: seq<Violation>, policy: GuardPolicy)
    ensures AnyStops(vs, policy) <==> exists v :: v in vs && Stops(v, policy)
    decreases |vs|
  {
    if vs != [] {
      AnyStopsExact(vs[1..], policy);
    }
  }

  // ---------------------------------------------------------------- check()

  function Critically(code: string): Violation {
    Violation(code, Critical, BlockIt)
  }

  function Blocked(original: string, vs: seq<Violation>): GuardResult {
    GuardResult(Block, None, original, vs)
  }

  /** The verdict on one normalised statement, once the checks have reported. */
  function Conclude(found: seq<Violation>, sql: string, stmt: Node, dialect: string, policy: GuardPolicy,
        fe: Frontend): GuardResult
  {
    if AnyStops(found, policy) then Blocked(sql, found)
    else
      var (out, limits) := ApplyLimit(stmt, policy);
      if limits == [] then GuardResult(Pass, Some(sql), sql, found)
      else if fe.render(out, dialect).None? then Blocked(sql, found + limits + [Critically("transform_error")])
      else GuardResult(Transform, fe.render(out, dialect), sql, found + limits)
  }

  ghost function Decide(sql: string, stmt: Node, dialect: string, policy: GuardPolicy, fe: Frontend): GuardResult {
    Conclude(Findings(stmt, policy, fe), sql, stmt, dialect, policy, fe)
  }

  /** Why a text is refused before it is parsed. */
  function Refusal(sql: string, policy: GuardPolicy, fe: Frontend): Option<GuardResult> {
    if |sql| > policy.maxQueryChars then Some(Blocked("", [Critically("query_too_many_characters")]))
    else if fe.utf8Length(sql).None? then Some(Blocked("", [Critically("query_invalid_encoding")]))
    else if fe.utf8Length(sql).value > policy.maxQueryBytes then Some(Blocked("", [Critically("query_too_many_bytes")]))
    else if Blank(sql) then Some(Blocked(sql, [Critically("empty")]))
    else None
  }

  /** The normalised statement of a text and the dialect that parsed it, or the refusal. */
  datatype Intake = Single(stmt: Node, dialect: string) | Turned(result: GuardResult)

  function Admit(sql: string, parsed: Option<(seq<Option<Node>>, string)>, fe: Frontend): Intake {
    if parsed.None? then Turned(Blocked(sql, [Critically("parse_error")]))
    else
      var statements := RealStatements(parsed.value.0);
      if |statements| == 0 then Turned(Blocked(sql, [Critically("parse_error")]))
      else if |statements| > 1 then Turned(Blocked(sql, [Critically("multi_statement")]))
      else Single(fe.normalise(statements[0]), parsed.value.1)
  }

  function TakeIn(sql: string, policy: GuardPolicy, fe: Frontend): Intake {
    if Refusal(sql, policy, fe).Some? then Turned(Refusal(sql, policy, fe).value)
    else Admit(sql, FirstParse(sql, [policy.dialect] + policy.fallbackDialects, fe), fe)
  }

  /** `Guard.check`. */
  ghost function Check(sql: string, policy: GuardPolicy, fe: Frontend): GuardResult {
    var taken := TakeIn(sql, policy, fe);
    if taken.Turned? then taken.result else Decide(sql, taken.stmt, taken.dialect, policy, fe)
  }

  method FindStop(violations: seq<Violation>, policy: GuardPolicy) returns (stops: bool)
    ensures stops == AnyStops(violations, policy)
  {
    var i := 0;
    while i < |violations|
      invariant 0 <= i <= |violations|
      invariant AnyStops(violations[i..], policy) == AnyStops(violations, policy)
    {
      assert violations[i..][0] == violations[i] && violations[i..][1..] == violations[i + 1..];
      if Stops(violations[i], policy) {
        return true;
      }
      i := i + 1;
    }
    return false;
  }

  method JudgeFound(found: seq<Violation>, sql: string, stmt: Node, dialect: string, policy: GuardPolicy, fe: Frontend)
    returns (r: GuardResult)
    ensures r == Conclude(found, sql, stmt, dialect, policy, fe)
  {
    var stops := FindStop(found, policy);
    if stops {
      return Blocked(sql, found);
    }
    var (transformed, limits) := ApplyLimit(stmt, policy);
    if limits != [] {
      var rendered := fe.render(transformed, dialect);
      if rendered.None? {
        return Blocked(sql, found + limits + [Critically("transform_error")]);
      }
      return GuardResult(Transform, rendered, sql, found + limits);
    }
    return GuardResult(Pass, Some(sql), sql, found);
  }

  method JudgeStatement(sql: string, stmt: Node, dialect: string, policy: GuardPolicy, fe: Frontend)
    returns (r: GuardResult)
    ensures r == Decide(sql, stmt, dialect, policy, fe)
  {
    var violations := RunChecks(stmt, policy, fe);
    r := JudgeFound(violations, sql, stmt, dialect, policy, fe);
  }

  method RunTakeIn(sql: string, policy: GuardPolicy, fe: Frontend) returns (taken: Intake)
    ensures taken == TakeIn(sql, policy, fe)
  {
    var refused := Refusal(sql, policy, fe);
    if refused.Some? {
      return Turned(refused.value);
    }
    var parsed := ParseWithFallback(sql, policy, fe);
    taken := Admit(sql, parsed, fe);
  }

  method RunCheck(sql: string, policy: GuardPolicy, fe: Frontend) returns (r: GuardResult)
    ensures r == Check(sql, policy, fe)
  {
    var taken := RunTakeIn(sql, policy, fe);
    if taken.Turned? {
      return taken.result;
    }
    r := JudgeStatement(sql, taken.stmt, taken.dialect, policy, fe);
  }

  datatype Enforced = Cleared(sql: string) | Refused(result: GuardResult)

  /** `Guard.enforce`. */
  method Enforce(sql: string, policy: GuardPolicy, fe: Frontend) returns (r: Enforced)
    ensures r.Cleared? <==> ForwardSafe(Check(sql, policy, fe))
    ensures r == if ForwardSafe(Check(sql, policy, fe)) then Cleared(Check(sql, policy, fe).sql.value)
        else Refused(Check(sql, policy, fe))
  {
    var result := RunCheck(sql, policy, fe);
    if result.verdict.Block? || result.sql.None? {
      return Refused(result);
    }
    return Cleared(result.sql.value);
  }
}
