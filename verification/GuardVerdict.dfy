/** The verdict of the guard, spelled out: which texts are admitted, what stops a statement, what is forwarded. */
module GuardVerdict {
  import opened Syntax
  import opened Traversal
  import opened Policy
  import opened Tables
  import opened Limiting
  import opened Pipeline
  import StatementType
  import TableAllowlist
  import ColumnAllowlist
  import Pii
  import Cartesian
  import Tautology
  import Inference

  // ---------------------------------------------------------------- severity

  /** `a` is as severe as `b` or more. */
  predicate AtLeast(a: Severity, b: Severity) {
    match b
    case Low => true
    case Medium => !a.Low?
    case High => a.High? || a.Critical?
    case Critical => a.Critical?
  }

  lemma {:induction false} RankExactly(a: Severity, b: Severity)
    ensures Rank(a) >= Rank(b) <==> AtLeast(a, b)
  {
  }

  /** The violation blocks and is as severe as the policy asks. */
  predicate Stopping(v: Violation, policy: GuardPolicy) {
    v.action.BlockIt? && AtLeast(v.severity, policy.minBlockSeverity)
  }

  lemma {:induction false} StopsExactly(vs: seq<Violation>, policy: GuardPolicy)
    ensures AnyStops(vs, policy) <==> exists v :: v in vs && Stopping(v, policy)
  {
    AnyStopsExact(vs, policy);
    forall v: Violation
      ensures Stops(v, policy) <==> Stopping(v, policy)
    {
      RankExactly(v.severity, policy.minBlockSeverity);
    }
  }

  // ---------------------------------------------------------------- the verdict on an admitted statement

  /** The nodes the name denylists look at. */
  ghost function Content(stmt: Node): seq<Located> {
    FindAll(stmt, IsContent)
  }

  /** Those are all nodes but queries, numbers and bounds that are missing or a number. */
  lemma {:induction false} ContentExactly(stmt: Node, l: Located)
    ensures l in Content(stmt) <==>
      && Inside(l, stmt) && !l.node.Select? && !l.node.SetOp? && !l.node.Number?
      && ((l.node.Limit? || l.node.Fetch?) ==> l.node.count.Some? && !l.node.count.value.Number?)
  {
    FoundIffInside(stmt, IsContent, l);
  }

  /** Some check reports `v`: the gate, the denylists, the allowlists, or one of the query-shape checks. */
  ghost predicate Reported(v: Violation, stmt: Node, policy: GuardPolicy, fe: Frontend) {
    var tables := StatementTables(stmt, fe);
    || v in StatementType.CheckStatementType(stmt, policy)
    || v in fe.early(Content(stmt), policy)
    || v in Pii.CheckPii(stmt, tables, policy)
    || v in TableAllowlist.CheckTables(tables, policy)
    || v in ColumnAllowlist.CheckColumns(stmt, tables, policy)
    || v in fe.late(Content(stmt), policy)
    || v in Cartesian.CheckCartesian(stmt, policy)
    || v in Tautology.CheckTautology(stmt, policy)
    || v in Inference.CheckInference(stmt, policy)
  }

  /** All reports, in the order the checks run. */
  ghost function Reports(stmt: Node, policy: GuardPolicy, fe: Frontend): seq<Violation> {
    var tables := StatementTables(stmt, fe);
    StatementType.CheckStatementType(stmt, policy)
    + fe.early(Content(stmt), policy)
    + Pii.CheckPii(stmt, tables, policy)
    + TableAllowlist.CheckTables(tables, policy)
    + ColumnAllowlist.CheckColumns(stmt, tables, policy)
    + fe.late(Content(stmt), policy)
    + Cartesian.CheckCartesian(stmt, policy)
    + Tautology.CheckTautology(stmt, policy)
    + Inference.CheckInference(stmt, policy)
  }

  lemma {:induction false} MemberOfNine(v: Violation, a: seq<Violation>, b: seq<Violation>, c: seq<Violation>,
        d: seq<Violation>, e: seq<Violation>, f: seq<Violation>, g: seq<Violation>, h: seq<Violation>,
        i: seq<Violation>)
    ensures v in a + b + c + d + e + f + g + h + i <==>
      v in a || v in b || v in c || v in d || v in e || v in f || v in g || v in h || v in i
  {
  }

  lemma {:induction false} InReports(v: Violation, stmt: Node, policy: GuardPolicy, fe: Frontend)
    ensures v in Reports(stmt, policy, fe) <==> Reported(v, stmt, policy, fe)
  {
    var tables := StatementTables(stmt, fe);
    MemberOfNine(v, StatementType.CheckStatementType(stmt, policy), fe.early(Content(stmt), policy),
                 Pii.CheckPii(stmt, tables, policy), TableAllowlist.CheckTables(tables, policy),
                 ColumnAllowlist.CheckColumns(stmt, tables, policy), fe.late(Content(stmt), policy),
                 Cartesian.CheckCartesian(stmt, policy), Tautology.CheckTautology(stmt, policy),
                 Inference.CheckInference(stmt, policy));
  }

  /** Something reported stops the statement. */
  ghost predicate Stopped(stmt: Node, policy: GuardPolicy, fe: Frontend) {
    exists v :: Reported(v, stmt, policy, fe) && Stopping(v, policy)
  }

  lemma {:induction false} StoppedExactly(stmt: Node, policy: GuardPolicy, fe: Frontend)
    ensures AnyStops(Reports(stmt, policy, fe), policy) <==> Stopped(stmt, policy, fe)
  {
    StopsExactly(Reports(stmt, policy, fe), policy);
    forall v
      ensures v in Reports(stmt, policy, fe) <==> Reported(v, stmt, policy, fe)
    {
      InReports(v, stmt, policy, fe);
    }
  }

  lemma {:induction false} FindingsAre(stmt: Node, policy: GuardPolicy, fe: Frontend)
    ensures Findings(stmt, policy, fe) == Reports(stmt, policy, fe)
  {
  }

  /** The rewrite is needed but cannot be rendered. */
  ghost predicate Unrenderable(stmt: Node, dialect: string, policy: GuardPolicy, fe: Frontend) {
    ApplyLimit(stmt, policy).1 != [] && fe.render(ApplyLimit(stmt, policy).0, dialect).None?
  }

  /**
   * The result for an admitted statement: it is blocked with all reports if one of them stops it;
   * otherwise it passes as written, or its rewrite is rendered, or that failure blocks it.
   */
  lemma {:induction false} CheckedExactly(sql: string, policy: GuardPolicy, fe: Frontend, stmt: Node, dialect: string)
    requires TakeIn(sql, policy, fe) == Single(stmt, dialect)
    ensures var (out, limits) := ApplyLimit(stmt, policy);
      var all := Reports(stmt, policy, fe);
      Check(sql, policy, fe) ==
        if Stopped(stmt, policy, fe) then GuardResult(Block, None, sql, all)
        else if limits == [] then GuardResult(Pass, Some(sql), sql, all)
        else if fe.render(out, dialect).None? then
          GuardResult(Block, None, sql, all + limits + [Violation("transform_error", Critical, BlockIt)])
        else GuardResult(Transform, fe.render(out, dialect), sql, all + limits)
  {
    FindingsAre(stmt, policy, fe);
    StoppedExactly(stmt, policy, fe);
  }

  /** An admitted statement is blocked exactly if some report stops it or its rewrite cannot be rendered. */
  lemma {:induction false} BlockedExactly(sql: string, policy: GuardPolicy, fe: Frontend, stmt: Node, dialect: string)
    requires TakeIn(sql, policy, fe) == Single(stmt, dialect)
    ensures Check(sql, policy, fe).verdict.Block? <==>
      Stopped(stmt, policy, fe) || Unrenderable(stmt, dialect, policy, fe)
    ensures ForwardSafe(Check(sql, policy, fe)) <==> !Check(sql, policy, fe).verdict.Block?
  {
    CheckedExactly(sql, policy, fe, stmt, dialect);
  }

  // ---------------------------------------------------------------- the query-shape checks

  lemma {:induction false} ProductReports(selects: seq<Node>, v: Violation)
    requires v in Cartesian.CartesianOf(selects)
    ensures v == Violation("cartesian", Medium, BlockIt)
    decreases |selects|
  {
    if v !in Cartesian.SelectVerdict(selects[0]) {
      ProductReports(selects[1..], v);
    }
  }

  /** The query-shape checks report MEDIUM violations that block. */
  lemma {:induction false} ShapeReports(stmt: Node, policy: GuardPolicy, v: Violation)
    ensures v in Cartesian.CheckCartesian(stmt, policy) ==> v == Violation("cartesian", Medium, BlockIt)
    ensures v in Tautology.CheckTautology(stmt, policy) ==> v == Violation("tautology", Medium, BlockIt)
    ensures v in Inference.CheckInference(stmt, policy) ==> v == Violation("inference_probe", Medium, BlockIt)
  {
    if v in Cartesian.CheckCartesian(stmt, policy) {
      ProductReports(Cartesian.TopSelects(stmt), v);
    }
  }

  lemma {:induction false} SomeMember(vs: seq<Violation>)
    requires vs != []
    ensures exists v :: v in vs
  {
    assert vs[0] in vs;
  }

  /**
   * Where MEDIUM stops, nothing is forwarded that the product, tautology or inference check reports,
   * and under any policy nothing that a denylist reports severely enough.
   */
  lemma {:induction false} ForwardedIsClean(sql: string, policy: GuardPolicy, fe: Frontend, stmt: Node, dialect: string)
    requires TakeIn(sql, policy, fe) == Single(stmt, dialect) && ForwardSafe(Check(sql, policy, fe))
    ensures AtLeast(Medium, policy.minBlockSeverity) ==>
      && Cartesian.CheckCartesian(stmt, policy) == []
      && Tautology.CheckTautology(stmt, policy) == []
      && Inference.CheckInference(stmt, policy) == []
    ensures forall v :: v in fe.early(Content(stmt), policy) || v in fe.late(Content(stmt), policy) ==>
      !Stopping(v, policy)
  {
    BlockedExactly(sql, policy, fe, stmt, dialect);
    assert forall v :: Reported(v, stmt, policy, fe) ==> !Stopping(v, policy);
    if AtLeast(Medium, policy.minBlockSeverity) {
      forall v
        ensures v !in Cartesian.CheckCartesian(stmt, policy) && v !in Tautology.CheckTautology(stmt, policy)
        ensures v !in Inference.CheckInference(stmt, policy)
      {
        ShapeReports(stmt, policy, v);
        assert Reported(v, stmt, policy, fe) ==> !Stopping(v, policy);
      }
      if Cartesian.CheckCartesian(stmt, policy) != [] {
        SomeMember(Cartesian.CheckCartesian(stmt, policy));
      }
      if Tautology.CheckTautology(stmt, policy) != [] {
        SomeMember(Tautology.CheckTautology(stmt, policy));
      }
      if Inference.CheckInference(stmt, policy) != [] {
        SomeMember(Inference.CheckInference(stmt, policy));
      }
    }
  }

  // ---------------------------------------------------------------- admission

  /** The text is within both size limits, encodable and not blank. */
  predicate Admissible(sql: string, policy: GuardPolicy, fe: Frontend) {
    && |sql| <= policy.maxQueryChars
    && fe.utf8Length(sql).Some? && fe.utf8Length(sql).value <= policy.maxQueryBytes
    && exists i :: 0 <= i < |sql| && sql[i] != ' ' && sql[i] != '\t' && sql[i] != '\n' && sql[i] != '\r'
  }

  /** Dialect `i` is the first that parses the text, and it gives `parsed`. */
  ghost predicate ParsedBy(sql: string, dialects: seq<string>, fe: Frontend, i: nat, parsed: seq<Option<Node>>) {
    && i < |dialects|
    && fe.parse(sql, dialects[i]) == Some(parsed)
    && forall j :: 0 <= j < i ==> fe.parse(sql, dialects[j]).None?
  }

  lemma {:induction false} FirstParseExactly(sql: string, dialects: seq<string>, fe: Frontend)
    returns (i: nat)
    ensures FirstParse(sql, dialects, fe).None? ==> forall j :: 0 <= j < |dialects| ==> fe.parse(sql, dialects[j]).None?
    ensures FirstParse(sql, dialects, fe).Some? ==>
      && ParsedBy(sql, dialects, fe, i, FirstParse(sql, dialects, fe).value.0)
      && FirstParse(sql, dialects, fe).value.1 == dialects[i]
    decreases |dialects|
  {
    i := 0;
    if dialects != [] && fe.parse(sql, dialects[0]).None? {
      var k := FirstParseExactly(sql, dialects[1..], fe);
      assert forall j :: 0 < j < |dialects| ==> dialects[j] == dialects[1..][j - 1];
      i := k + 1;
    }
  }

  /** A statement that is neither missing nor a stray semicolon. */
  predicate Real(o: Option<Node>) {
    o.Some? && !o.value.Semicolon?
  }

  /** Exactly one parsed statement is real, and it is `stmt`. */
  ghost predicate OnlyReal(parsed: seq<Option<Node>>, stmt: Node) {
    exists i :: 0 <= i < |parsed| && Real(parsed[i]) && parsed[i] == Some(stmt)
      && forall j :: 0 <= j < |parsed| && j != i ==> !Real(parsed[j])
  }

  lemma {:induction false} NoneReal(parsed: seq<Option<Node>>)
    ensures RealStatements(parsed) == [] <==> forall j :: 0 <= j < |parsed| ==> !Real(parsed[j])
    decreases |parsed|
  {
    if parsed != [] {
      NoneReal(parsed[1..]);
      assert forall j :: 0 < j < |parsed| ==> parsed[j] == parsed[1..][j - 1];
      if RealStatements(parsed) == [] {
        forall j | 0 <= j < |parsed|
          ensures !Real(parsed[j])
        {
          assert j > 0 ==> parsed[j] == parsed[1..][j - 1];
        }
      } else if !Real(parsed[0]) {
        var j :| 0 <= j < |parsed[1..]| && Real(parsed[1..][j]);
        assert Real(parsed[j + 1]);
      }
    }
  }

  lemma {:induction false} OneReal(parsed: seq<Option<Node>>, stmt: Node)
    ensures RealStatements(parsed) == [stmt] <==> OnlyReal(parsed, stmt)
    decreases |parsed|
  {
    if parsed != [] {
      var rest := parsed[1..];
      assert forall j :: 0 < j < |parsed| ==> parsed[j] == rest[j - 1];
      if Real(parsed[0]) {
        NoneReal(rest);
        OneRealFirst(parsed, stmt);
      } else {
        OneReal(rest, stmt);
        OneRealLater(parsed, stmt);
      }
    }
  }

  lemma {:induction false} OneRealFirst(parsed: seq<Option<Node>>, stmt: Node)
    requires parsed != [] && Real(parsed[0])
    ensures OnlyReal(parsed, stmt) <==>
      parsed[0].value == stmt && forall j :: 0 <= j < |parsed[1..]| ==> !Real(parsed[1..][j])
  {
    assert forall j :: 0 < j < |parsed| ==> parsed[j] == parsed[1..][j - 1];
    if OnlyReal(parsed, stmt) {
      forall j | 0 <= j < |parsed[1..]|
        ensures !Real(parsed[1..][j])
      {
        assert parsed[1..][j] == parsed[j + 1];
      }
    }
  }

  lemma {:induction false} OneRealLater(parsed: seq<Option<Node>>, stmt: Node)
    requires parsed != [] && !Real(parsed[0])
    ensures OnlyReal(parsed, stmt) <==> OnlyReal(parsed[1..], stmt)
  {
    var rest := parsed[1..];
    if OnlyReal(parsed, stmt) {
      var i :| 0 <= i < |parsed| && Real(parsed[i]) && parsed[i] == Some(stmt)
        && forall j :: 0 <= j < |parsed| && j != i ==> !Real(parsed[j]);
      assert rest[i - 1] == parsed[i];
      forall j | 0 <= j < |rest| && j != i - 1
        ensures !Real(rest[j])
      {
        assert rest[j] == parsed[j + 1];
      }
    }
    if OnlyReal(rest, stmt) {
      var i :| 0 <= i < |rest| && Real(rest[i]) && rest[i] == Some(stmt)
        && forall j :: 0 <= j < |rest| && j != i ==> !Real(rest[j]);
      assert parsed[i + 1] == rest[i];
      forall j | 0 <= j < |parsed| && j != i + 1
        ensures !Real(parsed[j])
      {
        assert j > 0 ==> parsed[j] == rest[j - 1];
      }
    }
  }

  /** The first dialect that parses the text gives exactly one real statement, `one`. */
  ghost predicate SoleStatement(sql: string, policy: GuardPolicy, fe: Frontend, one: Node, dialect: string) {
    var dialects := [policy.dialect] + policy.fallbackDialects;
    exists i: nat, parsed ::
      ParsedBy(sql, dialects, fe, i, parsed) && OnlyReal(parsed, one) && dialect == dialects[i]
  }

  lemma {:induction false} RefusalExactly(sql: string, policy: GuardPolicy, fe: Frontend)
    ensures Refusal(sql, policy, fe).None? <==> Admissible(sql, policy, fe)
  {
  }

  /** An over-long, unencodable or blank text is refused, with the first reason that applies. */
  lemma {:induction false} RefusedWith(sql: string, policy: GuardPolicy, fe: Frontend)
    ensures |sql| > policy.maxQueryChars ==>
      Check(sql, policy, fe)
        == GuardResult(Block, None, "", [Violation("query_too_many_characters", Critical, BlockIt)])
    ensures |sql| <= policy.maxQueryChars && fe.utf8Length(sql).None? ==>
      Check(sql, policy, fe) == GuardResult(Block, None, "", [Violation("query_invalid_encoding", Critical, BlockIt)])
    ensures |sql| <= policy.maxQueryChars && fe.utf8Length(sql).Some? ==>
      fe.utf8Length(sql).value > policy.maxQueryBytes ==>
        Check(sql, policy, fe) == GuardResult(Block, None, "", [Violation("query_too_many_bytes", Critical, BlockIt)])
    ensures |sql| <= policy.maxQueryChars && fe.utf8Length(sql).Some? ==>
      fe.utf8Length(sql).value <= policy.maxQueryBytes && !Admissible(sql, policy, fe) ==>
        Check(sql, policy, fe) == GuardResult(Block, None, sql, [Violation("empty", Critical, BlockIt)])
  {
  }

  /** A statement is admitted exactly if the text is admissible and holds that one statement. */
  lemma {:induction false} AdmittedExactly(sql: string, policy: GuardPolicy, fe: Frontend, stmt: Node, dialect: string)
    ensures TakeIn(sql, policy, fe) == Single(stmt, dialect) <==>
      && Admissible(sql, policy, fe)
      && exists one :: SoleStatement(sql, policy, fe, one, dialect) && stmt == fe.normalise(one)
  {
    RefusalExactly(sql, policy, fe);
    var dialects := [policy.dialect] + policy.fallbackDialects;
    var i := FirstParseExactly(sql, dialects, fe);
    var first := FirstParse(sql, dialects, fe);
    if first.Some? {
      ParsedOnce(sql, dialects, fe, i, first.value.0);
      forall one
        ensures RealStatements(first.value.0) == [one] <==> OnlyReal(first.value.0, one)
      {
        OneReal(first.value.0, one);
      }
      SoleExactly(sql, policy, fe, i, first.value.0);
    }
  }

  /** There is only one first dialect. */
  lemma {:induction false} ParsedOnce(sql: string, dialects: seq<string>, fe: Frontend, i: nat,
        parsed: seq<Option<Node>>)
    requires ParsedBy(sql, dialects, fe, i, parsed)
    ensures forall j: nat, other :: ParsedBy(sql, dialects, fe, j, other) ==> j == i && other == parsed
  {
  }

  lemma {:induction false} SoleExactly(sql: string, policy: GuardPolicy, fe: Frontend, i: nat,
        parsed: seq<Option<Node>>)
    requires ParsedBy(sql, [policy.dialect] + policy.fallbackDialects, fe, i, parsed)
    ensures forall one, dialect :: SoleStatement(sql, policy, fe, one, dialect) <==>
      OnlyReal(parsed, one) && dialect == ([policy.dialect] + policy.fallbackDialects)[i]
  {
    ParsedOnce(sql, [policy.dialect] + policy.fallbackDialects, fe, i, parsed);
  }

  /** An admissible text that no dialect parses, or that holds no or several statements, is refused. */
  lemma {:induction false} NotOneStatement(sql: string, policy: GuardPolicy, fe: Frontend)
    requires Admissible(sql, policy, fe)
    ensures var dialects := [policy.dialect] + policy.fallbackDialects;
      (forall j :: 0 <= j < |dialects| ==> fe.parse(sql, dialects[j]).None?) ==>
        Check(sql, policy, fe) == GuardResult(Block, None, sql, [Violation("parse_error", Critical, BlockIt)])
    ensures forall i: nat, parsed :: ParsedBy(sql, [policy.dialect] + policy.fallbackDialects, fe, i, parsed) ==>
      (forall k :: 0 <= k < |parsed| ==> !Real(parsed[k])) ==>
        Check(sql, policy, fe) == GuardResult(Block, None, sql, [Violation("parse_error", Critical, BlockIt)])
    ensures forall i: nat, parsed :: ParsedBy(sql, [policy.dialect] + policy.fallbackDialects, fe, i, parsed) ==>
      Several(parsed) ==>
        Check(sql, policy, fe) == GuardResult(Block, None, sql, [Violation("multi_statement", Critical, BlockIt)])
  {
    RefusalExactly(sql, policy, fe);
    var dialects := [policy.dialect] + policy.fallbackDialects;
    var i := FirstParseExactly(sql, dialects, fe);
    var first := FirstParse(sql, dialects, fe);
    if first.Some? {
      ParsedOnce(sql, dialects, fe, i, first.value.0);
      NoneReal(first.value.0);
      SeveralExactly(first.value.0);
    } else {
      assert dialects[0] == policy.dialect;
    }
  }

  /** More than one parsed statement is real. */
  ghost predicate Several(parsed: seq<Option<Node>>) {
    exists i, j :: 0 <= i < j < |parsed| && Real(parsed[i]) && Real(parsed[j])
  }

  lemma {:induction false} SeveralExactly(parsed: seq<Option<Node>>)
    ensures Several(parsed) <==> |RealStatements(parsed)| > 1
  {
    var reals := RealStatements(parsed);
    NoneReal(parsed);
    if |reals| == 1 {
      assert reals == [reals[0]];
      OneReal(parsed, reals[0]);
    } else if |reals| > 1 {
      var i :| 0 <= i < |parsed| && Real(parsed[i]);
      OneReal(parsed, parsed[i].value);
      assert reals != [parsed[i].value];
      assert !OnlyReal(parsed, parsed[i].value);
      var j :| 0 <= j < |parsed| && j != i && Real(parsed[j]);
      assert Real(parsed[if i < j then i else j]) && Real(parsed[if i < j then j else i]);
    }
  }
}
