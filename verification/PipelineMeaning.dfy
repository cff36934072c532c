/** What a forward-safe result guarantees about the statement that reaches the database. */
module PipelineMeaning {
  import opened Syntax
  import Text
  import opened Traversal
  import opened Semantics
  import opened Origins
  import opened Noninterference
  import opened Policy
  import opened Tables
  import opened TableAllowlist
  import opened Limiting
  import opened Rewriting
  import opened Pipeline
  import opened StatementType
  import opened Effects
  import opened Scoping
  import Cartesian
  import Tautology
  import Inference
  import ColumnAllowlist
  import ColumnMeaning
  import Pii
  import PiiMeaning

  /** The tree that is forwarded. */
  function Forwarded(stmt: Node, policy: GuardPolicy): Node {
    ApplyLimit(stmt, policy).0
  }

  /** The text has exactly one statement that is neither empty nor a comment, and `stmt` is it. */
  ghost predicate OnlyStatement(sql: string, policy: GuardPolicy, fe: Frontend, stmt: Node, dialect: string) {
    exists parsed, one ::
      && FirstParse(sql, [policy.dialect] + policy.fallbackDialects, fe) == Some((parsed, dialect))
      && RealStatements(parsed) == [one]
      && stmt == fe.normalise(one)
  }

  lemma {:induction false} SingleIsOnly(sql: string, policy: GuardPolicy, fe: Frontend)
    requires TakeIn(sql, policy, fe).Single?
    ensures OnlyStatement(sql, policy, fe, TakeIn(sql, policy, fe).stmt, TakeIn(sql, policy, fe).dialect)
  {
    var parsed := FirstParse(sql, [policy.dialect] + policy.fallbackDialects, fe).value;
    assert RealStatements(parsed.0) == [RealStatements(parsed.0)[0]];
  }

  lemma {:induction false} RefusedIsBlocked(sql: string, policy: GuardPolicy, fe: Frontend)
    requires TakeIn(sql, policy, fe).Turned?
    ensures Check(sql, policy, fe).verdict.Block?
  {
  }

  lemma {:induction false} ConcludeSafe(found: seq<Violation>, sql: string, stmt: Node, dialect: string,
        policy: GuardPolicy, fe: Frontend)
    requires ForwardSafe(Conclude(found, sql, stmt, dialect, policy, fe))
    ensures !AnyStops(found, policy)
    ensures Conclude(found, sql, stmt, dialect, policy, fe).sql ==
      if ApplyLimit(stmt, policy).1 == [] then Some(sql) else fe.render(Forwarded(stmt, policy), dialect)
  {
  }

  /** Forward-safe: one statement, nothing stops it, and the text is the original or the rendered rewrite. */
  lemma {:induction false} ForwardSafeMeans(sql: string, policy: GuardPolicy, fe: Frontend)
    returns (stmt: Node, dialect: string)
    requires ForwardSafe(Check(sql, policy, fe))
    ensures OnlyStatement(sql, policy, fe, stmt, dialect) && TakeIn(sql, policy, fe) == Single(stmt, dialect)
    ensures !AnyStops(Findings(stmt, policy, fe), policy)
    ensures Check(sql, policy, fe).sql == if ApplyLimit(stmt, policy).1 == [] then Some(sql)
        else fe.render(Forwarded(stmt, policy), dialect)
  {
    if TakeIn(sql, policy, fe).Turned? {
      RefusedIsBlocked(sql, policy, fe);
    }
    stmt, dialect := TakeIn(sql, policy, fe).stmt, TakeIn(sql, policy, fe).dialect;
    SingleIsOnly(sql, policy, fe);
    ConcludeSafe(Findings(stmt, policy, fe), sql, stmt, dialect, policy, fe);
  }

  lemma {:induction false} NothingStops(part: seq<Violation>, found: seq<Violation>, policy: GuardPolicy)
    requires !AnyStops(found, policy) && forall v :: v in part ==> v in found && Stops(v, policy)
    ensures part == []
  {
    if part != [] {
      var v := part[0];
      assert v in found && Stops(v, policy);
      AnyStopsExact(found, policy);
    }
  }

  lemma {:induction false} InFindings(stmt: Node, policy: GuardPolicy, fe: Frontend)
    ensures forall v :: v in CheckStatementType(stmt, policy) ==> v in Findings(stmt, policy, fe)
    ensures forall v :: v in CheckTables(StatementTables(stmt, fe), policy) ==> v in Findings(stmt, policy, fe)
    ensures forall v :: v in ColumnAllowlist.CheckColumns(stmt, StatementTables(stmt, fe), policy) ==>
        v in Findings(stmt, policy, fe)
    ensures forall v :: v in Pii.CheckPii(stmt, StatementTables(stmt, fe), policy) ==> v in Findings(stmt, policy, fe)
  {
    InOrderHas(CheckStatementType(stmt, policy), fe.early(FindAll(stmt, IsContent), policy),
               Pii.CheckPii(stmt, StatementTables(stmt, fe), policy),
               CheckTables(StatementTables(stmt, fe), policy),
               ColumnAllowlist.CheckColumns(stmt, StatementTables(stmt, fe), policy),
               fe.late(FindAll(stmt, IsContent), policy), Cartesian.CheckCartesian(stmt, policy),
               Tautology.CheckTautology(stmt, policy), Inference.CheckInference(stmt, policy));
  }

  lemma {:induction false} InOrderHas(gate: seq<Violation>, early: seq<Violation>, pii: seq<Violation>,
        tables: seq<Violation>, columns: seq<Violation>, late: seq<Violation>, cartesian: seq<Violation>,
        tautology: seq<Violation>, inference: seq<Violation>)
    ensures forall v :: v in gate || v in pii || v in tables || v in columns ==>
      v in InOrder(gate, early, pii, tables, columns, late, cartesian, tautology, inference)
  {
  }

  /** The table allowlist reports one violation only: HIGH and blocking. */
  lemma {:induction false} TablesAlike(tables: seq<Located>, policy: GuardPolicy)
    ensures Each(CheckTables(tables, policy), Violation("table_not_allowed", High, BlockIt))
  {
    if policy.allowedTables.Some? {
      forall v | v in CheckTables(tables, policy)
        ensures v == Violation("table_not_allowed", High, BlockIt)
      {
        TableReports(tables, policy.allowedTables.value, {}, v);
      }
    }
  }

  ghost predicate Each(vs: seq<Violation>, w: Violation) {
    forall v :: v in vs ==> v == w
  }

  lemma {:induction false} UsingAlike(names: seq<string>, b: ColumnAllowlist.Books)
    ensures Each(ColumnAllowlist.UsingNames(names, b), ColumnAllowlist.COLUMN_NOT_ALLOWED)
    decreases |names|
  {
    if names != [] {
      UsingAlike(names[1..], b);
    }
  }

  lemma {:induction false} JoinUsingAlike(joins: seq<Located>, b: ColumnAllowlist.Books)
    ensures Each(ColumnAllowlist.UsingViolations(joins, b), ColumnAllowlist.COLUMN_NOT_ALLOWED)
    decreases |joins|
  {
    if joins != [] {
      if joins[0].node.Join? {
        UsingAlike(joins[0].node.using, b);
      }
      JoinUsingAlike(joins[1..], b);
    }
  }

  lemma {:induction false} ColumnListAlike(cols: seq<Located>, b: ColumnAllowlist.Books)
    ensures Each(ColumnAllowlist.ColumnViolations(cols, b), ColumnAllowlist.COLUMN_NOT_ALLOWED)
    decreases |cols|
  {
    if cols != [] {
      ColumnListAlike(cols[1..], b);
    }
  }

  lemma {:induction false} ColumnReportAlike(stmt: Node, stars: seq<Located>, joins: seq<Located>,
        cols: seq<Located>, b: ColumnAllowlist.Books)
    ensures Each(ColumnAllowlist.ColumnReport(stmt, stars, joins, cols, b), ColumnAllowlist.COLUMN_NOT_ALLOWED)
  {
    JoinUsingAlike(joins, b);
    ColumnListAlike(cols, b);
  }

  /** The column allowlist reports one violation only: HIGH and blocking. */
  lemma {:induction false} ColumnsAlike(stmt: Node, tables: seq<Located>, policy: GuardPolicy)
    ensures Each(ColumnAllowlist.CheckColumns(stmt, tables, policy), Violation("column_not_allowed", High, BlockIt))
  {
    if policy.allowedTables.Some? {
      ColumnReportAlike(stmt, FindAll(stmt, ColumnAllowlist.IsStar), FindAll(stmt, IsJoin),
                         FindAll(stmt, IsColumn), ColumnAllowlist.BooksOf(stmt, tables, policy.allowedTables.value));
    }
  }

  // PII reports grow by PII_COLUMN only.

  lemma {:induction false} FlagAllAlike(r: Pii.Report, entries: seq<Pii.Entry>, mark: string)
    requires Each(r.out, Pii.PII_COLUMN)
    ensures Each(Pii.FlagAll(r, entries, mark).out, Pii.PII_COLUMN)
    decreases |entries|
  {
    if entries != [] {
      FlagAllAlike(Pii.Flag(r, entries[0].key, mark), entries[1..], mark);
    }
  }

  lemma {:induction false} FlagUsingAlike(r: Pii.Report, active: seq<Pii.Entry>, name: string)
    requires Each(r.out, Pii.PII_COLUMN)
    ensures Each(Pii.FlagUsing(r, active, name).out, Pii.PII_COLUMN)
    decreases |active|
  {
    if active != [] {
      FlagUsingAlike(if name in active[0].columns then Pii.Flag(r, active[0].key, name) else r, active[1..], name);
    }
  }

  lemma {:induction false} FlagUsingsAlike(r: Pii.Report, active: seq<Pii.Entry>, names: seq<string>)
    requires Each(r.out, Pii.PII_COLUMN)
    ensures Each(Pii.FlagUsings(r, active, names).out, Pii.PII_COLUMN)
    decreases |names|
  {
    if names != [] {
      FlagUsingAlike(r, active, Text.Lower(names[0]));
      FlagUsingsAlike(Pii.FlagUsing(r, active, Text.Lower(names[0])), active, names[1..]);
    }
  }

  lemma {:induction false} FlagJoinsAlike(r: Pii.Report, active: seq<Pii.Entry>, scoped: seq<Pii.Entry>, s: Located,
        i: nat)
    requires s.node.Select? && i <= |s.node.joins| && Each(r.out, Pii.PII_COLUMN)
    ensures Each(Pii.FlagJoins(r, active, scoped, s, i).out, Pii.PII_COLUMN)
    decreases |s.node.joins| - i
  {
    if i < |s.node.joins| {
      var now, j := Pii.Activate(active, scoped, s, i), s.node.joins[i];
      if j.Join? {
        FlagAllAlike(r, now, "NATURAL JOIN");
        FlagUsingsAlike(if IsNatural(j) then Pii.FlagAll(r, now, "NATURAL JOIN") else r, now, j.using);
      }
      FlagJoinsAlike(Pii.FlagJoin(r, now, j), now, scoped, s, i + 1);
    }
  }

  lemma {:induction false} FlagSelectsAlike(r: Pii.Report, selects: seq<Located>, mapped: seq<Pii.Entry>)
    requires Each(r.out, Pii.PII_COLUMN)
    ensures Each(Pii.FlagSelects(r, selects, mapped).out, Pii.PII_COLUMN)
    decreases |selects|
  {
    if selects != [] {
      var s := selects[0];
      if s.node.Select? {
        var scoped := Pii.InSelect(mapped, s.node.id);
        FlagJoinsAlike(r, Pii.OutsideJoins(scoped, s), scoped, s, 0);
        FlagSelectsAlike(Pii.FlagJoins(r, Pii.OutsideJoins(scoped, s), scoped, s, 0), selects[1..], mapped);
      } else {
        FlagSelectsAlike(r, selects[1..], mapped);
      }
    }
  }

  lemma {:induction false} FlagStarsAlike(r: Pii.Report, stars: seq<Located>, mapped: seq<Pii.Entry>)
    requires Each(r.out, Pii.PII_COLUMN)
    ensures Each(Pii.FlagStars(r, stars, mapped).out, Pii.PII_COLUMN)
    decreases |stars|
  {
    if stars != [] {
      FlagAllAlike(r, Pii.StarCandidates(stars[0], mapped), "*");
      var r' := if UnderCount(stars[0].up) then r else Pii.FlagAll(r, Pii.StarCandidates(stars[0], mapped), "*");
      FlagStarsAlike(r', stars[1..], mapped);
    }
  }

  lemma {:induction false} FlagColumnAlike(r: Pii.Report, entries: seq<Pii.Entry>, col: Node)
    requires col.Column? && Each(r.out, Pii.PII_COLUMN)
    ensures Each(Pii.FlagColumn(r, entries, col).out, Pii.PII_COLUMN)
    decreases |entries|
  {
    if entries != [] {
      var e, name := entries[0], Text.Lower(col.name);
      var r' :=
        if Pii.WholeRow(col, e) then Pii.Flag(r, e.key, "*")
        else if name in e.columns then Pii.Flag(r, e.key, name)
        else r;
      FlagColumnAlike(r', entries[1..], col);
    }
  }

  lemma {:induction false} FlagColumnsAlike(r: Pii.Report, cols: seq<Located>, mapped: seq<Pii.Entry>)
    requires Each(r.out, Pii.PII_COLUMN)
    ensures Each(Pii.FlagColumns(r, cols, mapped).out, Pii.PII_COLUMN)
    decreases |cols|
  {
    if cols != [] {
      if cols[0].node.Column? {
        FlagColumnAlike(r, Pii.ColumnCandidates(cols[0], mapped), cols[0].node);
        FlagColumnsAlike(Pii.FlagColumn(r, Pii.ColumnCandidates(cols[0], mapped), cols[0].node), cols[1..], mapped);
      } else {
        FlagColumnsAlike(r, cols[1..], mapped);
      }
    }
  }

  lemma {:induction false} PiiReportAlike(selects: seq<Located>, stars: seq<Located>, cols: seq<Located>,
        mapped: seq<Pii.Entry>)
    ensures Each(Pii.PiiReport(selects, stars, cols, mapped).out, Pii.PII_COLUMN)
  {
    var r0 := Pii.Report({}, []);
    FlagSelectsAlike(r0, selects, mapped);
    var r1 := Pii.FlagSelects(r0, selects, mapped);
    FlagStarsAlike(r1, stars, mapped);
    FlagColumnsAlike(Pii.FlagStars(r1, stars, mapped), cols, mapped);
  }

  /** The PII check reports one violation only: HIGH and blocking. */
  lemma {:induction false} PiiAlike(stmt: Node, tables: seq<Located>, policy: GuardPolicy)
    ensures Each(Pii.CheckPii(stmt, tables, policy), Violation("pii_column", High, BlockIt))
  {
    if policy.piiColumns.Some? {
      PiiReportAlike(FindAll(stmt, IsSelect), FindAll(stmt, ColumnAllowlist.IsStar), FindAll(stmt, IsColumn),
                      Pii.Mapped(tables, policy.piiColumns.value));
    }
  }

  lemma {:induction false} NoneLeft(found: seq<Violation>, gate: seq<Violation>, tables: seq<Violation>,
        columns: seq<Violation>, pii: seq<Violation>, policy: GuardPolicy)
    requires ProductionReady(policy) && !AnyStops(found, policy)
    requires forall v :: v in gate || v in tables || v in columns || v in pii ==> v in found
    requires AllSevere(gate) && AllSevere(tables) && AllSevere(columns) && AllSevere(pii)
    ensures gate == [] && tables == [] && columns == [] && pii == []
  {
    SevereMeansNone(gate, found, policy);
    SevereMeansNone(tables, found, policy);
    SevereMeansNone(columns, found, policy);
    SevereMeansNone(pii, found, policy);
  }

  /** Under a production policy the statement gate, both allowlists and the PII check are never downgraded. */
  lemma {:induction false} GatesHold(stmt: Node, policy: GuardPolicy, fe: Frontend)
    requires ProductionReady(policy) && !AnyStops(Findings(stmt, policy, fe), policy)
    ensures CheckStatementType(stmt, policy) == []
    ensures CheckTables(StatementTables(stmt, fe), policy) == []
    ensures ColumnAllowlist.CheckColumns(stmt, StatementTables(stmt, fe), policy) == []
    ensures Pii.CheckPii(stmt, StatementTables(stmt, fe), policy) == []
  {
    var tables := StatementTables(stmt, fe);
    InFindings(stmt, policy, fe);
    StatementTypeSevere(stmt, policy);
    TablesAlike(tables, policy);
    ColumnsAlike(stmt, tables, policy);
    PiiAlike(stmt, tables, policy);
    NoneLeft(Findings(stmt, policy, fe), CheckStatementType(stmt, policy), CheckTables(tables, policy),
             ColumnAllowlist.CheckColumns(stmt, tables, policy), Pii.CheckPii(stmt, tables, policy), policy);
  }

  lemma {:induction false} SevereMeansNone(part: seq<Violation>, found: seq<Violation>, policy: GuardPolicy)
    requires ProductionReady(policy) && !AnyStops(found, policy) && AllSevere(part) && forall v ::
        v in part ==> v in found
    ensures part == []
  {
    NothingStops(part, found, policy);
  }

  lemma {:induction false} PhysicalsPhysical(ts: seq<Located>)
    ensures PhysicalOf(Physicals(ts)) == ts
    decreases |ts|
  {
    if ts != [] {
      PhysicalsPhysical(ts[1..]);
      assert Physicals(ts)[1..] == Physicals(ts[1..]);
    }
  }

  lemma {:induction false} ResolveIsCorrect(stmt: Node, fe: Frontend)
    requires fe.resolves(FindAll(stmt, IsContent))
    ensures CorrectScopes(stmt, Resolve(stmt, fe))
  {
    var ts := LexicalTables(stmt);
    PhysicalsPhysical(ts);
    assert [Physicals(ts)][1..] == [];
    assert AllPhysical([Physicals(ts)]) == ts + [];
  }

  lemma {:induction false} KnownQuery(n: Node)
    requires Limitable(n)
    ensures KnownTop(n)
  {
  }

  /** The root of a rewritten query is as harmless as it was. */
  lemma {:induction false} RootAllowed(stmt: Node, limit: Option<Node>, policy: GuardPolicy)
    requires Limitable(stmt) && NodeAllowed(stmt, policy)
    ensures NodeAllowed(WithLimit(stmt, limit), policy)
  {
  }

  lemma {:induction false} JunkAllowed(n: Node, policy: GuardPolicy)
    requires Junk(n)
    ensures NodeAllowed(n, policy)
  {
  }

  /** The rewrite opens no door: the forwarded tree passes the statement gate too. */
  lemma {:induction false} ForwardedPassesGate(stmt: Node, policy: GuardPolicy)
    requires Accepted(policy) && CheckStatementType(stmt, policy) == []
    ensures CheckStatementType(Forwarded(stmt, policy), policy) == []
  {
    if ApplyLimit(stmt, policy).1 != [] {
      var k := RewriteShape(stmt, policy);
      var limit := Some(LimitNode(k));
      var out := WithLimit(stmt, limit);
      GateIsNodewise(stmt, policy);
      RootInside(stmt);
      RootAllowed(stmt, limit, policy);
      KnownQuery(out);
      forall l | Inside(l, out)
        ensures NodeAllowed(l.node, policy)
      {
        InsideRewritten(stmt, limit, l);
        if Junk(l.node) {
          JunkAllowed(l.node, policy);
        }
      }
      GateIsNodewise(out, policy);
    }
  }

  /** The rewrite reads no further table. */
  lemma {:induction false} ForwardedTables(stmt: Node, policy: GuardPolicy)
    requires Accepted(policy)
    ensures forall t :: t in LexicalTables(Forwarded(stmt, policy)) ==> t in LexicalTables(stmt)
  {
    if ApplyLimit(stmt, policy).1 != [] {
      var k := RewriteShape(stmt, policy);
      LexicalTablesRewritten(stmt, Some(LimitNode(k)));
    }
  }

  /** A rewrite reads nothing the statement did not read. */
  lemma {:induction false} ForwardedReads(stmt: Node, policy: GuardPolicy)
    requires Accepted(policy)
    ensures Reads(TopLevel(Forwarded(stmt, policy))) <= Reads(TopLevel(stmt))
  {
    if ApplyLimit(stmt, policy).1 != [] {
      var k := RewriteShape(stmt, policy);
      BoundedReads(stmt, k, Place([], {}, []));
    }
  }

  lemma {:induction false} BoundedReads(n: Node, k: int, p: Place)
    requires Limitable(n)
    ensures NeedsQuery(WithLimit(n, Some(LimitNode(k))), p) <= NeedsQuery(n, p)
  {
    var m := WithLimit(n, Some(LimitNode(k)));
    assert Down(m, p) == Down(n, p) && Body(m, p) == Body(n, p);
    assert NeedsBound(m.limit, Body(m, p)) == {};
    if n.Select? {
      SelectReads(n, m, p);
    }
  }

  lemma {:induction false} SelectReads(n: Node, m: Node, p: Place)
    requires n.Select? && m.Select? && m == WithLimit(n, m.limit)
    ensures NeedsSelect(m, p) == NeedsSelect(n, p)
  {
    assert Body(m, p) == Body(n, p) && OwnBinds(m, p) == OwnBinds(n, p);
  }

  /** A production policy with both limits, read-only. */
  predicate Locked(policy: GuardPolicy) {
    Accepted(policy) && ProductionReady(policy) && policy.readOnly && policy.defaultLimit.Some? && policy.maxLimit.Some?
  }

  /**
   * The parser gives nodes identities, references with one label are one table, and the scope resolver
   * is correct or it raises and no base table is called like a WITH query.
   */
  ghost predicate WellParsed(sql: string, policy: GuardPolicy, fe: Frontend) {
    forall stmt, dialect :: OnlyStatement(sql, policy, fe, stmt, dialect) ==>
      UniqueIds(stmt) && LabelsTell(StatementTables(stmt, fe)) && Resolved(stmt, Resolve(stmt, fe))
  }

  /** Under a production policy the gates report nothing on a statement that is forwarded. */
  lemma {:induction false} ForwardedPassesGates(sql: string, policy: GuardPolicy, fe: Frontend, stmt: Node,
        dialect: string)
    requires ProductionReady(policy) && ForwardSafe(Check(sql, policy, fe)) && WellParsed(sql, policy, fe)
    requires TakeIn(sql, policy, fe) == Single(stmt, dialect)
    ensures UniqueIds(stmt) && LabelsTell(StatementTables(stmt, fe)) && Resolved(stmt, Resolve(stmt, fe))
    ensures CheckTables(StatementTables(stmt, fe), policy) == []
    ensures ColumnAllowlist.CheckColumns(stmt, StatementTables(stmt, fe), policy) == []
    ensures Pii.CheckPii(stmt, StatementTables(stmt, fe), policy) == []
  {
    var stmt', dialect' := ForwardSafeMeans(sql, policy, fe);
    GatesHold(stmt, policy, fe);
  }

  lemma {:induction false} ColumnsDecide(stmt: Node, policy: GuardPolicy, fe: Frontend, d1: Database, d2: Database,
        calls: Calls)
    requires Accepted(policy) && policy.allowedTables.Some?
    requires UniqueIds(stmt) && LabelsTell(StatementTables(stmt, fe)) && Resolved(stmt, Resolve(stmt, fe))
    requires CheckTables(StatementTables(stmt, fe), policy) == []
    requires ColumnAllowlist.CheckColumns(stmt, StatementTables(stmt, fe), policy) == []
    requires ColumnMeaning.ColumnReady(Walk(Root(stmt)), StatementTables(stmt, fe),
        ColumnAllowlist.Restricted(policy.allowedTables.value))
    requires SameDatabase(d1, d2, ColumnMeaning.ColumnAccess(policy))
    ensures EvalQuery(Forwarded(stmt, policy), TopContext(d1, calls))
        == EvalQuery(Forwarded(stmt, policy), TopContext(d2, calls))
  {
    ColumnMeaning.TablesOfStatement(stmt, Resolve(stmt, fe), policy);
    ColumnMeaning.ChecksMakeTopOk(stmt, StatementTables(stmt, fe), policy);
    ForwardedReads(stmt, policy);
    VisibleReadsDecide(Forwarded(stmt, policy), ColumnMeaning.ColumnAccess(policy), d1, d2, calls);
  }

  lemma {:induction false} PiiDecides(stmt: Node, policy: GuardPolicy, fe: Frontend, d1: Database, d2: Database,
        calls: Calls)
    requires Accepted(policy) && policy.piiColumns.Some?
    requires UniqueIds(stmt) && Resolved(stmt, Resolve(stmt, fe))
    requires Pii.CheckPii(stmt, StatementTables(stmt, fe), policy) == []
    requires PiiMeaning.PiiReady(Walk(Root(stmt)), Pii.Mapped(StatementTables(stmt, fe), policy.piiColumns.value))
    requires SameDatabase(d1, d2, PiiMeaning.PiiAccess(policy.piiColumns.value))
    ensures EvalQuery(Forwarded(stmt, policy), TopContext(d1, calls))
        == EvalQuery(Forwarded(stmt, policy), TopContext(d2, calls))
  {
    TablesFound(stmt, Resolve(stmt, fe));
    PiiMeaning.CheckMakesOk(TopLevel(stmt), StatementTables(stmt, fe), policy);
    ForwardedReads(stmt, policy);
    VisibleReadsDecide(Forwarded(stmt, policy), PiiMeaning.PiiAccess(policy.piiColumns.value), d1, d2, calls);
  }

  /**
   * End to end. A forward-safe result comes from exactly one statement. The tree that is forwarded
   * has no effect whatever the run, depends only on allowlisted tables, and returns at most
   * `max_limit` rows when it is a SELECT or set operation that reads a source.
   */
  lemma {:induction false} EndToEnd(sql: string, policy: GuardPolicy, fe: Frontend, d1: Database, d2: Database,
        calls: Calls) returns (stmt: Node, dialect: string)
    requires Locked(policy) && ForwardSafe(Check(sql, policy, fe)) && WellParsed(sql, policy, fe)
    requires SameDatabase(d1, d2, TableAccess(policy))
    ensures OnlyStatement(sql, policy, fe, stmt, dialect)
    ensures Check(sql, policy, fe).sql == if ApplyLimit(stmt, policy).1 == [] then Some(sql)
        else fe.render(Forwarded(stmt, policy), dialect)
    ensures forall run :: RunOf(Forwarded(stmt, policy), run) ==> run == []
    ensures EvalQuery(Forwarded(stmt, policy), TopContext(d1, calls))
        == EvalQuery(Forwarded(stmt, policy), TopContext(d2, calls))
    ensures Limitable(stmt) && Has(stmt, IsFrom) ==>
      |EvalQuery(Forwarded(stmt, policy), TopContext(d1, calls)).rows| <= policy.maxLimit.value
  {
    stmt, dialect := ForwardSafeMeans(sql, policy, fe);
    GatesHold(stmt, policy, fe);
    ForwardedHasNoEffect(stmt, policy, d1);
    PassingTablesVisible(stmt, Resolve(stmt, fe), policy);
    ForwardedTables(stmt, policy);
    VisibleTablesDecide(Forwarded(stmt, policy), TableAccess(policy), d1, d2, calls);
    if Limitable(stmt) && Has(stmt, IsFrom) {
      RowsAreBounded(stmt, policy, TopContext(d1, calls));
    }
  }

  /**
   * End to end, columns: on a statement for which the column check is a guarantee, the forwarded tree
   * depends on the allowed columns of restricted tables and on unrestricted allowed tables only.
   */
  lemma {:induction false} EndToEndColumns(sql: string, policy: GuardPolicy, fe: Frontend, stmt: Node, dialect: string,
                                           d1: Database, d2: Database, calls: Calls)
    requires Accepted(policy) && ProductionReady(policy) && ForwardSafe(Check(sql, policy, fe))
        && WellParsed(sql, policy, fe)
    requires TakeIn(sql, policy, fe) == Single(stmt, dialect)
    requires ColumnMeaning.ColumnReady(Walk(Root(stmt)), StatementTables(stmt, fe),
        ColumnAllowlist.Restricted(policy.allowedTables.value))
    requires SameDatabase(d1, d2, ColumnMeaning.ColumnAccess(policy))
    ensures EvalQuery(Forwarded(stmt, policy), TopContext(d1, calls))
        == EvalQuery(Forwarded(stmt, policy), TopContext(d2, calls))
  {
    ForwardedPassesGates(sql, policy, fe, stmt, dialect);
    ColumnsDecide(stmt, policy, fe, d1, d2, calls);
  }

  /** End to end, PII: on a ready statement the forwarded tree does not depend on classified columns. */
  lemma {:induction false} EndToEndPii(sql: string, policy: GuardPolicy, fe: Frontend, stmt: Node, dialect: string,
                                       d1: Database, d2: Database, calls: Calls)
    requires Accepted(policy) && ProductionReady(policy) && ForwardSafe(Check(sql, policy, fe))
        && WellParsed(sql, policy, fe)
    requires TakeIn(sql, policy, fe) == Single(stmt, dialect) && policy.piiColumns.Some?
    requires PiiMeaning.PiiReady(Walk(Root(stmt)), Pii.Mapped(StatementTables(stmt, fe), policy.piiColumns.value))
    requires SameDatabase(d1, d2, PiiMeaning.PiiAccess(policy.piiColumns.value))
    ensures EvalQuery(Forwarded(stmt, policy), TopContext(d1, calls))
        == EvalQuery(Forwarded(stmt, policy), TopContext(d2, calls))
  {
    ForwardedPassesGates(sql, policy, fe, stmt, dialect);
    PiiDecides(stmt, policy, fe, d1, d2, calls);
  }

  lemma {:induction false} ForwardedHasNoEffect(stmt: Node, policy: GuardPolicy, db: Database)
    requires Accepted(policy) && policy.readOnly && CheckStatementType(stmt, policy) == []
    ensures forall run :: RunOf(Forwarded(stmt, policy), run) ==> run == []
  {
    ForwardedPassesGate(stmt, policy);
    forall run | RunOf(Forwarded(stmt, policy), run)
      ensures run == []
    {
      ReadOnlyHasNoEffect(Forwarded(stmt, policy), policy, run, db);
    }
  }
}
