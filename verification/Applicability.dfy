/**
 * The premises of the end-to-end theorems can be met: a statement, a policy and a frontend for which
 * they all hold, and two databases that differ in what the policy hides.
 */
module Applicability {
  import opened Syntax
  import opened Text
  import opened SqlValues
  import opened Traversal
  import opened Semantics
  import opened Scoping
  import opened Origins
  import opened Noninterference
  import opened Policy
  import opened Tables
  import opened TableAllowlist
  import opened Limiting
  import opened Rewriting
  import opened Pipeline
  import opened PipelineMeaning
  import opened Provisos
  import opened SingleSource
  import ColumnAllowlist
  import ColumnMeaning
  import StatementType
  import Effects
  import Cartesian
  import Tautology
  import Inference
  import Pii
  import PiiMeaning

  /** `SELECT a.x FROM t AS a` */
  function Sample(): Node {
    Pick(Column("a", "x"), "a", [])
  }

  function SampleTable(): Located {
    SourceAt(Column("a", "x"), "a", [])
  }

  /** A locked policy that shows column `x` of table `t` and nothing else, and classifies column `secret`. */
  ghost predicate Suits(policy: GuardPolicy) {
    && Locked(policy)
    && policy.allowedTables == Some(map["t" := Some({"x"})])
    && policy.piiColumns == Some(map["t" := {"secret"}])
  }

  /** Parses every text as the sample and denies no name. */
  function SampleFrontend(): Frontend {
    Frontend((sql: string, dialect: string) => Some([Some(Sample())]), (n: Node) => n,
             (n: Node, dialect: string) => Some("rewritten"), (sql: string) => Some(1), (ls: seq<Located>) => true,
             (ls: seq<Located>, p: GuardPolicy) => [], (ls: seq<Located>, p: GuardPolicy) => [])
  }

  lemma {:induction false} SampleInside(l: Located)
    requires Inside(l, Sample())
    ensures l == Root(Sample()) || l == Below(Column("a", "x"), Root(Sample()))
      || l == Below(From(Source("a", [])), Root(Sample())) || l == SampleTable()
  {
    PickWalk(Column("a", "x"), "a", []);
  }

  lemma {:induction false} OnceInFour(a: Located, b: Located, c: Located, d: Located)
    requires a != d && b != d && c != d
    ensures multiset([a, b, c, d])[d] == 1
  {
  }

  lemma {:induction false} SampleUnique()
    ensures UniqueIds(Sample())
  {
    var r := Root(Sample());
    forall a | Inside(a, Sample()) && a.node.Table?
      ensures a == SampleTable() && multiset(Walk(r))[a] == 1
    {
      SampleInside(a);
      PickWalk(Column("a", "x"), "a", []);
      OnceInFour(r, Below(Column("a", "x"), r), Below(From(Source("a", [])), r), SampleTable());
    }
    forall a | Inside(a, Sample()) && a.node.Select?
      ensures a == r
    {
      SampleInside(a);
    }
  }

  lemma {:induction false} LexChain(l: Located, k: Node, ctes: set<string>)
    requires !l.node.Table? && CtesOf(l.node) == [] && Parts(l.node) == [k]
    ensures LexTables(l, ctes) == LexTables(Below(k, l), ctes)
  {
    PartsAreSubterms(l.node);
    assert [k][1..] == [];
    assert LexParts(l, [k], ctes) == LexTables(Below(k, l), ctes) + LexParts(l, [], ctes);
    assert ctes + CteNames([]) == ctes;
  }

  lemma {:induction false} LexTwo(l: Located, a: Node, b: Node, ctes: set<string>)
    requires !l.node.Table? && CtesOf(l.node) == [] && Parts(l.node) == [a, b]
    ensures LexTables(l, ctes) == LexTables(Below(a, l), ctes) + LexTables(Below(b, l), ctes)
  {
    PartsAreSubterms(l.node);
    assert Subterms([b], l.node) by {
      assert Parts(l.node)[1] == b;
    }
    assert [a, b][1..] == [b] && [b][1..] == [];
    assert LexParts(l, [b], ctes) == LexTables(Below(b, l), ctes) + LexParts(l, [], ctes);
    assert LexParts(l, [a, b], ctes) == LexTables(Below(a, l), ctes) + LexParts(l, [b], ctes);
    assert ctes + CteNames([]) == ctes;
  }

  lemma {:induction false} LexColumn(l: Located, ctes: set<string>)
    requires l.node.Column?
    ensures LexTables(l, ctes) == []
  {
  }

  lemma {:induction false} SampleLexical()
    ensures LexicalTables(Sample()) == [SampleTable()]
  {
    var r, item, from := Root(Sample()), Column("a", "x"), From(Source("a", []));
    SampleParts();
    LexTwo(r, item, from, {});
    LexColumn(Below(item, r), {});
    LexChain(Below(from, r), Source("a", []), {});
    LexBase(SampleTable(), {});
  }

  lemma {:induction false} SampleParts()
    ensures Parts(Sample()) == [Column("a", "x"), From(Source("a", []))] && CtesOf(Sample()) == []
    ensures Parts(From(Source("a", []))) == [Source("a", [])] && CtesOf(From(Source("a", []))) == []
  {
  }

  lemma {:induction false} LexBase(l: Located, ctes: set<string>)
    requires l.node.Table? && IsBase(l.node, ctes)
    ensures LexTables(l, ctes) == [l]
  {
  }

  lemma {:induction false} AllAlike(ts: seq<Located>, x: Located)
    requires forall t :: t in ts ==> t == x
    ensures forall i :: 0 <= i < |ts| ==> ts[i] == x
  {
    forall i | 0 <= i < |ts|
      ensures ts[i] == x
    {
      assert ts[i] in ts;
    }
  }

  /** A duplicate-free list all of whose members are `x`. */
  lemma {:induction false} OnlyOne(ts: seq<Located>, x: Located)
    requires forall t :: t in ts <==> t == x
    requires forall i, j :: 0 <= i < j < |ts| ==> IdOf(ts[i]) != IdOf(ts[j])
    ensures ts == [x]
  {
    AllAlike(ts, x);
    assert x in ts;
    if |ts| >= 2 {
      TwoDiffer(ts);
    }
  }

  lemma {:induction false} TwoDiffer(ts: seq<Located>)
    requires |ts| >= 2 && forall i, j :: 0 <= i < j < |ts| ==> IdOf(ts[i]) != IdOf(ts[j])
    ensures IdOf(ts[0]) != IdOf(ts[1])
  {
  }

  lemma {:induction false} SampleTables()
    ensures CorrectScopes(Sample(), Resolve(Sample(), SampleFrontend()))
    ensures StatementTables(Sample(), SampleFrontend()) == [SampleTable()]
  {
    SampleUnique();
    ResolveIsCorrect(Sample(), SampleFrontend());
    RealTablesExact(Sample(), Resolve(Sample(), SampleFrontend()));
    SampleLexical();
    OnlyOne(StatementTables(Sample(), SampleFrontend()), SampleTable());
  }

  lemma {:induction false} SampleAllowlists(policy: GuardPolicy)
    requires Suits(policy)
    ensures CheckTables([SampleTable()], policy) == []
    ensures ColumnAllowlist.CheckColumns(Sample(), [SampleTable()], policy) == []
  {
    var item := Column("a", "x");
    PickBooks(item, "a", [], map["t" := Some({"x"})], {"x"});
    assert Lower("x") == "x";
    PickPasses(item, "a", [], policy, {"x"});
  }

  lemma {:induction false} SamplePii(policy: GuardPolicy)
    requires Suits(policy)
    ensures Pii.CheckPii(Sample(), [SampleTable()], policy) == []
  {
    assert |Lower("x")| == 1 && |"secret"| == 6;
    PiiPasses("a", "x", [], policy, {"secret"});
  }

  lemma {:induction false} PlainNodeAllowed(n: Node, policy: GuardPolicy)
    requires n.Column? || n.From? || n.Table? || (n.Select? && n.into.None?)
    ensures Effects.NodeAllowed(n, policy)
  {
  }

  lemma {:induction false} SampleGate(policy: GuardPolicy)
    requires Suits(policy)
    ensures StatementType.CheckStatementType(Sample(), policy) == []
  {
    forall l | Inside(l, Sample())
      ensures Effects.NodeAllowed(l.node, policy)
    {
      SampleInside(l);
      PlainNodeAllowed(l.node, policy);
    }
    KnownQuery(Sample());
    Effects.GateIsNodewise(Sample(), policy);
  }

  lemma {:induction false} SampleNoProduct(policy: GuardPolicy)
    requires Suits(policy)
    ensures Cartesian.CheckCartesian(Sample(), policy) == []
  {
    assert Cartesian.TopSelects(Sample()) == [Sample()];
    assert [Sample()][1..] == [];
    assert !Cartesian.AnyCandidate(Sample().joins);
  }

  lemma {:induction false} SampleNoFilter()
    ensures FindAll(Sample(), Tautology.IsFilter) == [] && FindAll(Sample(), IsJoin) == []
        && FindAll(Sample(), Inference.IsCmp) == []
  {
    forall l | Inside(l, Sample())
      ensures !Tautology.IsFilter(l.node) && !IsJoin(l.node) && !Inference.IsCmp(l.node)
    {
      SampleInside(l);
    }
    NoneFound(Sample(), Tautology.IsFilter);
    NoneFound(Sample(), IsJoin);
    NoneFound(Sample(), Inference.IsCmp);
  }

  lemma {:induction false} SamplePredicates(policy: GuardPolicy)
    requires Suits(policy)
    ensures Tautology.CheckTautology(Sample(), policy) == []
    ensures Inference.CheckInference(Sample(), policy) == []
  {
    SampleNoFilter();
    NoRoots(Sample(), policy);
  }

  lemma {:induction false} NoRoots(stmt: Node, policy: GuardPolicy)
    requires FindAll(stmt, Tautology.IsFilter) == [] && FindAll(stmt, IsJoin) == []
        && FindAll(stmt, Inference.IsCmp) == []
    ensures Tautology.CheckTautology(stmt, policy) == []
    ensures Inference.CheckInference(stmt, policy) == []
  {
    assert Tautology.PredicateRoots(stmt) == [];
  }

  lemma {:induction false} NoFindings(stmt: Node, policy: GuardPolicy, fe: Frontend, tables: seq<Located>)
    requires StatementTables(stmt, fe) == tables && Pii.CheckPii(stmt, tables, policy) == []
    requires fe.early(FindAll(stmt, IsContent), policy) == [] && fe.late(FindAll(stmt, IsContent), policy) == []
    requires StatementType.CheckStatementType(stmt, policy) == [] && CheckTables(tables, policy) == []
    requires ColumnAllowlist.CheckColumns(stmt, tables, policy) == [] && Cartesian.CheckCartesian(stmt, policy) == []
    requires Tautology.CheckTautology(stmt, policy) == [] && Inference.CheckInference(stmt, policy) == []
    ensures Findings(stmt, policy, fe) == []
  {
  }

  lemma {:induction false} SampleFindings(policy: GuardPolicy)
    requires Suits(policy)
    ensures Findings(Sample(), policy, SampleFrontend()) == []
  {
    SampleTables();
    SampleAllowlists(policy);
    SamplePii(policy);
    SampleGate(policy);
    SampleNoProduct(policy);
    SamplePredicates(policy);
    NoFindings(Sample(), policy, SampleFrontend(), [SampleTable()]);
  }

  /** A text of admissible length that is not blank. */
  predicate Readable(sql: string, policy: GuardPolicy) {
    |sql| <= policy.maxQueryChars && 1 <= policy.maxQueryBytes && !Blank(sql)
  }

  lemma {:induction false} SampleTakenIn(sql: string, policy: GuardPolicy)
    requires Suits(policy) && Readable(sql, policy)
    ensures TakeIn(sql, policy, SampleFrontend()) == Single(Sample(), policy.dialect)
  {
    var dialects := [policy.dialect] + policy.fallbackDialects;
    assert dialects[0] == policy.dialect;
    assert FirstParse(sql, dialects, SampleFrontend()) == Some(([Some(Sample())], policy.dialect));
    assert [Some(Sample())][1..] == [];
    assert RealStatements([Some(Sample())]) == [Sample()];
  }

  lemma {:induction false} SampleOnly(sql: string, policy: GuardPolicy, stmt: Node, dialect: string)
    requires Suits(policy)
    requires OnlyStatement(sql, policy, SampleFrontend(), stmt, dialect)
    ensures stmt == Sample()
  {
    var dialects := [policy.dialect] + policy.fallbackDialects;
    assert dialects[0] == policy.dialect;
    assert FirstParse(sql, dialects, SampleFrontend()) == Some(([Some(Sample())], policy.dialect));
    assert [Some(Sample())][1..] == [];
    assert RealStatements([Some(Sample())]) == [Sample()];
  }

  lemma {:induction false} ForwardSafeFrom(sql: string, policy: GuardPolicy, fe: Frontend, one: Node, dialect: string)
    requires TakeIn(sql, policy, fe) == Single(one, dialect) && Findings(one, policy, fe) == []
    requires fe.render(ApplyLimit(one, policy).0, dialect).Some?
    ensures ForwardSafe(Check(sql, policy, fe))
  {
    assert Check(sql, policy, fe) == Conclude([], sql, one, dialect, policy, fe);
  }

  lemma {:induction false} SampleForwardSafe(sql: string, policy: GuardPolicy)
    requires Suits(policy) && Readable(sql, policy)
    ensures ForwardSafe(Check(sql, policy, SampleFrontend()))
  {
    SampleTakenIn(sql, policy);
    SampleFindings(policy);
    ForwardSafeFrom(sql, policy, SampleFrontend(), Sample(), policy.dialect);
  }

  /** One table, one qualified column and no star or join. */
  lemma {:induction false} SimpleReady(nodes: seq<Located>, t: Located, restricted: map<string, set<string>>)
    requires forall l :: l in nodes ==> !l.node.StarColumn? && !l.node.Join? && (l.node.Column? ==> l.node.table != "")
    requires t.node.Table? && t.node.columns == []
    ensures ColumnMeaning.ColumnReady(nodes, [t], restricted)
  {
  }

  lemma {:induction false} SampleNodes()
    ensures forall l :: l in Walk(Root(Sample())) ==>
        !l.node.StarColumn? && !l.node.Join? && (l.node.Column? ==> l.node.table != "")
  {
    forall l | l in Walk(Root(Sample()))
      ensures !l.node.StarColumn? && !l.node.Join? && (l.node.Column? ==> l.node.table != "")
    {
      SampleInside(l);
    }
  }

  lemma {:induction false} SampleColumnReady(policy: GuardPolicy)
    requires Suits(policy)
    ensures ColumnMeaning.ColumnReady(Walk(Root(Sample())), StatementTables(Sample(), SampleFrontend()),
                                      ColumnAllowlist.Restricted(policy.allowedTables.value))
  {
    SampleTables();
    SampleNodes();
    SimpleReady(Walk(Root(Sample())), SampleTable(), ColumnAllowlist.Restricted(policy.allowedTables.value));
  }

  /** One classified reference without alias list; no star; no node in a SELECT inside that reference's. */
  lemma {:induction false} SimplePiiReady(nodes: seq<Located>, mapped: seq<Pii.Entry>)
    requires forall l :: l in nodes ==> !l.node.StarColumn? && !l.node.Star?
    requires forall e :: e in mapped ==> e.table.node.Table? && e.table.node.columns == []
    requires forall l, e :: l in nodes && IsColumn(l.node) && e in mapped ==> !PiiMeaning.Outer(e, l.up)
    ensures PiiMeaning.PiiReady(nodes, mapped)
  {
  }

  lemma {:induction false} SampleNearest()
    ensures NearestSelect(SampleTable().up) == Some(0)
    ensures NearestSelect(Below(Column("a", "x"), Root(Sample())).up) == Some(0)
  {
    var up := SampleTable().up;
    assert !up[0].SelectTag? && up[1..] == [SelectTag(0)];
    assert NearestSelect(up[1..]) == Some(0);
  }

  lemma {:induction false} SamplePiiReady(policy: GuardPolicy)
    requires Suits(policy)
    ensures PiiMeaning.PiiReady(Walk(Root(Sample())),
                                Pii.Mapped(StatementTables(Sample(), SampleFrontend()), policy.piiColumns.value))
  {
    SampleTables();
    SampleNearest();
    var nodes, mapped := Walk(Root(Sample())), Pii.Mapped([SampleTable()], policy.piiColumns.value);
    forall l | l in nodes
      ensures !l.node.StarColumn? && !l.node.Star?
      ensures IsColumn(l.node) ==> l == Below(Column("a", "x"), Root(Sample()))
    {
      SampleInside(l);
    }
    assert forall e :: e in mapped ==> e.table == SampleTable();
    SimplePiiReady(nodes, mapped);
  }

  lemma {:induction false} WellParsedFrom(sql: string, policy: GuardPolicy, fe: Frontend, one: Node, t: Located)
    requires forall stmt, dialect :: OnlyStatement(sql, policy, fe, stmt, dialect) ==> stmt == one
    requires UniqueIds(one) && StatementTables(one, fe) == [t] && LabelsTell([t]) && Resolved(one, Resolve(one, fe))
    ensures WellParsed(sql, policy, fe)
  {
  }

  lemma {:induction false} SamplePlain()
    ensures LabelsTell([SampleTable()])
  {
  }

  lemma {:induction false} SampleAlone(sql: string, policy: GuardPolicy)
    requires Suits(policy)
    ensures forall stmt, dialect :: OnlyStatement(sql, policy, SampleFrontend(), stmt, dialect) ==>
        stmt == Sample()
  {
    forall stmt, dialect | OnlyStatement(sql, policy, SampleFrontend(), stmt, dialect)
      ensures stmt == Sample()
    {
      SampleOnly(sql, policy, stmt, dialect);
    }
  }

  lemma {:induction false} SampleWellParsed(sql: string, policy: GuardPolicy)
    requires Suits(policy)
    ensures WellParsed(sql, policy, SampleFrontend())
  {
    SampleTables();
    SampleUnique();
    SamplePlain();
    SampleAlone(sql, policy);
    WellParsedFrom(sql, policy, SampleFrontend(), Sample(), SampleTable());
  }

  /** Table `t` with an allowed and a hidden column, and a table `u` that no policy key names. */
  function SampleData(v: Value, w: Value): Database {
    map[TABLE_T := Relation(["x", "secret"], [[VNum(1.0), v]]), TABLE_U := Relation(["y"], [[w]])]
  }

  const TABLE_U := TableName("", "u")

  lemma {:induction false} SampleDataDiffer(v1: Value, w1: Value, v2: Value, w2: Value)
    requires v1 != v2 || w1 != w2
    ensures SampleData(v1, w1) != SampleData(v2, w2)
  {
    var d1, d2 := SampleData(v1, w1), SampleData(v2, w2);
    if v1 != v2 {
      assert d1[TABLE_T].rows[0][1] != d2[TABLE_T].rows[0][1];
    } else {
      assert d1[TABLE_U].rows[0][0] != d2[TABLE_U].rows[0][0];
    }
  }

  /** A view under which `secret` is hidden, and `u` hidden or the same. */
  lemma {:induction false} SampleDataSame(v1: Value, w1: Value, v2: Value, w2: Value, v: Vis, acc: Access)
    requires acc(TABLE_T) == Some(v) && (v1 == v2 || (!v.All? && !Sees(v, "secret")))
    requires w1 == w2 || acc(TABLE_U).None?
    ensures SameDatabase(SampleData(v1, w1), SampleData(v2, w2), acc)
  {
    var a, b := SampleData(v1, w1)[TABLE_T], SampleData(v2, w2)[TABLE_T];
    assert SameVals(a.cols, a.rows[0], b.rows[0], v);
  }

  /** What the policy shows of the two tables. */
  lemma {:induction false} SampleViews(policy: GuardPolicy)
    requires Suits(policy)
    ensures TableAccess(policy)(TABLE_T) == Some(All) && TableAccess(policy)(TABLE_U).None?
    ensures ColumnMeaning.ColumnAccess(policy)(TABLE_T) == Some(Only({"x"}))
    ensures ColumnMeaning.ColumnAccess(policy)(TABLE_U).None?
    ensures PiiMeaning.PiiAccess(policy.piiColumns.value)(TABLE_T) == Some(AllBut({"secret"}))
  {
    ColumnView(policy, {"x"});
    PiiView(policy, {"secret"});
  }

  /** The databases of the three theorems: they agree on what the respective view shows. */
  lemma {:induction false} SampleDataAgree(policy: GuardPolicy, v1: Value, w1: Value, v2: Value, w2: Value)
    requires Suits(policy)
    ensures SameDatabase(SampleData(v1, w1), SampleData(v1, w2), TableAccess(policy))
    ensures SameDatabase(SampleData(v1, w1), SampleData(v2, w2), ColumnMeaning.ColumnAccess(policy))
    ensures SameDatabase(SampleData(v1, w1), SampleData(v2, w1), PiiMeaning.PiiAccess(policy.piiColumns.value))
  {
    SampleViews(policy);
    LowerSecret();
    SampleDataSame(v1, w1, v1, w2, All, TableAccess(policy));
    SampleDataSame(v1, w1, v2, w2, Only({"x"}), ColumnMeaning.ColumnAccess(policy));
    SampleDataSame(v1, w1, v2, w1, AllBut({"secret"}), PiiMeaning.PiiAccess(policy.piiColumns.value));
  }

  /**
   * The premises of the three end-to-end theorems hold of the sample: on databases that differ in a
   * table no key names, in that table and a hidden column, and in a classified column.
   */
  lemma {:induction false} PremisesHold(sql: string, policy: GuardPolicy, v1: Value, w1: Value, v2: Value, w2: Value)
    requires Suits(policy) && Readable(sql, policy) && v1 != v2 && w1 != w2
    ensures WellParsed(sql, policy, SampleFrontend()) && ForwardSafe(Check(sql, policy, SampleFrontend()))
    ensures TakeIn(sql, policy, SampleFrontend()) == Single(Sample(), policy.dialect)
    ensures ColumnMeaning.ColumnReady(Walk(Root(Sample())), StatementTables(Sample(), SampleFrontend()),
                                      ColumnAllowlist.Restricted(policy.allowedTables.value))
    ensures PiiMeaning.PiiReady(Walk(Root(Sample())),
                                Pii.Mapped(StatementTables(Sample(), SampleFrontend()), policy.piiColumns.value))
    ensures SameDatabase(SampleData(v1, w1), SampleData(v1, w2), TableAccess(policy))
    ensures SameDatabase(SampleData(v1, w1), SampleData(v2, w2), ColumnMeaning.ColumnAccess(policy))
    ensures SameDatabase(SampleData(v1, w1), SampleData(v2, w1), PiiMeaning.PiiAccess(policy.piiColumns.value))
    ensures SampleData(v1, w1) != SampleData(v1, w2) && SampleData(v1, w1) != SampleData(v2, w2)
    ensures SampleData(v1, w1) != SampleData(v2, w1)
  {
    SampleWellParsed(sql, policy);
    SampleForwardSafe(sql, policy);
    SampleTakenIn(sql, policy);
    SampleColumnReady(policy);
    SamplePiiReady(policy);
    SampleDataAgree(policy, v1, w1, v2, w2);
    SampleDataDiffer(v1, w1, v1, w2);
    SampleDataDiffer(v1, w1, v2, w2);
    SampleDataDiffer(v1, w1, v2, w1);
  }

  lemma {:induction false} SampleValue(v: Value, w: Value, calls: Calls)
    ensures EvalQuery(Sample(), TopContext(SampleData(v, w), calls)).rows == [[VNum(1.0)]]
  {
    var cols, vals, c := ["x", "secret"], [VNum(1.0), v], TopContext(SampleData(v, w), calls);
    ItemOfOne(Column("a", "x"), "a", [], cols, vals, c);
    QualifiedHere("a", "x", cols, vals, c);
    assert IndexOf(cols, "x") == 0;
  }

  /** A bound of at least one row does not cut a single row. */
  lemma {:induction false} OneRowStays(stmt: Node, policy: GuardPolicy, c: Context, row: seq<Value>)
    requires Accepted(policy) && Limitable(stmt) && stmt.limit.None? && EvalQuery(stmt, c).rows == [row]
    ensures EvalQuery(Forwarded(stmt, policy), c).rows == [row]
  {
    if ApplyLimit(stmt, policy).1 != [] {
      var k := RewriteIsBoundedPrefix(stmt, policy, c);
      SameLimit(stmt);
    } else {
      SameLimit(stmt);
    }
  }

  /** What the forwarded sample returns. */
  ghost function Result(policy: GuardPolicy, v: Value, w: Value, calls: Calls): Relation {
    EvalQuery(Forwarded(Sample(), policy), TopContext(SampleData(v, w), calls))
  }

  lemma {:induction false} TablesApply(sql: string, policy: GuardPolicy, v: Value, w1: Value, w2: Value, calls: Calls)
    requires Suits(policy) && Readable(sql, policy)
    ensures Result(policy, v, w1, calls) == Result(policy, v, w2, calls)
  {
    SampleWellParsed(sql, policy);
    SampleForwardSafe(sql, policy);
    SampleDataAgree(policy, v, w1, v, w2);
    var stmt, dialect := EndToEnd(sql, policy, SampleFrontend(), SampleData(v, w1), SampleData(v, w2), calls);
    SampleOnly(sql, policy, stmt, dialect);
  }

  lemma {:induction false} ColumnsApply(sql: string, policy: GuardPolicy, v1: Value, w1: Value, v2: Value, w2: Value,
        calls: Calls)
    requires Suits(policy) && Readable(sql, policy)
    ensures Result(policy, v1, w1, calls) == Result(policy, v2, w2, calls)
  {
    SampleWellParsed(sql, policy);
    SampleForwardSafe(sql, policy);
    SampleTakenIn(sql, policy);
    SampleColumnReady(policy);
    SampleDataAgree(policy, v1, w1, v2, w2);
    EndToEndColumns(sql, policy, SampleFrontend(), Sample(), policy.dialect, SampleData(v1, w1), SampleData(v2, w2),
                    calls);
  }

  lemma {:induction false} PiiApplies(sql: string, policy: GuardPolicy, v1: Value, v2: Value, w: Value, calls: Calls)
    requires Suits(policy) && Readable(sql, policy)
    ensures Result(policy, v1, w, calls) == Result(policy, v2, w, calls)
  {
    SampleWellParsed(sql, policy);
    SampleForwardSafe(sql, policy);
    SampleTakenIn(sql, policy);
    SamplePiiReady(policy);
    SampleDataAgree(policy, v1, w, v2, w);
    EndToEndPii(sql, policy, SampleFrontend(), Sample(), policy.dialect, SampleData(v1, w), SampleData(v2, w), calls);
  }

  /**
   * Hence each theorem applies: the forwarded sample returns the visible value on all databases,
   * whatever the other table, the hidden column and the classified column hold.
   */
  lemma {:induction false} TheoremsApply(sql: string, policy: GuardPolicy, v1: Value, w1: Value, v2: Value, w2: Value,
        calls: Calls)
    requires Suits(policy) && Readable(sql, policy)
    ensures Result(policy, v1, w1, calls) == Result(policy, v1, w2, calls)
    ensures Result(policy, v1, w1, calls) == Result(policy, v2, w2, calls)
    ensures Result(policy, v1, w1, calls) == Result(policy, v2, w1, calls)
    ensures Result(policy, v1, w1, calls).rows == [[VNum(1.0)]]
  {
    TablesApply(sql, policy, v1, w1, w2, calls);
    ColumnsApply(sql, policy, v1, w1, v2, w2, calls);
    PiiApplies(sql, policy, v1, v2, w1, calls);
    SampleValue(v1, w1, calls);
    OneRowStays(Sample(), policy, TopContext(SampleData(v1, w1), calls), [VNum(1.0)]);
  }
}
