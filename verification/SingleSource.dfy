/**
 * The provisos of the column, PII and correlation theorems, made exact on the statements that read one
 * item of one table: `SELECT item FROM t AS alias(columns)`.
 */
module SingleSource {
  import opened Syntax
  import opened Text
  import opened SqlValues
  import opened Traversal
  import opened Semantics
  import opened Noninterference
  import opened Policy
  import opened Tables
  import opened TableAllowlist
  import opened ColumnAllowlist
  import opened Provisos
  import Limiting
  import ColumnMeaning
  import Inference
  import InferenceMeaning
  import Pii
  import PiiMeaning

  /** The result is the same on all databases that agree on what `acc` shows. */
  ghost predicate Blind(stmt: Node, acc: Access, calls: Calls) {
    forall d1: Database, d2: Database ::
      SameDatabase(d1, d2, acc) ==> EvalQuery(stmt, TopContext(d1, calls)) == EvalQuery(stmt, TopContext(d2, calls))
  }

  // ---------------------------------------------------------------- the value of the statement

  lemma {:induction false} ItemRowsSame(item: Node, alias: string, cols: seq<string>, a: seq<seq<Value>>,
        b: seq<seq<Value>>, c1: Context, c2: Context)
    requires item.Column? && |a| == |b|
    requires forall i :: 0 <= i < |a| ==>
        EvalExpr(item, OnRow(alias, cols, a[i], c1)) == EvalExpr(item, OnRow(alias, cols, b[i], c2))
    ensures ProjectRows([item], [Header(alias, cols, {})], WrapRows(a), c1)
        == ProjectRows([item], [Header(alias, cols, {})], WrapRows(b), c2)
    decreases |a|
  {
    if a != [] {
      ItemRow(item, OnRow(alias, cols, a[0], c1));
      ItemRow(item, OnRow(alias, cols, b[0], c2));
      ItemRowsSame(item, alias, cols, a[1..], b[1..], c1, c2);
      assert WrapRows(a)[1..] == WrapRows(a[1..]) && WrapRows(b)[1..] == WrapRows(b[1..]);
    }
  }

  /** The item decides: it sees the same on corresponding rows of tables that agree under `v`. */
  ghost predicate RowBlind(item: Node, alias: string, columns: seq<string>, v: Vis, calls: Calls) {
    forall r1: Relation, r2: Relation, d1: Database, d2: Database, i: nat ::
      SameRelation(r1, r2, v) && i < |r1.rows| ==>
        EvalExpr(item, OnRow(alias, Rename(r1, columns).cols, r1.rows[i], TopContext(d1, calls)))
          == EvalExpr(item, OnRow(alias, Rename(r2, columns).cols, r2.rows[i], TopContext(d2, calls)))
  }

  lemma {:induction false} RowsSame(item: Node, alias: string, columns: seq<string>, v: Vis, r1: Relation, r2: Relation,
        c1: Context, c2: Context)
    requires item.Column? && alias != "" && RowBlind(item, alias, columns, v, c1.calls) && SameRelation(r1, r2, v)
    requires c1 == TopContext(c1.db, c1.calls) && c2 == TopContext(c2.db, c1.calls)
    requires TABLE_T in c1.db && TABLE_T in c2.db && c1.db[TABLE_T] == r1 && c2.db[TABLE_T] == r2
    ensures EvalQuery(Pick(item, alias, columns), c1) == EvalQuery(Pick(item, alias, columns), c2)
  {
    PickRows(item, alias, columns, c1);
    PickRows(item, alias, columns, c2);
    var cols := Rename(r1, columns).cols;
    forall i | 0 <= i < |r1.rows|
      ensures EvalExpr(item, OnRow(alias, cols, r1.rows[i], c1)) == EvalExpr(item, OnRow(alias, cols, r2.rows[i], c2))
    {
    }
    ItemRowsSame(item, alias, cols, r1.rows, r2.rows, c1, c2);
  }

  lemma {:induction false} NoRows(item: Node, alias: string, columns: seq<string>, c1: Context, c2: Context)
    requires item.Column? && alias != "" && c1.ctes == c2.ctes == map[] && c1.group == c2.group == []
    requires TABLE_T !in c1.db && TABLE_T !in c2.db
    ensures EvalQuery(Pick(item, alias, columns), c1) == EvalQuery(Pick(item, alias, columns), c2)
  {
    PickRows(item, alias, columns, c1);
    PickRows(item, alias, columns, c2);
  }

  lemma {:induction false} BlindFromRows(item: Node, alias: string, columns: seq<string>, v: Vis, acc: Access,
        calls: Calls)
    requires item.Column? && alias != "" && acc(TABLE_T) == Some(v) && RowBlind(item, alias, columns, v, calls)
    ensures Blind(Pick(item, alias, columns), acc, calls)
  {
    forall d1: Database, d2: Database | SameDatabase(d1, d2, acc)
      ensures EvalQuery(Pick(item, alias, columns), TopContext(d1, calls))
        == EvalQuery(Pick(item, alias, columns), TopContext(d2, calls))
    {
      if TABLE_T in d1 {
        RowsSame(item, alias, columns, v, d1[TABLE_T], d2[TABLE_T], TopContext(d1, calls), TopContext(d2, calls));
      } else {
        NoRows(item, alias, columns, TopContext(d1, calls), TopContext(d2, calls));
      }
    }
  }

  // ---------------------------------------------------------------- a qualified column and an alias list

  /** A column that the alias list does not introduce is the table's own. */
  lemma {:induction false} OwnColumn(r1: Relation, r2: Relation, columns: seq<string>, v: Vis, name: string, i: nat)
    requires SameRelation(r1, r2, v) && i < |r1.rows| && Sees(v, name) && name !in columns
    ensures Field(Rename(r1, columns).cols, r1.rows[i], name) == Field(Rename(r2, columns).cols, r2.rows[i], name)
  {
    var cols := Rename(r1, columns).cols;
    var k := IndexOf(cols, name);
    if k < |cols| {
      assert k >= |columns| && cols[k] == r1.cols[k];
      assert SameVals(r1.cols, r1.rows[i], r2.rows[i], v);
    }
  }

  /** `k` further names. */
  function Others(hidden: string, k: nat): (r: seq<string>)
    ensures |r| == k
  {
    if k == 0 then [] else Others(hidden, k - 1) + [hidden + seq(k, i => '_')]
  }

  /** A table whose last column is hidden, with one row. */
  function Hiding(hidden: string, k: nat, value: Value): Relation {
    Relation(Others(hidden, k) + [hidden], [Nulls(k) + [value]])
  }

  function DatabaseOf(rel: Relation): Database {
    map[TABLE_T := rel]
  }

  lemma {:induction false} HidingSame(hidden: string, k: nat, v1: Value, v2: Value, v: Vis, acc: Access)
    requires acc(TABLE_T) == Some(v) && !Sees(v, hidden)
    ensures SameDatabase(DatabaseOf(Hiding(hidden, k, v1)), DatabaseOf(Hiding(hidden, k, v2)), acc)
  {
    var a, b := Hiding(hidden, k, v1), Hiding(hidden, k, v2);
    forall i | 0 <= i < k + 1 && Sees(v, a.cols[i])
      ensures a.rows[0][i] == b.rows[0][i]
    {
      assert a.cols[k] == hidden;
    }
    assert SameVals(a.cols, a.rows[0], b.rows[0], v);
  }

  /** The first name of an alias list of that length at the hidden column's place. */
  lemma {:induction false} RenamedTo(columns: seq<string>, name: string, rel: Relation)
    requires name in columns && |rel.cols| == IndexOf(columns, name) + 1
    ensures |Rename(rel, columns).cols| == |rel.cols| && IndexOf(Rename(rel, columns).cols, name) == |rel.cols| - 1
  {
    var k := IndexOf(columns, name);
    assert Rename(rel, columns).cols == columns[..k + 1];
    IndexOfPrefix(columns, name, k + 1);
  }

  lemma {:induction false} IndexOfPrefix(xs: seq<string>, x: string, n: nat)
    requires IndexOf(xs, x) < n <= |xs|
    ensures IndexOf(xs[..n], x) == IndexOf(xs, x)
  {
    if xs[0] != x {
      IndexOfPrefix(xs[1..], x, n - 1);
      assert xs[..n][1..] == xs[1..][..n - 1];
    }
  }

  lemma {:induction false} HiddenValue(alias: string, name: string, columns: seq<string>, hidden: string,
        value: Value, calls: Calls)
    requires alias != "" && name in columns
    ensures EvalQuery(Pick(Column(alias, name), alias, columns),
                      TopContext(DatabaseOf(Hiding(hidden, IndexOf(columns, name), value)), calls)).rows == [[value]]
  {
    var rel := Hiding(hidden, IndexOf(columns, name), value);
    var c := TopContext(DatabaseOf(rel), calls);
    var cols := Rename(rel, columns).cols;
    RenamedTo(columns, name, rel);
    ItemOfOne(Column(alias, name), alias, columns, cols, rel.rows[0], c);
    QualifiedHere(alias, name, cols, rel.rows[0], c);
  }

  /**
   * On `SELECT alias.name FROM t AS alias(columns)` with `name` visible and something hidden, the
   * guarantee holds exactly when the alias list does not introduce `name`.
   */
  lemma {:induction false} AliasListDecides(alias: string, name: string, columns: seq<string>, v: Vis, hidden: string,
        acc: Access, calls: Calls)
    requires alias != "" && acc(TABLE_T) == Some(v) && Sees(v, name) && !Sees(v, hidden)
    ensures Blind(Pick(Column(alias, name), alias, columns), acc, calls) <==> name !in columns
  {
    var item := Column(alias, name);
    if name in columns {
      var k := IndexOf(columns, name);
      var d1, d2 := DatabaseOf(Hiding(hidden, k, VNum(1.0))), DatabaseOf(Hiding(hidden, k, VNum(2.0)));
      HidingSame(hidden, k, VNum(1.0), VNum(2.0), v, acc);
      HiddenValue(alias, name, columns, hidden, VNum(1.0), calls);
      HiddenValue(alias, name, columns, hidden, VNum(2.0), calls);
      assert [[VNum(1.0)]][0][0] != [[VNum(2.0)]][0][0];
    } else {
      forall r1: Relation, r2: Relation, d1: Database, d2: Database, i: nat | SameRelation(r1, r2, v) && i < |r1.rows|
        ensures EvalExpr(item, OnRow(alias, Rename(r1, columns).cols, r1.rows[i], TopContext(d1, calls)))
          == EvalExpr(item, OnRow(alias, Rename(r2, columns).cols, r2.rows[i], TopContext(d2, calls)))
      {
        QualifiedHere(alias, name, Rename(r1, columns).cols, r1.rows[i], TopContext(d1, calls));
        QualifiedHere(alias, name, Rename(r2, columns).cols, r2.rows[i], TopContext(d2, calls));
        OwnColumn(r1, r2, columns, v, name, i);
      }
      BlindFromRows(item, alias, columns, v, acc, calls);
    }
  }

  /**
   * The column check passes `SELECT alias.name FROM t AS alias(columns)` whenever `name` is allowed, and
   * what it promises then holds exactly when the alias list does not introduce `name`.
   */
  lemma {:induction false} ColumnCheckHoldsExactly(alias: string, name: string, columns: seq<string>,
        policy: GuardPolicy, cols: set<string>, hidden: string, calls: Calls)
    requires alias != "" && policy.allowedTables == Some(map["t" := Some(cols)])
    requires Lower(name) in cols && Lower(hidden) !in cols
    ensures var stmt, tables := Pick(Column(alias, name), alias, columns),
        [SourceAt(Column(alias, name), alias, columns)];
      && CheckTables(tables, policy) == [] && CheckColumns(stmt, tables, policy) == []
      && (Blind(stmt, ColumnMeaning.ColumnAccess(policy), calls) <==> name !in columns)
  {
    var item := Column(alias, name);
    PickBooks(item, alias, columns, map["t" := Some(cols)], cols);
    PickPasses(item, alias, columns, policy, cols);
    ColumnView(policy, cols);
    AliasListDecides(alias, name, columns, Only(cols), hidden, ColumnMeaning.ColumnAccess(policy), calls);
  }

  /** The same condition for the PII check: it passes when `name` is not classified. */
  lemma {:induction false} PiiCheckHoldsExactly(alias: string, name: string, columns: seq<string>,
        policy: GuardPolicy, classified: set<string>, hidden: string, calls: Calls)
    requires alias != "" && policy.piiColumns == Some(map["t" := classified])
    requires Lower(name) !in classified && Lower(hidden) in classified
    ensures var stmt, tables := Pick(Column(alias, name), alias, columns),
        [SourceAt(Column(alias, name), alias, columns)];
      && Pii.CheckPii(stmt, tables, policy) == []
      && (Blind(stmt, PiiMeaning.PiiAccess(policy.piiColumns.value), calls) <==> name !in columns)
  {
    PiiPasses(alias, name, columns, policy, classified);
    PiiView(policy, classified);
    AliasListDecides(alias, name, columns, AllBut(classified), hidden, PiiMeaning.PiiAccess(policy.piiColumns.value),
        calls);
  }

  // ---------------------------------------------------------------- an unqualified name

  lemma {:induction false} WholeRowSeen(name: string, hidden: string, value: Value, calls: Calls)
    requires name != "" && name != hidden
    ensures EvalQuery(Pick(Column("", name), name, []), TopContext(DatabaseOf(Hiding(hidden, 0, value)), calls)).rows
        == [[VRow([value])]]
  {
    var rel := Hiding(hidden, 0, value);
    var c := TopContext(DatabaseOf(rel), calls);
    assert rel.cols == [hidden] && rel.rows[0] == [value];
    assert rel == Relation([hidden], [[value]]);
    ItemOfOne(Column("", name), name, [], [hidden], [value], c);
    UnqualifiedHere(name, name, [hidden], [value], c);
  }

  /** On `SELECT name FROM t AS alias` the guarantee holds exactly when `name` is not the alias itself. */
  lemma {:induction false} RowNameDecides(alias: string, name: string, v: Vis, hidden: string, acc: Access,
        calls: Calls)
    requires alias != "" && acc(TABLE_T) == Some(v) && Sees(v, name) && !Sees(v, hidden)
    ensures Blind(Pick(Column("", name), alias, []), acc, calls) <==> name != alias
  {
    var item := Column("", name);
    if name == alias {
      var d1, d2 := DatabaseOf(Hiding(hidden, 0, VNum(1.0))), DatabaseOf(Hiding(hidden, 0, VNum(2.0)));
      HidingSame(hidden, 0, VNum(1.0), VNum(2.0), v, acc);
      WholeRowSeen(name, hidden, VNum(1.0), calls);
      WholeRowSeen(name, hidden, VNum(2.0), calls);
      assert [[VRow([VNum(1.0)])]][0][0].fields[0] != [[VRow([VNum(2.0)])]][0][0].fields[0];
    } else {
      forall r1: Relation, r2: Relation, d1: Database, d2: Database, i: nat | SameRelation(r1, r2, v) && i < |r1.rows|
        ensures EvalExpr(item, OnRow(alias, Rename(r1, []).cols, r1.rows[i], TopContext(d1, calls)))
          == EvalExpr(item, OnRow(alias, Rename(r2, []).cols, r2.rows[i], TopContext(d2, calls)))
      {
        UnqualifiedHere(alias, name, r1.cols, r1.rows[i], TopContext(d1, calls));
        UnqualifiedHere(alias, name, r2.cols, r2.rows[i], TopContext(d2, calls));
        assert SameVals(r1.cols, r1.rows[i], r2.rows[i], v);
        FieldSame(r1.cols, r1.rows[i], r2.rows[i], v, name);
      }
      BlindFromRows(item, alias, [], v, acc, calls);
    }
  }

  /**
   * The column check passes `SELECT name FROM t AS alias` when the lower-cased name is an allowed column
   * and not `t` or the alias; what it promises then holds exactly when `name` is not the alias as written.
   */
  lemma {:induction false} RowNameHoldsExactly(alias: string, name: string, policy: GuardPolicy,
        cols: set<string>, hidden: string, calls: Calls)
    requires alias != "" && policy.allowedTables == Some(map["t" := Some(cols)])
    requires Lower(name) in cols && Lower(name) != "t" && Lower(name) != alias && Lower(hidden) !in cols
    ensures var stmt, tables := Pick(Column("", name), alias, []), [SourceAt(Column("", name), alias, [])];
      && CheckTables(tables, policy) == [] && CheckColumns(stmt, tables, policy) == []
      && (Blind(stmt, ColumnMeaning.ColumnAccess(policy), calls) <==> name != alias)
  {
    RowNamePasses(name, alias, policy, cols);
    ColumnView(policy, cols);
    RowNameDecides(alias, name, Only(cols), hidden, ColumnMeaning.ColumnAccess(policy), calls);
  }

  // ---------------------------------------------------------------- an unqualified column of a subquery

  /** The value is the same whatever rows surround the expression. */
  ghost predicate RowFree(n: Node, c: Context) {
    forall e1: seq<Frame>, e2: seq<Frame> :: EvalExpr(n, c.(env := e1)) == EvalExpr(n, c.(env := e2))
  }

  function InnerQuery(alias: string, name: string): Node {
    Subquery(Pick(Column("", name), alias, []), "", [], [])
  }

  lemma {:induction false} ColumnFirst(alias: string, name: string, cols: seq<string>, vals: seq<Value>, c: Context)
    requires name in cols
    ensures EvalExpr(Column("", name), OnRow(alias, cols, vals, c)) == Field(cols, vals, name)
  {
    var env := OnRow(alias, cols, vals, c).env;
    assert env[0] == Frame([Header(alias, cols, {})], [vals]);
    assert FindColumn(env[0].shape, name) == 0;
  }

  /** A surrounding row whose only column is `name`. */
  function Surrounding(name: string, value: Value): seq<Frame> {
    [Frame([Header("", [name], {})], [[value]])]
  }

  lemma {:induction false} OuterColumn(alias: string, name: string, cols: seq<string>, vals: seq<Value>, c: Context,
        value: Value)
    requires name !in cols && c.env == Surrounding(name, value)
    ensures EvalExpr(Column("", name), OnRow(alias, cols, vals, c)) == value
  {
    var env := OnRow(alias, cols, vals, c).env;
    assert env[0] == Frame([Header(alias, cols, {})], [vals]) && env[1..] == Surrounding(name, value);
    assert [Header(alias, cols, {})][1..] == [];
    assert FindColumn(env[0].shape, name) == 1;
    assert FindColumn(env[1].shape, name) == 0;
    assert LookupColumn(env[1..], name) == Some(value);
  }

  lemma {:induction false} InnerRows(alias: string, name: string, rel: Relation, c: Context)
    requires alias != "" && c.ctes == map[] && c.group == [] && TABLE_T in c.db && c.db[TABLE_T] == rel
    ensures |rel.rows| == 1 ==>
      EvalQuery(Pick(Column("", name), alias, []), c).rows
        == [[EvalExpr(Column("", name), OnRow(alias, rel.cols, rel.rows[0], c))]]
    ensures |EvalQuery(Pick(Column("", name), alias, []), c).rows| == |rel.rows|
  {
    PickRows(Column("", name), alias, [], c);
    ProjectedLength([Column("", name)], [Header(alias, rel.cols, {})], WrapRows(rel.rows), c);
    if |rel.rows| == 1 {
      assert rel == Relation(rel.cols, [rel.rows[0]]);
      ItemOfOne(Column("", name), alias, [], rel.cols, rel.rows[0], c);
    }
  }

  lemma {:induction false} ScalarValue(q: Node, c: Context)
    requires q.Subquery?
    ensures EvalExpr(q, c) == ScalarOf(EvalQuery(q.arg, c.(group := [])))
  {
  }

  lemma {:induction false} InnerValue(alias: string, name: string, rel: Relation, c: Context)
    requires alias != "" && c.ctes == map[] && TABLE_T in c.db && c.db[TABLE_T] == rel
    ensures EvalExpr(InnerQuery(alias, name), c) ==
      if |rel.rows| == 1 then EvalExpr(Column("", name), OnRow(alias, rel.cols, rel.rows[0], c.(group := [])))
      else VNull
  {
    InnerRows(alias, name, rel, c.(group := []));
    ScalarValue(InnerQuery(alias, name), c);
  }

  lemma {:induction false} OneColumnUncorrelated(alias: string, name: string)
    ensures Inference.IsUncorrelated(Pick(Column("", name), alias, []))
  {
    var sel := Pick(Column("", name), alias, []);
    PickSearches(Column("", name), alias, []);
    forall l | Inside(l, sel) && IsColumn(l.node)
      ensures l.node.table == ""
    {
      FoundIffInside(sel, IsColumn, l);
    }
    InferenceMeaning.NoQualifierNoCorrelation(sel);
  }

  /**
   * `(SELECT name FROM t AS alias)` always counts as uncorrelated. Where `t` has one row, it has the same
   * value for all surrounding rows exactly when `name` is a column of `t`; else it is always NULL.
   */
  lemma {:induction false} UncorrelatedHoldsExactly(alias: string, name: string, c: Context)
    requires alias != "" && c.ctes == map[] && TABLE_T in c.db
    ensures Inference.IsUncorrelated(Pick(Column("", name), alias, []))
    ensures RowFree(InnerQuery(alias, name), c) <==> (|c.db[TABLE_T].rows| == 1 ==> name in c.db[TABLE_T].cols)
  {
    OneColumnUncorrelated(alias, name);
    var rel, q := c.db[TABLE_T], InnerQuery(alias, name);
    if |rel.rows| == 1 && name !in rel.cols {
      var c1, c2 := c.(env := Surrounding(name, VNum(1.0))), c.(env := Surrounding(name, VNum(2.0)));
      InnerValue(alias, name, rel, c1);
      InnerValue(alias, name, rel, c2);
      OuterColumn(alias, name, rel.cols, rel.rows[0], c1.(group := []), VNum(1.0));
      OuterColumn(alias, name, rel.cols, rel.rows[0], c2.(group := []), VNum(2.0));
      assert EvalExpr(q, c1) != EvalExpr(q, c2);
    } else {
      forall e1: seq<Frame>, e2: seq<Frame>
        ensures EvalExpr(q, c.(env := e1)) == EvalExpr(q, c.(env := e2))
      {
        InnerValue(alias, name, rel, c.(env := e1));
        InnerValue(alias, name, rel, c.(env := e2));
        if |rel.rows| == 1 {
          ColumnFirst(alias, name, rel.cols, rel.rows[0], c.(env := e1, group := []));
          ColumnFirst(alias, name, rel.cols, rel.rows[0], c.(env := e2, group := []));
        }
      }
    }
  }

  // ---------------------------------------------------------------- a star below COUNT

  lemma {:induction false} SameField(d1: Database, d2: Database, v: Vis, acc: Access)
    requires acc(TABLE_T) == Some(v) && SameDatabase(d1, d2, acc) && forall h: string :: Sees(v, h)
    ensures OnlyField(d1) == OnlyField(d2)
  {
    if TABLE_T in d1 && |d1[TABLE_T].rows| == 1 && d1[TABLE_T].cols != [] {
      var a, b := d1[TABLE_T], d2[TABLE_T];
      assert SameVals(a.cols, a.rows[0], b.rows[0], v);
      assert Sees(v, a.cols[0]);
    }
  }

  /** `SELECT COUNT((SELECT * FROM t AS alias(columns)))` is blind exactly when nothing of `t` is hidden. */
  lemma {:induction false} CountedStarDecides(alias: string, columns: seq<string>, v: Vis, acc: Access, calls: Calls)
    requires acc(TABLE_T) == Some(v)
    ensures Blind(CountStar(alias, columns), acc, calls) <==> forall h: string :: Sees(v, h)
  {
    if h: string :| !Sees(v, h) {
      var d1, d2 := DatabaseOf(Hiding(h, 0, VNull)), DatabaseOf(Hiding(h, 0, VNum(1.0)));
      HidingSame(h, 0, VNull, VNum(1.0), v, acc);
      CountValue(alias, columns, d1, calls);
      CountValue(alias, columns, d2, calls);
      assert [[VNum(0.0)]][0][0] != [[VNum(1.0)]][0][0];
    } else {
      forall d1: Database, d2: Database | SameDatabase(d1, d2, acc)
        ensures EvalQuery(CountStar(alias, columns), TopContext(d1, calls))
          == EvalQuery(CountStar(alias, columns), TopContext(d2, calls))
      {
        SameField(d1, d2, v, acc);
        CountValue(alias, columns, d1, calls);
        CountValue(alias, columns, d2, calls);
      }
    }
  }

  /** The classified names are in lower case, as the policy stores them. */
  predicate Folded(configured: Pii.PiiConfig) {
    forall key, name :: key in configured && name in configured[key] ==> Lower(name) == name
  }

  lemma {:induction false} ShowsAllExactly(configured: Pii.PiiConfig)
    requires Folded(configured)
    ensures PiiMeaning.PiiAccess(configured)(TABLE_T).Some?
    ensures (forall h: string :: Sees(PiiMeaning.PiiAccess(configured)(TABLE_T).value, h))
      <==> !("t" in configured && configured["t"] != {})
  {
    assert Lower("t") == "t" && Lower("") == "";
    if "t" in configured && configured["t"] != {} {
      assert "t" in Pii.ClassifiedKeys(configured);
      var name :| name in configured["t"];
      assert !Sees(AllBut(configured["t"]), name);
    }
  }

  /**
   * The PII check passes `SELECT COUNT((SELECT * FROM t AS alias(columns)))` whatever is classified, and
   * what it promises then holds exactly when no column of `t` is classified.
   */
  lemma {:induction false} CountedStarHoldsExactly(alias: string, columns: seq<string>, tables: seq<Located>,
        policy: GuardPolicy, calls: Calls)
    requires policy.piiColumns.Some? && Folded(policy.piiColumns.value)
    ensures Pii.CheckPii(CountStar(alias, columns), tables, policy) == []
    ensures Blind(CountStar(alias, columns), PiiMeaning.PiiAccess(policy.piiColumns.value), calls)
      <==> !("t" in policy.piiColumns.value && policy.piiColumns.value["t"] != {})
  {
    var configured := policy.piiColumns.value;
    CountStarPasses(alias, columns, tables, policy);
    ShowsAllExactly(configured);
    var acc := PiiMeaning.PiiAccess(configured);
    CountedStarDecides(alias, columns, acc(TABLE_T).value, acc, calls);
  }

  // ---------------------------------------------------------------- a maximum without a default

  /** Under the policy every query that reads a source returns at most `max_limit` rows. */
  ghost predicate MaximumHolds(policy: GuardPolicy, calls: Calls)
    requires policy.maxLimit.Some?
  {
    forall stmt: Node, d: Database :: Limiting.Limitable(stmt) && Has(stmt, Limiting.IsFrom) ==>
      |EvalQuery(Limiting.ApplyLimit(stmt, policy).0, TopContext(d, calls)).rows| <= policy.maxLimit.value
  }

  /** A table of `n` rows. */
  function Rows(n: nat): (r: seq<seq<Value>>)
    ensures |r| == n
  {
    if n == 0 then [] else [[VNull]] + Rows(n - 1)
  }

  lemma {:induction false} PickReadsASource()
    ensures Has(Pick(Column("a", "x"), "a", []), Limiting.IsFrom)
  {
    var stmt := Pick(Column("a", "x"), "a", []);
    PickWalk(Column("a", "x"), "a", []);
    assert Inside(Below(From(Source("a", [])), Root(stmt)), stmt);
    HasIffInside(stmt, Limiting.IsFrom);
  }

  lemma {:induction false} EveryRowReturned(n: nat, calls: Calls)
    ensures |EvalQuery(Pick(Column("a", "x"), "a", []), TopContext(DatabaseOf(Relation(["x"], Rows(n))), calls)).rows|
        == n
  {
    var c := TopContext(DatabaseOf(Relation(["x"], Rows(n))), calls);
    PickRows(Column("a", "x"), "a", [], c);
    ProjectedLength([Column("a", "x")], [Header("a", ["x"], {})], WrapRows(Rows(n)), c);
  }

  /** `max_limit` bounds every query that reads a source exactly when a default limit is set too. */
  lemma {:induction false} MaximumNeedsDefault(policy: GuardPolicy, calls: Calls)
    requires Accepted(policy) && policy.maxLimit.Some?
    ensures MaximumHolds(policy, calls) <==> policy.defaultLimit.Some?
  {
    if policy.defaultLimit.Some? {
      forall stmt: Node, d: Database | Limiting.Limitable(stmt) && Has(stmt, Limiting.IsFrom)
        ensures |EvalQuery(Limiting.ApplyLimit(stmt, policy).0, TopContext(d, calls)).rows| <= policy.maxLimit.value
      {
        Limiting.RowsAreBounded(stmt, policy, TopContext(d, calls));
      }
    } else {
      var stmt, n := Pick(Column("a", "x"), "a", []), policy.maxLimit.value + 1;
      PickReadsASource();
      EveryRowReturned(n, calls);
      assert Limiting.ApplyLimit(stmt, policy).0 == stmt;
    }
  }
}
