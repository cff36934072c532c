/**
 * Why the column theorems carry their provisos: for each, a statement both checks pass although its
 * result depends on a column the policy hides.
 */
module Provisos {
  import opened Syntax
  import opened Text
  import opened SqlValues
  import opened Traversal
  import opened Semantics
  import opened Noninterference
  import opened Policy
  import opened Tables
  import opened TableAllowlist
  import opened ColumnAllowlist
  import ColumnMeaning
  import Pii
  import PiiMeaning

  // ---------------------------------------------------------------- one column of one table

  function Source(alias: string, columns: seq<string>): Node {
    Table(1, "", "t", alias, columns)
  }

  /** `SELECT item FROM t AS alias(columns)` */
  function Pick(item: Node, alias: string, columns: seq<string>): Node {
    Select(0, [], [item], None, Some(From(Source(alias, columns))), [], None, None, [], None)
  }

  /** The table occurrence of that statement. */
  function SourceAt(item: Node, alias: string, columns: seq<string>): Located {
    Below(Source(alias, columns), Below(From(Source(alias, columns)), Root(Pick(item, alias, columns))))
  }

  lemma {:induction false} FourInAll(a: Located, b: Located, c: Located, d: Located)
    ensures [a] + ([b] + [c, d]) == [a, b, c, d]
  {
  }

  lemma {:induction false} PickWalk(item: Node, alias: string, columns: seq<string>)
    requires item.Column?
    ensures Walk(Root(Pick(item, alias, columns))) ==
      [Root(Pick(item, alias, columns)), Below(item, Root(Pick(item, alias, columns))),
       Below(From(Source(alias, columns)), Root(Pick(item, alias, columns))), SourceAt(item, alias, columns)]
  {
    var stmt, from := Pick(item, alias, columns), From(Source(alias, columns));
    var r := Root(stmt);
    PickKids(item, alias, columns);
    TwoKidsWalk(r, item, from);
    LeafWalk(Below(item, r));
    ChainWalk(Below(from, r), Source(alias, columns));
    FourInAll(r, Below(item, r), Below(from, r), SourceAt(item, alias, columns));
  }

  lemma {:induction false} PickKids(item: Node, alias: string, columns: seq<string>)
    requires item.Column?
    ensures Kids(Pick(item, alias, columns)) == [item, From(Source(alias, columns))]
    ensures Kids(item) == [] && Kids(From(Source(alias, columns))) == [Source(alias, columns)]
        && Kids(Source(alias, columns)) == []
  {
  }

  lemma {:induction false} NoneFound(root: Node, p: Node -> bool)
    requires forall l :: Inside(l, root) ==> !p(l.node)
    ensures FindAll(root, p) == []
  {
    HasIffInside(root, p);
  }

  /** The item is the only column, and there is no star, join, subquery or WITH query. */
  lemma {:induction false} PickSearches(item: Node, alias: string, columns: seq<string>)
    requires item.Column?
    ensures var stmt := Pick(item, alias, columns);
      && FindAll(stmt, IsStar) == [] && FindAll(stmt, IsJoin) == []
      && FindAll(stmt, IsSubquery) == [] && FindAll(stmt, IsLateral) == [] && FindAll(stmt, IsNamedCte) == []
    ensures forall l :: l in FindAll(Pick(item, alias, columns), IsColumn) ==>
        l == Below(item, Root(Pick(item, alias, columns)))
  {
    var stmt := Pick(item, alias, columns);
    PickWalk(item, alias, columns);
    NoneFound(stmt, IsStar);
    NoneFound(stmt, IsJoin);
    NoneFound(stmt, IsSubquery);
    NoneFound(stmt, IsLateral);
    NoneFound(stmt, IsNamedCte);
    forall l | l in FindAll(stmt, IsColumn)
      ensures l == Below(item, Root(stmt))
    {
      FoundIffInside(stmt, IsColumn, l);
    }
  }

  // ---------------------------------------------------------------- its value

  const TABLE_T := TableName("", "t")

  lemma {:induction false} AllKept(shape: seq<Header>, rows: seq<seq<seq<Value>>>, c: Context)
    ensures Semantics.Kept(None, shape, rows, c) == rows
    decreases |rows|
  {
    if rows != [] {
      AllKept(shape, rows[1..], c);
    }
  }

  /** The rows of `t`, as the statement names its columns. */
  ghost function SourceRelation(columns: seq<string>, d: Database): Relation {
    if TABLE_T in d then Rename(d[TABLE_T], columns) else Relation([], [])
  }

  lemma {:induction false} PickSource(item: Node, alias: string, columns: seq<string>, c: Context)
    requires item.Column? && alias != "" && c.ctes == map[]
    ensures var rel := SourceRelation(columns, c.db);
      SourceRows(Pick(item, alias, columns), c) == Product([Header(alias, rel.cols, {})], WrapRows(rel.rows))
  {
    var rel := SourceRelation(columns, c.db);
    assert EvalSource(Source(alias, columns), c) == rel;
    AllKept([Header(alias, rel.cols, {})], WrapRows(rel.rows), c);
  }

  /** The item, once per row of the table. */
  lemma {:induction false} PickRows(item: Node, alias: string, columns: seq<string>, c: Context)
    requires item.Column? && alias != "" && c.ctes == map[] && c.group == []
    ensures var rel := SourceRelation(columns, c.db);
      EvalQuery(Pick(item, alias, columns), c) ==
        Relation([AliasOrName(item)], ProjectRows([item], [Header(alias, rel.cols, {})], WrapRows(rel.rows), c))
  {
    var stmt := Pick(item, alias, columns);
    PickSource(item, alias, columns, c);
    assert c.(ctes := EvalCtes(stmt.ctes, c), group := []) == c;
    assert !Aggregated(stmt);
    assert [item][1..] == [];
    assert forall shapes :: ProjectCols([item], shapes) == [AliasOrName(item)] + ProjectCols([], shapes);
  }

  /** What the item is evaluated on: one row of the table. */
  ghost function OnRow(alias: string, cols: seq<string>, vals: seq<Value>, c: Context): Context {
    Within(c, [Header(alias, cols, {})], [vals])
  }

  lemma {:induction false} ItemRow(item: Node, c: Context)
    requires item.Column?
    ensures ProjectRow([item], c) == [EvalExpr(item, c)]
  {
    assert [item][1..] == [];
  }

  lemma {:induction false} ItemOfOne(item: Node, alias: string, columns: seq<string>, cols: seq<string>,
        vals: seq<Value>, c: Context)
    requires item.Column? && alias != "" && c.ctes == map[] && c.group == []
    requires SourceRelation(columns, c.db) == Relation(cols, [vals])
    ensures EvalQuery(Pick(item, alias, columns), c).rows == [[EvalExpr(item, OnRow(alias, cols, vals, c))]]
  {
    PickRows(item, alias, columns, c);
    assert WrapRows([vals]) == [[vals]] && WrapRows([vals])[1..] == [];
    ItemRow(item, OnRow(alias, cols, vals, c));
  }

  /** A database in which `t` has the one column `secret` and one row. */
  function Holding(v: Value): Database {
    map[TableName("", "t") := Relation(["secret"], [[v]])]
  }

  lemma {:induction false} QualifiedHere(alias: string, name: string, cols: seq<string>, vals: seq<Value>, c: Context)
    requires alias != ""
    ensures EvalExpr(Column(alias, name), OnRow(alias, cols, vals, c)) == Field(cols, vals, name)
  {
    var row := OnRow(alias, cols, vals, c);
    assert row.env[0] == Frame([Header(alias, cols, {})], [vals]);
    assert FindLabel(row.env[0].shape, alias) == 0;
  }

  lemma {:induction false} UnqualifiedHere(alias: string, name: string, cols: seq<string>, vals: seq<Value>, c: Context)
    requires c.env == []
    ensures EvalExpr(Column("", name), OnRow(alias, cols, vals, c)) ==
      if name in cols then Field(cols, vals, name) else if alias == name then VRow(vals) else VNull
  {
    var env := OnRow(alias, cols, vals, c).env;
    assert env[0] == Frame([Header(alias, cols, {})], [vals]) && env[1..] == [];
    assert [Header(alias, cols, {})][1..] == [];
    assert FindColumn(env[0].shape, name) == if name in cols then 0 else 1;
    assert FindLabel(env[0].shape, name) == if alias == name then 0 else 1;
    assert LookupColumn(env, name) == if name in cols then Some(Field(cols, vals, name)) else None;
    assert LookupRow(env, name) == if alias == name then VRow(vals) else VNull;
  }

  // ---------------------------------------------------------------- the checks on it

  /** The books of the column check: one restricted table, known by its name and its alias. */
  lemma {:induction false} PickBooks(item: Node, alias: string, columns: seq<string>, allowed: Allowlist,
        cols: set<string>)
    requires item.Column? && alias != "" && allowed == map["t" := Some(cols)]
    ensures var b := BooksOf(Pick(item, alias, columns), [SourceAt(item, alias, columns)], allowed);
      && b.byName == map["t" := cols, alias := cols] && b.single == Some(cols) && b.union == cols
          && b.realCols == [cols]
  {
    var t := SourceAt(item, alias, columns);
    var r := Restricted(allowed);
    assert r == map["t" := cols];
    assert KeyCandidates(t.node) == ["t"];
    assert ColumnsFor(t.node, r) == Some(cols);
    assert [t][1..] == [];
    assert RealColumns([t], r) == [cols] + RealColumns([], r);
    assert ByName([t], r, map[]) == Register(t, r, map[]);
    assert UnionOf([cols]) == cols + UnionOf([]);
  }

  lemma {:induction false} OnlyThisColumn(cols: seq<Located>, col: Located, b: Books)
    requires forall l :: l in cols ==> l == col
    requires IsColumn(col.node) && !ColumnForbidden(col.node, b)
    ensures ColumnViolations(cols, b) == []
    decreases |cols|
  {
    if cols != [] {
      assert cols[0] in cols && forall l :: l in cols[1..] ==> l in cols;
      OnlyThisColumn(cols[1..], col, b);
    }
  }

  lemma {:induction false} TablePasses(t: Located, policy: GuardPolicy, cols: set<string>)
    requires t.node.Table? && t.node.db == "" && t.node.name == "t"
        && policy.allowedTables == Some(map["t" := Some(cols)])
    ensures CheckTables([t], policy) == []
  {
    var allowed: Allowlist := map["t" := Some(cols)];
    assert KeyCandidates(t.node) == ["t"] && "t" in allowed.Keys;
    assert MatchTable(t.node, allowed) == Some("t");
    assert [t][1..] == [];
    assert TableViolations([t], allowed, {}) == [] + TableViolations([], allowed, {} + {TableLabel(t.node)});
  }

  lemma {:induction false} EmptyReport(stmt: Node, tables: seq<Located>, policy: GuardPolicy, b: Books)
    requires policy.allowedTables.Some? && b == BooksOf(stmt, tables, policy.allowedTables.value)
    requires FindAll(stmt, IsStar) == [] && FindAll(stmt, IsJoin) == []
        && ColumnViolations(FindAll(stmt, IsColumn), b) == []
    ensures CheckColumns(stmt, tables, policy) == []
  {
  }

  lemma {:induction false} PickPasses(item: Node, alias: string, columns: seq<string>, policy: GuardPolicy,
        cols: set<string>)
    requires item.Column? && alias != "" && policy.allowedTables == Some(map["t" := Some(cols)])
    requires !ColumnForbidden(item,
        BooksOf(Pick(item, alias, columns), [SourceAt(item, alias, columns)], map["t" := Some(cols)]))
    ensures CheckTables([SourceAt(item, alias, columns)], policy) == []
    ensures CheckColumns(Pick(item, alias, columns), [SourceAt(item, alias, columns)], policy) == []
  {
    var stmt, t := Pick(item, alias, columns), SourceAt(item, alias, columns);
    TablePasses(t, policy, cols);
    PickSearches(item, alias, columns);
    var b := BooksOf(stmt, [t], map["t" := Some(cols)]);
    OnlyThisColumn(FindAll(stmt, IsColumn), Below(item, Root(stmt)), b);
    EmptyReport(stmt, [t], policy, b);
  }

  lemma {:induction false} ColumnView(policy: GuardPolicy, cols: set<string>)
    requires policy.allowedTables == Some(map["t" := Some(cols)])
    ensures ColumnMeaning.ColumnAccess(policy)(TABLE_T) == Some(Only(cols))
  {
    assert ColumnMeaning.RestrictedKeys(policy.allowedTables.value) == {"t"};
  }

  /** Two one-row tables agree under a view that does not show their column. */
  lemma {:induction false} HoldingSame(v1: Value, v2: Value, v: Vis, acc: Access)
    requires acc(TABLE_T) == Some(v) && !v.All? && !Sees(v, "secret")
    ensures SameDatabase(Holding(v1), Holding(v2), acc)
  {
    assert SameVals(["secret"], [v1], [v2], v);
  }

  /** Databases that differ in the hidden column only. */
  lemma {:induction false} HiddenDiffers(policy: GuardPolicy, cols: set<string>, v1: Value, v2: Value)
    requires policy.allowedTables == Some(map["t" := Some(cols)]) && "secret" !in cols
    ensures SameDatabase(Holding(v1), Holding(v2), ColumnMeaning.ColumnAccess(policy))
  {
    ColumnView(policy, cols);
    LowerSecret();
    HoldingSame(v1, v2, Only(cols), ColumnMeaning.ColumnAccess(policy));
  }

  lemma {:induction false} LowerSecret()
    ensures Lower("secret") == "secret"
  {
  }

  lemma {:induction false} AliasListPasses(policy: GuardPolicy)
    requires policy.allowedTables == Some(map["t" := Some({"x"})])
    ensures CheckTables([SourceAt(Column("a", "x"), "a", ["x"])], policy) == []
    ensures CheckColumns(Pick(Column("a", "x"), "a", ["x"]), [SourceAt(Column("a", "x"), "a", ["x"])], policy) == []
  {
    var item := Column("a", "x");
    PickBooks(item, "a", ["x"], map["t" := Some({"x"})], {"x"});
    assert Lower("x") == "x";
    PickPasses(item, "a", ["x"], policy, {"x"});
  }

  /**
   * A column alias list renames columns behind the check's back: `SELECT a.x FROM t AS a(x)` passes
   * when `x` is allowed, and returns the hidden column.
   */
  lemma {:induction false} AliasListEscapes(policy: GuardPolicy, v1: Value, v2: Value, calls: Calls)
    requires policy.allowedTables == Some(map["t" := Some({"x"})]) && v1 != v2
    ensures var stmt, tables := Pick(Column("a", "x"), "a", ["x"]), [SourceAt(Column("a", "x"), "a", ["x"])];
      && CheckTables(tables, policy) == [] && CheckColumns(stmt, tables, policy) == []
      && SameDatabase(Holding(v1), Holding(v2), ColumnMeaning.ColumnAccess(policy))
      && EvalQuery(stmt, TopContext(Holding(v1), calls)) != EvalQuery(stmt, TopContext(Holding(v2), calls))
  {
    AliasListPasses(policy);
    HiddenDiffers(policy, {"x"}, v1, v2);
    AliasListDiffers(v1, v2, calls);
  }

  lemma {:induction false} AliasListDiffers(v1: Value, v2: Value, calls: Calls)
    requires v1 != v2
    ensures EvalQuery(Pick(Column("a", "x"), "a", ["x"]), TopContext(Holding(v1), calls))
      != EvalQuery(Pick(Column("a", "x"), "a", ["x"]), TopContext(Holding(v2), calls))
  {
    AliasListValue(v1, calls);
    AliasListValue(v2, calls);
    assert [[v1]][0][0] != [[v2]][0][0];
  }

  lemma {:induction false} AliasListValue(v: Value, calls: Calls)
    ensures EvalQuery(Pick(Column("a", "x"), "a", ["x"]), TopContext(Holding(v), calls)).rows == [[v]]
  {
    var c := TopContext(Holding(v), calls);
    ItemOfOne(Column("a", "x"), "a", ["x"], ["x"], [v], c);
    QualifiedHere("a", "x", ["x"], [v], c);
    assert IndexOf(["x"], "x") == 0;
  }

  lemma {:induction false} LowerO()
    ensures Lower("O") == "o"
  {
    assert Lower("O")[0] == LowerChar('O');
  }

  lemma {:induction false} SingleAllows(name: string, b: Books, cols: set<string>)
    requires Lower(name) !in b.byName && b.single == Some(cols) && b.union == cols && Lower(name) in cols
    ensures !ColumnForbidden(Column("", name), b)
  {
  }

  /** An unqualified name passes when in lower case it is an allowed column and not a name of the source. */
  lemma {:induction false} RowNamePasses(name: string, alias: string, policy: GuardPolicy, cols: set<string>)
    requires alias != "" && policy.allowedTables == Some(map["t" := Some(cols)])
    requires Lower(name) != alias && Lower(name) != "t" && Lower(name) in cols
    ensures CheckTables([SourceAt(Column("", name), alias, [])], policy) == []
    ensures CheckColumns(Pick(Column("", name), alias, []), [SourceAt(Column("", name), alias, [])], policy) == []
  {
    var item := Column("", name);
    var b := BooksOf(Pick(item, alias, []), [SourceAt(item, alias, [])], map["t" := Some(cols)]);
    PickBooks(item, alias, [], map["t" := Some(cols)], cols);
    SingleAllows(name, b, cols);
    PickPasses(item, alias, [], policy, cols);
  }

  lemma {:induction false} UpperCasePasses(policy: GuardPolicy)
    requires policy.allowedTables == Some(map["t" := Some({"o"})])
    ensures CheckTables([SourceAt(Column("", "O"), "O", [])], policy) == []
    ensures CheckColumns(Pick(Column("", "O"), "O", []), [SourceAt(Column("", "O"), "O", [])], policy) == []
  {
    LowerO();
    RowNamePasses("O", "O", policy, {"o"});
  }

  /**
   * A source name that is not lower case hides a whole-row reference: `SELECT "O" FROM t AS "O"`
   * passes when a column `o` is allowed, and returns the whole row.
   */
  lemma {:induction false} UpperCaseRowEscapes(policy: GuardPolicy, v1: Value, v2: Value, calls: Calls)
    requires policy.allowedTables == Some(map["t" := Some({"o"})]) && v1 != v2
    ensures var stmt, tables := Pick(Column("", "O"), "O", []), [SourceAt(Column("", "O"), "O", [])];
      && CheckTables(tables, policy) == [] && CheckColumns(stmt, tables, policy) == []
      && SameDatabase(Holding(v1), Holding(v2), ColumnMeaning.ColumnAccess(policy))
      && EvalQuery(stmt, TopContext(Holding(v1), calls)) != EvalQuery(stmt, TopContext(Holding(v2), calls))
  {
    UpperCasePasses(policy);
    HiddenDiffers(policy, {"o"}, v1, v2);
    WholeRowDiffers(v1, v2, calls);
  }

  lemma {:induction false} WholeRowDiffers(v1: Value, v2: Value, calls: Calls)
    requires v1 != v2
    ensures EvalQuery(Pick(Column("", "O"), "O", []), TopContext(Holding(v1), calls))
      != EvalQuery(Pick(Column("", "O"), "O", []), TopContext(Holding(v2), calls))
  {
    WholeRowValue(v1, calls);
    WholeRowValue(v2, calls);
    assert [[VRow([v1])]][0][0].fields[0] != [[VRow([v2])]][0][0].fields[0];
  }

  lemma {:induction false} WholeRowValue(v: Value, calls: Calls)
    ensures EvalQuery(Pick(Column("", "O"), "O", []), TopContext(Holding(v), calls)).rows == [[VRow([v])]]
  {
    var c := TopContext(Holding(v), calls);
    ItemOfOne(Column("", "O"), "O", [], ["secret"], [v], c);
    UnqualifiedHere("O", "O", ["secret"], [v], c);
  }

  // ---------------------------------------------------------------- PII

  lemma {:induction false} PiiNoReport(selects: seq<Located>, cols: seq<Located>, col: Located, mapped: seq<Pii.Entry>)
    requires forall s :: s in selects && s.node.Select? ==> s.node.joins == []
    requires col.node.Column? && col.node.table != "" && forall l :: l in cols ==> l == col
    requires forall e :: e in mapped ==> Lower(col.node.name) !in e.columns
    ensures Pii.PiiReport(selects, [], cols, mapped).out == []
  {
    NoJoins(selects, mapped);
    ColumnNoFlag(cols, col, mapped);
  }

  lemma {:induction false} PickSelects(item: Node, alias: string, columns: seq<string>)
    requires item.Column?
    ensures forall s :: s in FindAll(Pick(item, alias, columns), IsSelect) ==> s.node.Select? && s.node.joins == []
  {
    PickWalk(item, alias, columns);
    forall s | s in FindAll(Pick(item, alias, columns), IsSelect)
      ensures s.node.Select? && s.node.joins == []
    {
      FoundIffInside(Pick(item, alias, columns), IsSelect, s);
    }
  }

  lemma {:induction false} ClassifiedColumns(tables: seq<Located>, configured: Pii.PiiConfig, classified: set<string>)
    requires configured == map["t" := classified]
    ensures forall e :: e in Pii.Mapped(tables, configured) ==> e.columns == classified
  {
    forall e | e in Pii.Mapped(tables, configured)
      ensures e.columns == classified
    {
      assert Pii.EntryOf(e.table, configured) == Some(e);
      assert e.key in configured;
    }
  }

  lemma {:induction false} OneColumnQuiet(stmt: Node, tables: seq<Located>, policy: GuardPolicy, col: Located)
    requires policy.piiColumns.Some? && FindAll(stmt, IsStar) == []
    requires forall s :: s in FindAll(stmt, IsSelect) ==> s.node.Select? && s.node.joins == []
    requires col.node.Column? && col.node.table != "" && forall l :: l in FindAll(stmt, IsColumn) ==> l == col
    requires forall e :: e in Pii.Mapped(tables, policy.piiColumns.value) ==> Lower(col.node.name) !in e.columns
    ensures Pii.CheckPii(stmt, tables, policy) == []
  {
    PiiNoReport(FindAll(stmt, IsSelect), FindAll(stmt, IsColumn), col, Pii.Mapped(tables, policy.piiColumns.value));
    SilentReport(stmt, tables, policy);
  }

  /** A qualified column that is not classified passes. */
  lemma {:induction false} PiiPasses(alias: string, name: string, columns: seq<string>, policy: GuardPolicy,
        classified: set<string>)
    requires alias != "" && policy.piiColumns == Some(map["t" := classified]) && Lower(name) !in classified
    ensures Pii.CheckPii(Pick(Column(alias, name), alias, columns), [SourceAt(Column(alias, name), alias, columns)],
        policy) == []
  {
    var item := Column(alias, name);
    var tables := [SourceAt(item, alias, columns)];
    PickSearches(item, alias, columns);
    PickSelects(item, alias, columns);
    ClassifiedColumns(tables, policy.piiColumns.value, classified);
    OneColumnQuiet(Pick(item, alias, columns), tables, policy, Below(item, Root(Pick(item, alias, columns))));
  }

  lemma {:induction false} SilentReport(stmt: Node, tables: seq<Located>, policy: GuardPolicy)
    requires policy.piiColumns.Some?
    requires Pii.PiiReport(FindAll(stmt, IsSelect), FindAll(stmt, IsStar), FindAll(stmt, IsColumn),
                           Pii.Mapped(tables, policy.piiColumns.value)).out == []
    ensures Pii.CheckPii(stmt, tables, policy) == []
  {
  }

  lemma {:induction false} NoJoins(selects: seq<Located>, mapped: seq<Pii.Entry>)
    requires forall s :: s in selects && s.node.Select? ==> s.node.joins == []
    ensures Pii.FlagSelects(Pii.Report({}, []), selects, mapped) == Pii.Report({}, [])
    decreases |selects|
  {
    if selects != [] {
      NoJoins(selects[1..], mapped);
    }
  }

  lemma {:induction false} EntriesNoFlag(entries: seq<Pii.Entry>, col: Node)
    requires col.Column? && col.table != "" && forall e :: e in entries ==> Lower(col.name) !in e.columns
    ensures Pii.FlagColumn(Pii.Report({}, []), entries, col) == Pii.Report({}, [])
    decreases |entries|
  {
    if entries != [] {
      EntriesNoFlag(entries[1..], col);
    }
  }

  lemma {:induction false} ColumnNoFlag(cols: seq<Located>, col: Located, mapped: seq<Pii.Entry>)
    requires col.node.Column? && col.node.table != "" && forall l :: l in cols ==> l == col
    requires forall e :: e in mapped ==> Lower(col.node.name) !in e.columns
    ensures Pii.FlagColumns(Pii.Report({}, []), cols, mapped) == Pii.Report({}, [])
    decreases |cols|
  {
    if cols != [] {
      assert cols[0] in cols && forall l :: l in cols[1..] ==> l in cols;
      EntriesNoFlag(Pii.ColumnCandidates(col, mapped), col.node);
      ColumnNoFlag(cols[1..], col, mapped);
    }
  }

  lemma {:induction false} PiiView(policy: GuardPolicy, classified: set<string>)
    requires policy.piiColumns == Some(map["t" := classified]) && classified != {}
    ensures PiiMeaning.PiiAccess(policy.piiColumns.value)(TABLE_T) == Some(AllBut(classified))
  {
    assert Lower("t") == "t" && Lower("") == "";
    assert Pii.ClassifiedKeys(policy.piiColumns.value) == {"t"};
  }

  lemma {:induction false} ClassifiedDiffers(policy: GuardPolicy, v1: Value, v2: Value)
    requires policy.piiColumns == Some(map["t" := {"secret"}])
    ensures SameDatabase(Holding(v1), Holding(v2), PiiMeaning.PiiAccess(policy.piiColumns.value))
  {
    PiiView(policy, {"secret"});
    LowerSecret();
    HoldingSame(v1, v2, AllBut({"secret"}), PiiMeaning.PiiAccess(policy.piiColumns.value));
  }

  /** The same alias list takes a classified column past the PII check. */
  lemma {:induction false} AliasListEscapesPii(policy: GuardPolicy, v1: Value, v2: Value, calls: Calls)
    requires policy.piiColumns == Some(map["t" := {"secret"}]) && v1 != v2
    ensures var stmt, tables := Pick(Column("a", "x"), "a", ["x"]), [SourceAt(Column("a", "x"), "a", ["x"])];
      && Pii.CheckPii(stmt, tables, policy) == []
      && SameDatabase(Holding(v1), Holding(v2), PiiMeaning.PiiAccess(policy.piiColumns.value))
      && EvalQuery(stmt, TopContext(Holding(v1), calls)) != EvalQuery(stmt, TopContext(Holding(v2), calls))
  {
    assert |Lower("x")| == 1 && |"secret"| == 6;
    PiiPasses("a", "x", ["x"], policy, {"secret"});
    ClassifiedDiffers(policy, v1, v2);
    AliasListDiffers(v1, v2, calls);
  }

  // ---------------------------------------------------------------- a star below COUNT

  /** `SELECT * FROM t AS alias(columns)` */
  function Everything(alias: string, columns: seq<string>): Node {
    Select(1, [], [Star], None, Some(From(Source(alias, columns))), [], None, None, [], None)
  }

  function CountedQuery(alias: string, columns: seq<string>): Node {
    Subquery(Everything(alias, columns), "", [], [])
  }

  function Counted(alias: string, columns: seq<string>): Node {
    Aggregate(CountFn, CountedQuery(alias, columns))
  }

  /** `SELECT COUNT((SELECT * FROM t AS alias(columns)))` */
  function CountStar(alias: string, columns: seq<string>): Node {
    Select(0, [], [Counted(alias, columns)], None, None, [], None, None, [], None)
  }

  lemma {:induction false} OuterKids(alias: string, columns: seq<string>)
    ensures Kids(CountStar(alias, columns)) == [Counted(alias, columns)]
    ensures Kids(Counted(alias, columns)) == [CountedQuery(alias, columns)]
  {
  }

  lemma {:induction false} QueryKids(alias: string, columns: seq<string>)
    ensures Kids(CountedQuery(alias, columns)) == [Everything(alias, columns)]
  {
  }

  lemma {:induction false} InnerKids(alias: string, columns: seq<string>)
    ensures Kids(Everything(alias, columns)) == [Star, From(Source(alias, columns))]
  {
  }

  lemma {:induction false} SourceKids(alias: string, columns: seq<string>)
    ensures Kids(Star) == [] && Kids(From(Source(alias, columns))) == [Source(alias, columns)]
    ensures Kids(Source(alias, columns)) == []
  {
  }

  /** Neither a column nor a SELECT with joins; a star is below COUNT. */
  ghost predicate Harmless(l: Located) {
    !IsColumn(l.node) && (l.node.Select? ==> l.node.joins == []) && (l.node.Star? ==> UnderCount(l.up))
  }

  lemma {:induction false} EverythingWalk(alias: string, columns: seq<string>, e: Located)
    requires e.node == Everything(alias, columns) && UnderCount(e.up)
    ensures forall l :: l in Walk(e) ==> Harmless(l)
  {
    var f := Below(From(Source(alias, columns)), e);
    InnerKids(alias, columns);
    SourceKids(alias, columns);
    TwoKidsWalk(e, Star, f.node);
    LeafWalk(Below(Star, e));
    ChainWalk(f, Source(alias, columns));
    assert Below(Star, e).up[1..] == e.up;
  }

  /** The four nodes around the star, outermost first. */
  ghost predicate Around(alias: string, columns: seq<string>, r: Located, a: Located, q: Located, e: Located) {
    && r == Root(CountStar(alias, columns)) && a == Below(Counted(alias, columns), r)
    && q == Below(CountedQuery(alias, columns), a) && e == Below(Everything(alias, columns), q)
  }

  lemma {:induction false} AroundStar(alias: string, columns: seq<string>, r: Located, a: Located, q: Located,
        e: Located)
    requires Around(alias, columns, r, a, q, e)
    ensures Harmless(r) && Harmless(a) && Harmless(q) && UnderCount(e.up)
  {
    assert q.up[0].CountTag? && e.up[1..] == q.up;
  }

  lemma {:induction false} CountStarNodes(alias: string, columns: seq<string>, r: Located, a: Located, q: Located,
        e: Located)
    requires Around(alias, columns, r, a, q, e)
    ensures Walk(r) == [r] + ([a] + ([q] + Walk(e)))
  {
    OuterKids(alias, columns);
    QueryKids(alias, columns);
    OneKidWalk(r, Counted(alias, columns));
    OneKidWalk(a, CountedQuery(alias, columns));
    OneKidWalk(q, Everything(alias, columns));
  }

  lemma {:induction false} InFourParts(x: Located, r: Located, a: Located, q: Located, rest: seq<Located>)
    requires x in [r] + ([a] + ([q] + rest))
    ensures x == r || x == a || x == q || x in rest
  {
  }

  /** Every node below the aggregate lies under COUNT; there is no column and no join. */
  lemma {:induction false} CountStarWalk(alias: string, columns: seq<string>, l: Located)
    requires Inside(l, CountStar(alias, columns))
    ensures Harmless(l)
  {
    var r := Root(CountStar(alias, columns));
    var a := Below(Counted(alias, columns), r);
    var q := Below(CountedQuery(alias, columns), a);
    var e := Below(Everything(alias, columns), q);
    CountStarNodes(alias, columns, r, a, q, e);
    InFourParts(l, r, a, q, Walk(e));
    AroundStar(alias, columns, r, a, q, e);
    EverythingWalk(alias, columns, e);
  }

  lemma {:induction false} HarmlessSearches(root: Node)
    requires forall l :: Inside(l, root) ==> Harmless(l)
    ensures FindAll(root, IsColumn) == []
    ensures forall s :: s in FindAll(root, IsStar) ==> UnderCount(s.up)
    ensures forall s :: s in FindAll(root, IsSelect) && s.node.Select? ==> s.node.joins == []
  {
    NoneFound(root, IsColumn);
    forall s | s in FindAll(root, IsStar)
      ensures UnderCount(s.up)
    {
      FoundIffInside(root, IsStar, s);
    }
    forall s | s in FindAll(root, IsSelect) && s.node.Select?
      ensures s.node.joins == []
    {
      FoundIffInside(root, IsSelect, s);
    }
  }

  lemma {:induction false} CountedStarsQuiet(stars: seq<Located>, mapped: seq<Pii.Entry>)
    requires forall s :: s in stars ==> UnderCount(s.up)
    ensures Pii.FlagStars(Pii.Report({}, []), stars, mapped) == Pii.Report({}, [])
    decreases |stars|
  {
    if stars != [] {
      CountedStarsQuiet(stars[1..], mapped);
    }
  }

  /** A statement of harmless nodes passes the PII check. */
  lemma {:induction false} HarmlessPasses(root: Node, tables: seq<Located>, policy: GuardPolicy)
    requires forall l :: Inside(l, root) ==> Harmless(l)
    ensures Pii.CheckPii(root, tables, policy) == []
  {
    if policy.piiColumns.Some? {
      var mapped := Pii.Mapped(tables, policy.piiColumns.value);
      HarmlessSearches(root);
      NoJoins(FindAll(root, IsSelect), mapped);
      CountedStarsQuiet(FindAll(root, IsStar), mapped);
      SilentReport(root, tables, policy);
    }
  }

  lemma {:induction false} CountStarPasses(alias: string, columns: seq<string>, tables: seq<Located>,
        policy: GuardPolicy)
    ensures Pii.CheckPii(CountStar(alias, columns), tables, policy) == []
  {
    forall l | Inside(l, CountStar(alias, columns))
      ensures Harmless(l)
    {
      CountStarWalk(alias, columns, l);
    }
    HarmlessPasses(CountStar(alias, columns), tables, policy);
  }

  /** The first field of a one-row table `t`; NULL if there is no such field. */
  ghost function OnlyField(d: Database): Value {
    if TABLE_T in d && |d[TABLE_T].rows| == 1 && d[TABLE_T].cols != [] then ValueAt(d[TABLE_T].rows[0], 0) else VNull
  }

  lemma {:induction false} EverythingSource(alias: string, columns: seq<string>, c: Context)
    requires c.ctes == map[]
    ensures var rel := SourceRelation(columns, c.db);
      SourceRows(Everything(alias, columns), c)
        == Product([Header(AliasOrName(Source(alias, columns)), rel.cols, {})], WrapRows(rel.rows))
  {
    var rel := SourceRelation(columns, c.db);
    assert EvalSource(Source(alias, columns), c) == rel;
    AllKept([Header(AliasOrName(Source(alias, columns)), rel.cols, {})], WrapRows(rel.rows), c);
  }

  lemma {:induction false} ProjectedLength(items: seq<Node>, shape: seq<Header>, rows: seq<seq<seq<Value>>>, c: Context)
    ensures |ProjectRows(items, shape, rows, c)| == |rows|
    decreases |rows|
  {
    if rows != [] {
      ProjectedLength(items, shape, rows[1..], c);
    }
  }

  /** One row per row of the table. */
  lemma {:induction false} EverythingRows(alias: string, columns: seq<string>, c: Context)
    requires c.ctes == map[] && c.group == []
    ensures var rel := SourceRelation(columns, c.db);
      var shape := [Header(AliasOrName(Source(alias, columns)), rel.cols, {})];
      EvalQuery(Everything(alias, columns), c).rows == ProjectRows([Star], shape, WrapRows(rel.rows), c)
  {
    var stmt := Everything(alias, columns);
    EverythingSource(alias, columns, c);
    assert c.(ctes := EvalCtes(stmt.ctes, c), group := []) == c;
    assert !Aggregated(stmt);
  }

  lemma {:induction false} StarRow(h: Header, vals: seq<Value>, c: Context)
    requires h.merged == {}
    ensures ProjectRow([Star], Within(c, [h], [vals])) == VisibleVals(h.cols, vals, {})
  {
    assert [h][1..] == [] && [vals][1..] == [] && [Star][1..] == [];
    assert StarVals([h], [vals]) == VisibleVals(h.cols, vals, {}) + StarVals([], []);
  }

  lemma {:induction false} StarOfOne(h: Header, vals: seq<Value>, c: Context)
    requires h.merged == {}
    ensures ProjectRows([Star], [h], WrapRows([vals]), c) == [VisibleVals(h.cols, vals, {})]
  {
    StarRow(h, vals, c);
    assert WrapRows([vals]) == [[vals]] && WrapRows([vals])[1..] == [];
  }

  lemma {:induction false} FirstVisible(cols: seq<string>, vals: seq<Value>)
    ensures ValueAt(VisibleVals(cols, vals, {}), 0) == if cols == [] then VNull else ValueAt(vals, 0)
  {
  }

  /** As a scalar, `SELECT *` is the first field of the only row. */
  lemma {:induction false} EverythingScalar(alias: string, columns: seq<string>, c: Context)
    requires c.ctes == map[] && c.group == []
    ensures ScalarOf(EvalQuery(Everything(alias, columns), c)) == OnlyField(c.db)
  {
    var rel := SourceRelation(columns, c.db);
    var h := Header(AliasOrName(Source(alias, columns)), rel.cols, {});
    EverythingRows(alias, columns, c);
    ProjectedLength([Star], [h], WrapRows(rel.rows), c);
    if |rel.rows| == 1 {
      assert rel.rows == [rel.rows[0]];
      StarOfOne(h, rel.rows[0], c);
      FirstVisible(rel.cols, rel.rows[0]);
      assert rel.cols == [] <==> c.db[TABLE_T].cols == [];
    }
  }

  /** One group of one row: the count is 0 or 1. */
  lemma {:induction false} CountSelect(alias: string, columns: seq<string>, c: Context, g: Context)
    requires c.ctes == map[] && c.group == [] && c.env == [] && g == GroupContext(c, [], [[]])
    ensures EvalQuery(CountStar(alias, columns), c) == Relation([""], [[EvalExpr(Counted(alias, columns), g)]])
  {
    var stmt := CountStar(alias, columns);
    assert SourceRows(stmt, c) == Product([], [[]]);
    assert HasAggregate(stmt.items[0]);
    assert Aggregated(stmt);
    assert stmt.items[1..] == [];
    var shapes: seq<seq<Header>> := [[]];
    assert shapes + Shapes(c.env) == shapes;
    assert ProjectCols(stmt.items, shapes) == [AliasOrName(Counted(alias, columns))] + ProjectCols([], shapes);
    assert ProjectRow(stmt.items, g) == [EvalExpr(Counted(alias, columns), g)];
  }

  /** The count tells whether that field is NULL, and nothing else. */
  lemma {:induction false} CountValue(alias: string, columns: seq<string>, d: Database, calls: Calls)
    ensures EvalQuery(CountStar(alias, columns), TopContext(d, calls))
      == Relation([""], [[VNum(if OnlyField(d).VNull? then 0.0 else 1.0)]])
  {
    var c := TopContext(d, calls);
    var rows: seq<seq<seq<Value>>> := [[]];
    var g := GroupContext(c, [], rows);
    assert g.group == [Frame([], [])] by {
      assert rows[1..] == [];
    }
    CountedValue(alias, columns, g);
    CountSelect(alias, columns, c, g);
  }

  lemma {:induction false} CountedValue(alias: string, columns: seq<string>, g: Context)
    requires g.ctes == map[] && g.env == [Frame([], [])] && g.group == [Frame([], [])]
    ensures EvalExpr(Counted(alias, columns), g) == VNum(if OnlyField(g.db).VNull? then 0.0 else 1.0)
  {
    OverOne(alias, columns, g);
    OneNonNull(OnlyField(g.db));
  }

  lemma {:induction false} OneNonNull(v: Value)
    ensures |NonNull([v])| == if v.VNull? then 0 else 1
  {
    assert [v][1..] == [];
  }

  lemma {:induction false} QueryValue(alias: string, columns: seq<string>, c: Context)
    requires c.ctes == map[] && c.group == []
    ensures EvalExpr(CountedQuery(alias, columns), c) == OnlyField(c.db)
  {
    EverythingScalar(alias, columns, c);
    assert c.(group := []) == c;
  }

  /** The argument of COUNT, evaluated over the one row of the group. */
  lemma {:induction false} OverOne(alias: string, columns: seq<string>, g: Context)
    requires g.ctes == map[] && g.env == [Frame([], [])] && g.group == [Frame([], [])]
    ensures EvalOver(CountedQuery(alias, columns), g.group, g) == [OnlyField(g.db)]
  {
    var q := CountedQuery(alias, columns);
    QueryValue(alias, columns, OverRow(g, g.group[0]));
    OverStep(q, g.group, g);
    assert g.group[1..] == [];
  }

  /**
   * A star anywhere below COUNT is not examined: `SELECT COUNT((SELECT * FROM t AS a))` passes the PII
   * check, and tells whether the classified value is NULL.
   */
  lemma {:induction false} CountedStarEscapesPii(policy: GuardPolicy, tables: seq<Located>, calls: Calls)
    requires policy.piiColumns == Some(map["t" := {"secret"}])
    ensures Pii.CheckPii(CountStar("a", []), tables, policy) == []
    ensures SameDatabase(Holding(VNull), Holding(VNum(1.0)), PiiMeaning.PiiAccess(policy.piiColumns.value))
    ensures EvalQuery(CountStar("a", []), TopContext(Holding(VNull), calls))
        != EvalQuery(CountStar("a", []), TopContext(Holding(VNum(1.0)), calls))
  {
    CountStarPasses("a", [], tables, policy);
    ClassifiedDiffers(policy, VNull, VNum(1.0));
    CountValue("a", [], Holding(VNull), calls);
    CountValue("a", [], Holding(VNum(1.0)), calls);
    assert [[VNum(0.0)]][0][0] != [[VNum(1.0)]][0][0];
  }
}
