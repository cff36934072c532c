/** What a flagged probe means: its truth value is the same for every outer row. */
module InferenceMeaning {
  import opened Syntax
  import opened Text
  import opened SqlValues
  import opened Traversal
  import opened Semantics
  import opened Scoping
  import opened Origins
  import opened Noninterference
  import opened Inference
  import Tautology

  /** Two positions of the same query: the same database, WITH queries and number of enclosing rows. */
  ghost predicate SamePlace(c1: Context, c2: Context) {
    c1.db == c2.db && c1.ctes == c2.ctes && c1.calls == c2.calls && |c1.env| == |c2.env|
  }

  /** No enclosing source is called like a source inside the subquery. */
  ghost predicate NamesApart(c: Context, sel: Node) {
    forall i :: 0 <= i < |c.env| ==> NotNamed(c.env[i].shape, SubquerySources(sel))
  }

  /** Every column in the subquery is qualified. */
  ghost predicate AllQualified(sel: Node) {
    forall l :: Inside(l, sel) && IsColumn(l.node) ==> l.node.table != ""
  }

  function Outers(names: set<string>, n: nat): (r: seq<Scope>)
    ensures |r| == n && forall i :: 0 <= i < n ==> r[i] == Foreign(names)
  {
    if n == 0 then [] else [Foreign(names)] + Outers(names, n - 1)
  }

  function Everything(): Access {
    (t: TableName) => Some(All)
  }

  /** With everything visible, a column is fine when it is qualified by a source inside. */
  lemma {:induction false} ColumnBindsInside(sel: Node, whole: Whole, col: Located, scopes: seq<Scope>,
        names: set<string>)
    requires IsUncorrelated(sel) && AllQualified(sel) && names == SubquerySources(sel)
    requires Inside(col, sel) && IsColumn(col.node) && ScopesRooted(scopes, whole)
    requires forall sc :: sc in whole.outer ==> sc == Foreign(names)
    ensures col.node.Column? ==> Ok(NeedColumn(col, scopes), Everything())
    ensures col.node.StarColumn? ==> Ok(NeedTableStar(col, scopes), Everything())
  {
    UncorrelatedExact(sel);
    assert Lower(col.node.table) in names;
    forall sc | sc in scopes
      ensures col.node.Column? ==> ColumnOk(sc, col.node.table, col.node.name, Everything())
      ensures TableStarOk(sc, col.node.table, Everything())
    {
      assert ScopeRooted(sc, whole);
    }
  }

  lemma {:induction false} InnerReadOk(need: Need, sel: Node, whole: Whole, names: set<string>)
    requires IsUncorrelated(sel) && AllQualified(sel) && names == SubquerySources(sel)
    requires Faithful(whole) && whole.node == sel && Rooted(need, whole)
    requires forall sc :: sc in whole.outer ==> sc == Foreign(names)
    ensures Ok(need, Everything())
  {
    if need.NeedColumn? || need.NeedTableStar? {
      ColumnBindsInside(sel, whole, need.col, need.scopes, names);
    }
  }

  lemma {:induction false} InnerReadsOk(sel: Node, whole: Whole, names: set<string>)
    requires IsUncorrelated(sel) && AllQualified(sel) && names == SubquerySources(sel)
    requires Faithful(whole) && whole.node == sel
    requires forall sc :: sc in whole.outer ==> sc == Foreign(names)
    ensures AllOk(Reads(whole), Everything())
  {
    ReadsAreRooted(whole);
    forall need | need in Reads(whole)
      ensures Ok(need, Everything())
    {
      InnerReadOk(need, sel, whole, names);
    }
  }

  lemma {:induction false} OuterRowsAlike(sel: Node, c1: Context, c2: Context)
    requires SamePlace(c1, c2) && c1.group == c2.group == [] && NamesApart(c1, sel) && NamesApart(c2, sel)
    ensures SameContext(c1, c2, Place(Outers(SubquerySources(sel), |c1.env|), c1.ctes.Keys, []), Everything())
  {
  }

  /**
   * An uncorrelated subquery is the same relation for every outer row, if its columns are qualified
   * and no enclosing source shares a name with one of its own.
   */
  lemma {:induction false} UncorrelatedIsRowInvariant(sel: Node, c1: Context, c2: Context)
    requires IsUncorrelated(sel) && AllQualified(sel)
    requires SamePlace(c1, c2) && c1.group == c2.group == []
    requires NamesApart(c1, sel) && NamesApart(c2, sel)
    ensures EvalQuery(sel, c1) == EvalQuery(sel, c2)
  {
    var names := SubquerySources(sel);
    var outer := Outers(names, |c1.env|);
    var whole := WholeOf(sel, outer, c1.ctes.Keys);
    InnerReadsOk(sel, whole, names);
    OuterRowsAlike(sel, c1, c2);
    QuerySame(sel, c1, c2, Place(outer, c1.ctes.Keys, []), Everything());
  }

  lemma {:induction false} CtesIgnoreGroup(ctes: seq<Node>, c: Context)
    ensures EvalCtes(ctes, c) == EvalCtes(ctes, c.(group := []))
    decreases |ctes|
  {
    if ctes != [] {
      if ctes[0].Cte? {
        var rel := Rename(EvalQuery(ctes[0].arg, c.(group := [])), ctes[0].columns);
        CtesIgnoreGroup(ctes[1..], c.(ctes := c.ctes[ctes[0].alias := rel]));
      } else {
        CtesIgnoreGroup(ctes[1..], c);
      }
    }
  }

  /** A SELECT does not see the group of the query around it. */
  lemma {:induction false} SelectIgnoresGroup(sel: Node, c: Context)
    requires sel.Select?
    ensures EvalQuery(sel, c) == EvalQuery(sel, c.(group := []))
  {
    CtesIgnoreGroup(sel.ctes, c);
  }

  lemma {:induction false} UnwrapSame(n: Node, left: nat, c: Context)
    ensures EvalExpr(UnwrapParen(n, left), c) == EvalExpr(n, c)
    ensures EvalQuery(UnwrapParen(n, left), c) == EvalQuery(n, c)
    decreases n
  {
    if n.Paren? && left > 0 {
      UnwrapSame(n.arg, left - 1, c);
    }
  }

  lemma {:induction false} InnerFromSame(n: Node, left: nat, c: Context)
    requires InnerFrom(n, left).Some?
    ensures n.Subquery? && EvalQuery(n, c) == EvalQuery(InnerFrom(n, left).value, c)
    decreases n
  {
    if !n.arg.Select? {
      UnwrapShrinks(n.arg, MAX_PEEL);
      InnerFromSame(UnwrapParen(n.arg, MAX_PEEL), left - 1, c);
      UnwrapSame(n.arg, MAX_PEEL, c);
    }
  }

  /** Peeling keeps the value: the operand is the scalar value of the SELECT it stands for. */
  lemma {:induction false} InnerSelectSame(n: Node, c: Context)
    requires InnerSelect(n).Some?
    ensures EvalExpr(n, c) == ScalarOf(EvalQuery(InnerSelect(n).value, c.(group := [])))
  {
    var e := UnwrapParen(n, MAX_PEEL);
    UnwrapSame(n, MAX_PEEL, c);
    InnerFromSame(e, MAX_PEEL, c.(group := []));
  }

  /** A constant expression reads no row. */
  lemma {:induction false} ConstantSame(n: Node, depth: nat, c1: Context, c2: Context)
    requires IsConstantExpr(n, depth) && c1.calls == c2.calls
    ensures EvalExpr(n, c1) == EvalExpr(n, c2)
    decreases n
  {
    UnwrapShrinks(n, MAX_PEEL);
    UnwrapSame(n, MAX_PEEL, c1);
    UnwrapSame(n, MAX_PEEL, c2);
    var e := UnwrapParen(n, MAX_PEEL);
    if e.Neg? || e.Cast? {
      ConstantSame(e.arg, depth + 1, c1, c2);
    } else if e.Arith? {
      ConstantSame(e.left, depth + 1, c1, c2);
      ConstantSame(e.right, depth + 1, c1, c2);
    }
  }

  lemma {:induction false} ConstantsSame(ns: seq<Node>, c1: Context, c2: Context)
    requires AllConstant(ns) && c1.calls == c2.calls
    ensures EvalList(ns, c1) == EvalList(ns, c2)
    decreases |ns|
  {
    if ns != [] {
      ConstantSame(ns[0], 0, c1, c2);
      ConstantsSame(ns[1..], c1, c2);
    }
  }

  lemma {:induction false} ScalarSame(n: Node, c1: Context, c2: Context)
    requires ScalarSelect(n).Some? && AllQualified(ScalarSelect(n).value)
    requires SamePlace(c1, c2) && NamesApart(c1, ScalarSelect(n).value) && NamesApart(c2, ScalarSelect(n).value)
    ensures EvalExpr(n, c1) == EvalExpr(n, c2)
  {
    InnerSelectSame(n, c1);
    InnerSelectSame(n, c2);
    UncorrelatedIsRowInvariant(ScalarSelect(n).value, c1.(group := []), c2.(group := []));
  }

  lemma {:induction false} SelectSame(sel: Node, c1: Context, c2: Context)
    requires sel.Select? && IsUncorrelated(sel) && AllQualified(sel)
    requires SamePlace(c1, c2) && NamesApart(c1, sel) && NamesApart(c2, sel)
    ensures EvalQuery(sel, c1) == EvalQuery(sel, c2)
  {
    SelectIgnoresGroup(sel, c1);
    SelectIgnoresGroup(sel, c2);
    UncorrelatedIsRowInvariant(sel, c1.(group := []), c2.(group := []));
  }

  lemma {:induction false} ExistsShape(n: Node)
    requires ExistsSelect(n).Some?
    ensures ExistsSelect(n).value == if n.Subquery? then n.arg else n
  {
  }

  lemma {:induction false} WrapperReads(n: Node, c: Context)
    requires n.Subquery?
    ensures EvalQuery(n, c) == EvalQuery(n.arg, c)
  {
  }

  lemma {:induction false} ExistsReads(n: Node, sel: Node, c: Context)
    requires sel == if n.Subquery? then n.arg else n
    ensures EvalQuery(n, c) == EvalQuery(sel, c)
  {
    if n.Subquery? {
      WrapperReads(n, c);
    }
  }

  lemma {:induction false} ExistsSame(n: Node, sel: Node, c1: Context, c2: Context)
    requires ExistsSelect(n) == Some(sel) && AllQualified(sel)
    requires SamePlace(c1, c2) && NamesApart(c1, sel) && NamesApart(c2, sel)
    ensures EvalQuery(n, c1) == EvalQuery(n, c2)
  {
    ExistsShape(n);
    ExistsReads(n, sel, c1);
    ExistsReads(n, sel, c2);
    SelectSame(sel, c1, c2);
  }

  /** What the probe lemmas have in common: `n` probes `sel`, at two positions of the same query. */
  ghost predicate Probing(n: Node, sel: Node, c1: Context, c2: Context) {
    && ProbedSelect(n) == Some(sel)
    && AllQualified(sel)
    && SamePlace(c1, c2)
    && NamesApart(c1, sel)
    && NamesApart(c2, sel)
  }

  lemma {:induction false} ProbeSame(n: Node, sel: Node, c1: Context, c2: Context)
    requires ScalarSelect(n) == Some(sel) && AllQualified(sel)
    requires SamePlace(c1, c2) && NamesApart(c1, sel) && NamesApart(c2, sel)
    ensures EvalExpr(n, c1) == EvalExpr(n, c2)
  {
    ScalarSame(n, c1, c2);
  }

  lemma {:induction false} CmpFrom(n: Node, c1: Context, c2: Context)
    requires n.Cmp? && EvalExpr(n.left, c1) == EvalExpr(n.left, c2) && EvalExpr(n.right, c1) == EvalExpr(n.right, c2)
    ensures EvalExpr(n, c1) == EvalExpr(n, c2)
  {
  }

  lemma {:induction false} CmpSame(n: Node, sel: Node, c1: Context, c2: Context)
    requires n.Cmp? && Probing(n, sel, c1, c2)
    ensures EvalExpr(n, c1) == EvalExpr(n, c2)
  {
    if ScalarSelect(n.left) == Some(sel) && IsConstant(n.right) {
      ProbeSame(n.left, sel, c1, c2);
      ConstantSame(n.right, 0, c1, c2);
    } else {
      ProbeSame(n.right, sel, c1, c2);
      ConstantSame(n.left, 0, c1, c2);
    }
    CmpFrom(n, c1, c2);
  }

  lemma {:induction false} BetweenFrom(n: Node, c1: Context, c2: Context)
    requires n.Between? && EvalExpr(n.arg, c1) == EvalExpr(n.arg, c2)
    requires EvalExpr(n.low, c1) == EvalExpr(n.low, c2) && EvalExpr(n.high, c1) == EvalExpr(n.high, c2)
    ensures EvalExpr(n, c1) == EvalExpr(n, c2)
  {
  }

  lemma {:induction false} BetweenSame(n: Node, sel: Node, c1: Context, c2: Context)
    requires n.Between? && Probing(n, sel, c1, c2)
    ensures EvalExpr(n, c1) == EvalExpr(n, c2)
  {
    ProbeSame(n.arg, sel, c1, c2);
    ConstantSame(n.low, 0, c1, c2);
    ConstantSame(n.high, 0, c1, c2);
    BetweenFrom(n, c1, c2);
  }

  lemma {:induction false} InFrom(n: Node, c1: Context, c2: Context)
    requires n.In? && n.query.None? && EvalExpr(n.arg, c1) == EvalExpr(n.arg, c2)
    requires EvalList(n.items, c1) == EvalList(n.items, c2)
    ensures EvalExpr(n, c1) == EvalExpr(n, c2)
  {
  }

  lemma {:induction false} InSame(n: Node, sel: Node, c1: Context, c2: Context)
    requires n.In? && Probing(n, sel, c1, c2)
    ensures EvalExpr(n, c1) == EvalExpr(n, c2)
  {
    ProbeSame(n.arg, sel, c1, c2);
    ConstantsSame(n.items, c1, c2);
    InFrom(n, c1, c2);
  }

  lemma {:induction false} IsTestFrom(n: Node, c1: Context, c2: Context)
    requires n.Is? && EvalExpr(n.arg, c1) == EvalExpr(n.arg, c2)
    ensures EvalExpr(n, c1) == EvalExpr(n, c2)
  {
  }

  lemma {:induction false} IsSame(n: Node, sel: Node, c1: Context, c2: Context)
    requires n.Is? && Probing(n, sel, c1, c2)
    ensures EvalExpr(n, c1) == EvalExpr(n, c2)
  {
    ProbeSame(n.arg, sel, c1, c2);
    IsTestFrom(n, c1, c2);
  }

  lemma {:induction false} ExistsValue(n: Node, c: Context)
    requires n.Exists?
    ensures EvalExpr(n, c) == VBool(EvalQuery(n.arg, c).rows != [])
  {
  }

  lemma {:induction false} ExistsProbe(n: Node, sel: Node)
    requires n.Exists? && ProbedSelect(n) == Some(sel)
    ensures ExistsSelect(n.arg) == Some(sel)
  {
  }

  lemma {:induction false} ExistsProbeSame(n: Node, sel: Node, c1: Context, c2: Context)
    requires n.Exists? && Probing(n, sel, c1, c2)
    ensures EvalExpr(n, c1) == EvalExpr(n, c2)
  {
    ExistsProbe(n, sel);
    ExistsSame(n.arg, sel, c1, c2);
    ExistsValue(n, c1);
    ExistsValue(n, c2);
  }

  /**
   * A flagged probe cannot filter rows: its comparison, BETWEEN, IN list, IS NULL or EXISTS has one
   * truth value whatever the outer row.
   */
  lemma {:induction false} ProbeIsRowInvariant(n: Node, sel: Node, c1: Context, c2: Context)
    requires Probing(n, sel, c1, c2)
    ensures EvalTruth(n, c1) == EvalTruth(n, c2)
  {
    if n.Cmp? {
      CmpSame(n, sel, c1, c2);
    } else if n.Between? {
      BetweenSame(n, sel, c1, c2);
    } else if n.In? {
      InSame(n, sel, c1, c2);
    } else if n.Is? {
      IsSame(n, sel, c1, c2);
    } else {
      ExistsProbeSame(n, sel, c1, c2);
    }
  }

  /** A comparison of two constants has one truth value whatever the row, without any proviso. */
  lemma {:induction false} LiteralComparisonIsRowInvariant(n: Node, c1: Context, c2: Context)
    requires LiteralComparison(n) && c1.calls == c2.calls
    ensures EvalTruth(n, c1) == EvalTruth(n, c2)
  {
    ConstantSame(n.left, 0, c1, c2);
    ConstantSame(n.right, 0, c1, c2);
  }

  /** The probe has the truth value it would have on a row of NULLs. */
  lemma {:induction false} RowPlaces(sel: Node, shape: seq<Header>, row: seq<seq<Value>>, c: Context)
    requires NamesApart(Within(c, shape, NullRow(shape)), sel)
    ensures NamesApart(Within(c, shape, row), sel)
    ensures SamePlace(Within(c, shape, NullRow(shape)), Within(c, shape, row))
  {
    var some, other := Within(c, shape, NullRow(shape)), Within(c, shape, row);
    forall i | 0 <= i < |other.env|
      ensures NotNamed(other.env[i].shape, SubquerySources(sel))
    {
      assert other.env[i].shape == some.env[i].shape;
    }
  }

  lemma {:induction false} ProbeOnRow(n: Node, sel: Node, shape: seq<Header>, row: seq<seq<Value>>, c: Context)
    requires ProbedSelect(n) == Some(sel) && AllQualified(sel) && NamesApart(Within(c, shape, NullRow(shape)), sel)
    ensures EvalTruth(n, Within(c, shape, row)) == EvalTruth(n, Within(c, shape, NullRow(shape)))
  {
    RowPlaces(sel, shape, row, c);
    ProbeIsRowInvariant(n, sel, Within(c, shape, NullRow(shape)), Within(c, shape, row));
  }

  lemma {:induction false} AllOrNone(n: Node, shape: seq<Header>, rows: seq<seq<seq<Value>>>, c: Context, t: Truth)
    requires forall r :: r in rows ==> EvalTruth(n, Within(c, shape, r)) == t
    ensures Kept(Some(Where(n)), shape, rows, c) == if t == True then rows else []
    decreases |rows|
  {
    if rows != [] {
      AllOrNone(n, shape, rows[1..], c, t);
      Tautology.KeptFirst(n, shape, rows, c);
      assert rows == [rows[0]] + rows[1..];
    }
  }

  /** As a WHERE clause of its own, a flagged probe keeps every row or none. */
  lemma {:induction false} ProbeKeepsAllOrNone(n: Node, sel: Node, shape: seq<Header>, rows: seq<seq<seq<Value>>>,
        c: Context)
    requires ProbedSelect(n) == Some(sel) && AllQualified(sel) && NamesApart(Within(c, shape, NullRow(shape)), sel)
    ensures Kept(Some(Where(n)), shape, rows, c) == if EvalTruth(n, Within(c, shape, NullRow(shape))) == True then
        rows else []
  {
    var t := EvalTruth(n, Within(c, shape, NullRow(shape)));
    forall r | r in rows
      ensures EvalTruth(n, Within(c, shape, r)) == t
    {
      ProbeOnRow(n, sel, shape, r, c);
    }
    AllOrNone(n, shape, rows, c, t);
  }

  /** `(SELECT a)`: a subquery without FROM over an unqualified column. */
  function BareSelect(a: string): Node {
    Select(0, [], [Column("", a)], None, None, [], None, None, [], None)
  }

  lemma {:induction false} BareSelectKids(a: string)
    ensures Kids(BareSelect(a)) == [Column("", a)] && Kids(Column("", a)) == []
  {
  }

  lemma {:induction false} BareSelectWalk(a: string)
    ensures forall l :: Inside(l, BareSelect(a)) ==> l.node == BareSelect(a) || l.node == Column("", a)
  {
    BareSelectKids(a);
    ChainWalk(Root(BareSelect(a)), Column("", a));
  }

  lemma {:induction false} BareSelectRows(a: string, c: Context)
    requires c.group == []
    ensures EvalQuery(BareSelect(a), c).rows == [[Lookup(c.env, "", a)]]
  {
    var sel := BareSelect(a);
    var row := Within(c, [], []);
    assert row.env[1..] == c.env;
    assert EvalExpr(Column("", a), row) == Lookup(c.env, "", a);
    assert SourceRows(sel, c) == Product([], [[]]);
    assert sel.items[1..] == [];
    assert ProjectRow(sel.items, row) == [EvalExpr(Column("", a), row)];
    assert ProjectRows(sel.items, [], [[]], c) == [ProjectRow(sel.items, row)];
  }

  lemma {:induction false} NoQualifierNoCorrelation(sel: Node)
    requires forall l :: Inside(l, sel) && IsColumn(l.node) ==> l.node.table == ""
    ensures IsUncorrelated(sel)
  {
    UncorrelatedExact(sel);
  }

  /** A scalar subquery over a query with one row of one value is that value. */
  lemma {:induction false} OneValue(sel: Node, c: Context, v: Value)
    requires EvalQuery(sel, c.(group := [])).rows == [[v]]
    ensures EvalExpr(Subquery(sel, "", [], []), c) == v
  {
  }

  /** Qualified columns are needed: `(SELECT a)` counts as uncorrelated, yet it is the outer row's `a`. */
  lemma {:induction false} UnqualifiedFollowsTheRow(a: string, c: Context)
    ensures IsUncorrelated(BareSelect(a))
    ensures EvalExpr(Subquery(BareSelect(a), "", [], []), c) == Lookup(c.env, "", a)
  {
    assert IsUncorrelated(BareSelect(a)) by {
      BareSelectWalk(a);
      NoQualifierNoCorrelation(BareSelect(a));
    }
    var v := Lookup(c.env, "", a);
    assert EvalQuery(BareSelect(a), c.(group := [])).rows == [[v]] by {
      BareSelectRows(a, c.(group := []));
    }
    OneValue(BareSelect(a), c, v);
  }
}
