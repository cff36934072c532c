/**
 * Noninterference. If everything a query reads is visible under `acc`, the query returns the same
 * relation on any two databases that agree on what `acc` shows. Every allowlist, PII and
 * correlation theorem is an instance of `QuerySame`.
 */
module Noninterference {
  import opened Syntax
  import opened Text
  import opened SqlValues
  import opened Traversal
  import opened Semantics
  import opened Scoping

  /** Which columns of a table may be observed; column names are compared in lower case. */
  datatype Vis = All | Only(names: set<string>) | AllBut(names: set<string>)

  /** What a policy shows of each table; `None`: nothing at all. */
  type Access = TableName -> Option<Vis>

  predicate Sees(v: Vis, c: string) {
    match v
    case All => true
    case Only(names) => Lower(c) in names
    case AllBut(names) => Lower(c) !in names
  }

  function RefOf(t: Node): TableName
    requires t.Table?
  {
    TableName(t.db, t.name)
  }

  function VisOf(b: Bind, acc: Access): Vis {
    if b.table.None? || !b.table.value.node.Table? then All
    else
      match acc(RefOf(b.table.value.node))
      case None => Only({})
      case Some(v) => v
  }

  // ---------------------------------------------------------------- what may be read

  /** A reference `q.c` (or `c`) can only reach visible data of this scope. */
  ghost predicate ColumnOk(sc: Scope, q: string, c: string, acc: Access) {
    match sc
    case Local(_, binds) =>
      if q != "" then forall b :: b in binds && b.alias == q ==> Sees(VisOf(b, acc), c)
      else forall b :: b in binds ==> Sees(VisOf(b, acc), c) && (b.alias == c ==> VisOf(b, acc).All?)
    case Foreign(names) => q != "" && Lower(q) in names
  }

  ghost predicate TableStarOk(sc: Scope, q: string, acc: Access) {
    match sc
    case Local(_, binds) => forall b :: b in binds && b.alias == q ==> VisOf(b, acc).All?
    case Foreign(names) => Lower(q) in names
  }

  ghost predicate AllVisible(binds: seq<Bind>, acc: Access) {
    forall b :: b in binds ==> VisOf(b, acc).All?
  }

  ghost predicate Ok(need: Need, acc: Access) {
    match need
    case NeedTable(t) =>
      t.node.Table? && acc(RefOf(t.node)).Some? && (t.node.columns == [] || acc(RefOf(t.node)).value.All?)
    case NeedColumn(col, scopes) =>
      col.node.Column? && forall sc :: sc in scopes ==> ColumnOk(sc, col.node.table, col.node.name, acc)
    case NeedStar(_, scope) => scope.Local? && AllVisible(scope.binds, acc)
    case NeedTableStar(col, scopes) =>
      col.node.StarColumn? && forall sc :: sc in scopes ==> TableStarOk(sc, col.node.table, acc)
    case NeedUsing(_, c, binds) => forall b :: b in binds ==> Sees(VisOf(b, acc), c)
    case NeedNatural(_, binds) => AllVisible(binds, acc)
  }

  ghost predicate AllOk(needs: set<Need>, acc: Access) {
    forall need :: need in needs ==> Ok(need, acc)
  }

  // ---------------------------------------------------------------- agreement

  ghost predicate SameVals(cols: seq<string>, a: seq<Value>, b: seq<Value>, v: Vis) {
    && |a| == |b|
    && (if v.All? then a == b else forall i :: 0 <= i < |cols| && i < |a| && Sees(v, cols[i]) ==> a[i] == b[i])
  }

  ghost predicate SameRelation(a: Relation, b: Relation, v: Vis) {
    && a.cols == b.cols
    && |a.rows| == |b.rows|
    && forall i :: 0 <= i < |a.rows| ==> SameVals(a.cols, a.rows[i], b.rows[i], v)
  }

  /** Two databases agree on everything `acc` shows. */
  ghost predicate SameDatabase(d1: Database, d2: Database, acc: Access) {
    forall t :: acc(t).Some? ==> (t in d1 <==> t in d2) && (t in d1 ==> SameRelation(d1[t], d2[t], acc(t).value))
  }

  ghost predicate SameRow(shape: seq<Header>, a: seq<seq<Value>>, b: seq<seq<Value>>, binds: seq<Bind>, acc: Access) {
    && |shape| == |binds| == |a| == |b|
    && forall i :: 0 <= i < |shape| ==> SameVals(shape[i].cols, a[i], b[i], VisOf(binds[i], acc))
  }

  ghost predicate Labelled(shape: seq<Header>, binds: seq<Bind>) {
    |shape| == |binds| && forall i :: 0 <= i < |shape| ==> shape[i].alias == binds[i].alias
  }

  ghost predicate NotNamed(shape: seq<Header>, names: set<string>) {
    forall i :: 0 <= i < |shape| ==> Lower(shape[i].alias) !in names
  }

  ghost predicate SameFrame(f: Frame, g: Frame, sc: Scope, acc: Access) {
    match sc
    case Local(_, binds) => f.shape == g.shape && Labelled(f.shape, binds)
        && SameRow(f.shape, f.vals, g.vals, binds, acc)
    case Foreign(names) => NotNamed(f.shape, names) && NotNamed(g.shape, names)
  }

  ghost predicate SameEnv(e: seq<Frame>, f: seq<Frame>, scopes: seq<Scope>, acc: Access) {
    |e| == |f| == |scopes| && forall i :: 0 <= i < |e| ==> SameFrame(e[i], f[i], scopes[i], acc)
  }

  ghost predicate SameGroup(e: seq<Frame>, f: seq<Frame>, scopes: seq<Scope>, acc: Access) {
    && |e| == |f|
    && (e != [] ==> scopes != [] && forall i :: 0 <= i < |e| ==> SameFrame(e[i], f[i], scopes[0], acc))
  }

  ghost predicate SameContext(c1: Context, c2: Context, p: Place, acc: Access) {
    && c1.ctes == c2.ctes
    && c1.ctes.Keys == p.ctes
    && c1.calls == c2.calls
    && SameDatabase(c1.db, c2.db, acc)
    && SameEnv(c1.env, c2.env, p.scopes, acc)
    && SameGroup(c1.group, c2.group, p.scopes, acc)
  }

  ghost predicate SameRows(shape: seq<Header>, rows1: seq<seq<seq<Value>>>, rows2: seq<seq<seq<Value>>>,
        binds: seq<Bind>, acc: Access)
  {
    && |rows1| == |rows2|
    && forall i :: 0 <= i < |rows1| ==> SameRow(shape, rows1[i], rows2[i], binds, acc)
  }

  ghost predicate SameProduct(p1: Product, p2: Product, binds: seq<Bind>, acc: Access) {
    && p1.shape == p2.shape
    && Labelled(p1.shape, binds)
    && SameRows(p1.shape, p1.rows, p2.rows, binds, acc)
  }

  // ---------------------------------------------------------------- lookups

  lemma {:induction false} FieldSame(cols: seq<string>, a: seq<Value>, b: seq<Value>, v: Vis, c: string)
    requires SameVals(cols, a, b, v) && Sees(v, c)
    ensures Field(cols, a, c) == Field(cols, b, c)
  {
  }

  lemma {:induction false} QualifiedSame(e: seq<Frame>, f: seq<Frame>, scopes: seq<Scope>, q: string, c: string,
        acc: Access)
    requires q != "" && SameEnv(e, f, scopes, acc)
    requires forall sc :: sc in scopes ==> ColumnOk(sc, q, c, acc)
    ensures LookupQualified(e, q, c) == LookupQualified(f, q, c)
  {
    if e != [] {
      assert SameFrame(e[0], f[0], scopes[0], acc);
      assert ColumnOk(scopes[0], q, c, acc);
      match scopes[0]
      case Local(_, binds) =>
        var i := FindLabel(e[0].shape, q);
        if i < |e[0].shape| {
          assert binds[i] in binds;
          FieldSame(e[0].shape[i].cols, e[0].vals[i], f[0].vals[i], VisOf(binds[i], acc), c);
        } else {
          QualifiedSame(e[1..], f[1..], scopes[1..], q, c, acc);
        }
      case Foreign(names) =>
        assert FindLabel(e[0].shape, q) == |e[0].shape|;
        assert FindLabel(f[0].shape, q) == |f[0].shape|;
        QualifiedSame(e[1..], f[1..], scopes[1..], q, c, acc);
    }
  }

  lemma {:induction false} UnqualifiedSame(e: seq<Frame>, f: seq<Frame>, scopes: seq<Scope>, c: string, acc: Access)
    requires SameEnv(e, f, scopes, acc)
    requires forall sc :: sc in scopes ==> ColumnOk(sc, "", c, acc)
    ensures LookupColumn(e, c) == LookupColumn(f, c)
    ensures LookupRow(e, c) == LookupRow(f, c)
  {
    if e != [] {
      assert SameFrame(e[0], f[0], scopes[0], acc);
      assert ColumnOk(scopes[0], "", c, acc);
      var binds := scopes[0].binds;
      var i := FindColumn(e[0].shape, c);
      if i < |e[0].shape| {
        assert binds[i] in binds;
        FieldSame(e[0].shape[i].cols, e[0].vals[i], f[0].vals[i], VisOf(binds[i], acc), c);
      }
      var k := FindLabel(e[0].shape, c);
      if k < |e[0].shape| {
        assert binds[k] in binds;
      }
      UnqualifiedSame(e[1..], f[1..], scopes[1..], c, acc);
    }
  }

  lemma {:induction false} TableStarSame(e: seq<Frame>, f: seq<Frame>, scopes: seq<Scope>, q: string, acc: Access)
    requires SameEnv(e, f, scopes, acc)
    requires forall sc :: sc in scopes ==> TableStarOk(sc, q, acc)
    ensures TableStarVals(e, q) == TableStarVals(f, q)
    ensures TableStarCols(Shapes(e), q) == TableStarCols(Shapes(f), q)
  {
    if e != [] {
      assert SameFrame(e[0], f[0], scopes[0], acc);
      assert TableStarOk(scopes[0], q, acc);
      TableStarSame(e[1..], f[1..], scopes[1..], q, acc);
      match scopes[0]
      case Local(_, binds) =>
        var i := FindLabel(e[0].shape, q);
        if i < |e[0].shape| {
          assert binds[i] in binds;
        }
      case Foreign(names) =>
        assert FindLabel(e[0].shape, q) == |e[0].shape|;
        assert FindLabel(f[0].shape, q) == |f[0].shape|;
    }
  }

  lemma {:induction false} StarSame(shape: seq<Header>, a: seq<seq<Value>>, b: seq<seq<Value>>, binds: seq<Bind>,
        acc: Access)
    requires SameRow(shape, a, b, binds, acc) && AllVisible(binds, acc)
    ensures StarVals(shape, a) == StarVals(shape, b)
  {
    forall i | 0 <= i < |shape|
      ensures a[i] == b[i]
    {
      assert binds[i] in binds;
    }
    assert a == b;
  }

  // ---------------------------------------------------------------- contexts

  lemma {:induction false} WithinSame(c1: Context, c2: Context, p: Place, sel: nat, shape: seq<Header>,
        a: seq<seq<Value>>, b: seq<seq<Value>>, binds: seq<Bind>, acc: Access)
    requires SameContext(c1, c2, p, acc)
    requires Labelled(shape, binds) && SameRow(shape, a, b, binds, acc)
    ensures SameContext(Within(c1, shape, a), Within(c2, shape, b), Inner(Local(sel, binds), p), acc)
  {
  }

  lemma {:induction false} NullRowSame(shape: seq<Header>, binds: seq<Bind>, acc: Access)
    requires |shape| == |binds|
    ensures SameRow(shape, NullRow(shape), NullRow(shape), binds, acc)
  {
  }

  // ---------------------------------------------------------------- expressions

  predicate IsUnary(n: Node) {
    n.Paren? || n.Alias? || n.Not? || n.Is? || n.Neg? || n.Cast?
  }

  predicate IsBinary(n: Node) {
    n.And? || n.Or? || n.Cmp? || n.Like? || n.Arith?
  }

  lemma {:induction false} DownSame(n: Node, c1: Context, c2: Context, p: Place, acc: Access)
    requires SameContext(c1, c2, p, acc)
    ensures SameContext(c1, c2, Down(n, p), acc)
    ensures SameContext(c1.(group := []), c2.(group := []), Down(n, p), acc)
  {
  }

  lemma {:induction false} ColumnSame(n: Node, c1: Context, c2: Context, p: Place, acc: Access)
    requires n.Column? && SameEnv(c1.env, c2.env, p.scopes, acc) && Ok(NeedColumn(Located(n, p.up), p.scopes), acc)
    ensures EvalExpr(n, c1) == EvalExpr(n, c2)
  {
    if n.table != "" {
      QualifiedSame(c1.env, c2.env, p.scopes, n.table, n.name, acc);
    } else {
      UnqualifiedSame(c1.env, c2.env, p.scopes, n.name, acc);
    }
  }

  lemma {:induction false} UnarySame(n: Node, c1: Context, c2: Context, p: Place, acc: Access)
    requires IsUnary(n) && SameContext(c1, c2, p, acc) && AllOk(NeedsExpr(n, p), acc)
    ensures EvalExpr(n, c1) == EvalExpr(n, c2)
    decreases n, 0, 0
  {
    DownSame(n, c1, c2, p, acc);
    ExprSame(n.arg, c1, c2, Down(n, p), acc);
  }

  lemma {:induction false} BinarySame(n: Node, c1: Context, c2: Context, p: Place, acc: Access)
    requires IsBinary(n) && SameContext(c1, c2, p, acc) && AllOk(NeedsExpr(n, p), acc)
    ensures EvalExpr(n, c1) == EvalExpr(n, c2)
    decreases n, 0, 0
  {
    DownSame(n, c1, c2, p, acc);
    assert NeedsExpr(n, p) == NeedsExpr(n.left, Down(n, p)) + NeedsExpr(n.right, Down(n, p));
    ExprSame(n.left, c1, c2, Down(n, p), acc);
    ExprSame(n.right, c1, c2, Down(n, p), acc);
  }

  lemma {:induction false} QueryExprSame(n: Node, c1: Context, c2: Context, p: Place, acc: Access)
    requires (n.Exists? || n.Subquery?) && SameContext(c1, c2, p, acc) && AllOk(NeedsExpr(n, p), acc)
    ensures EvalExpr(n, c1) == EvalExpr(n, c2)
    decreases n, 0, 0
  {
    DownSame(n, c1, c2, p, acc);
    if n.Exists? {
      QuerySame(n.arg, c1, c2, Down(n, p), acc);
    } else {
      QuerySame(n.arg, c1.(group := []), c2.(group := []), Down(n, p), acc);
    }
  }

  lemma {:induction false} InSame(n: Node, c1: Context, c2: Context, p: Place, acc: Access)
    requires n.In? && SameContext(c1, c2, p, acc) && AllOk(NeedsExpr(n, p), acc)
    ensures EvalExpr(n, c1) == EvalExpr(n, c2)
    decreases n, 0, 0
  {
    DownSame(n, c1, c2, p, acc);
    ExprSame(n.arg, c1, c2, Down(n, p), acc);
    if n.query.Some? {
      QuerySame(n.query.value, c1, c2, Down(n, p), acc);
    } else {
      ListSame(n.items, c1, c2, Down(n, p), acc);
    }
  }

  lemma {:induction false} OtherSame(n: Node, c1: Context, c2: Context, p: Place, acc: Access)
    requires (n.Between? || n.Func? || n.Aggregate?) && SameContext(c1, c2, p, acc) && AllOk(NeedsExpr(n, p), acc)
    ensures EvalExpr(n, c1) == EvalExpr(n, c2)
    decreases n, 0, 0
  {
    var d := Down(n, p);
    DownSame(n, c1, c2, p, acc);
    if n.Between? {
      ExprSame(n.arg, c1, c2, d, acc);
      ExprSame(n.low, c1, c2, d, acc);
      ExprSame(n.high, c1, c2, d, acc);
    } else if n.Func? {
      ListSame(n.items, c1, c2, d, acc);
    } else if !n.arg.Star? {
      OverSame(n.arg, c1.group, c2.group, c1, c2, d, acc);
    }
  }

  lemma {:induction false} ExprSame(n: Node, c1: Context, c2: Context, p: Place, acc: Access)
    requires SameContext(c1, c2, p, acc) && AllOk(NeedsExpr(n, p), acc)
    ensures EvalExpr(n, c1) == EvalExpr(n, c2)
    decreases n, 0, 1
  {
    if n.Column? {
      ColumnSame(n, c1, c2, p, acc);
    } else if IsUnary(n) {
      UnarySame(n, c1, c2, p, acc);
    } else if IsBinary(n) {
      BinarySame(n, c1, c2, p, acc);
    } else if n.Exists? || n.Subquery? {
      QueryExprSame(n, c1, c2, p, acc);
    } else if n.In? {
      InSame(n, c1, c2, p, acc);
    } else if n.Between? || n.Func? || n.Aggregate? {
      OtherSame(n, c1, c2, p, acc);
    } else {
      assert EvalExpr(n, c1) == EvalExpr(n, c2);
    }
  }

  lemma {:induction false} ListSame(ns: seq<Node>, c1: Context, c2: Context, p: Place, acc: Access)
    requires SameContext(c1, c2, p, acc) && AllOk(NeedsList(ns, p), acc)
    ensures EvalList(ns, c1) == EvalList(ns, c2)
    decreases ns, 0
  {
    if ns != [] {
      ExprSame(ns[0], c1, c2, p, acc);
      ListSame(ns[1..], c1, c2, p, acc);
    }
  }

  /** The context of one row of the group. */
  ghost function OverRow(c: Context, row: Frame): Context {
    c.(env := [row] + (if c.env == [] then [] else c.env[1..]), group := [])
  }

  lemma {:induction false} OverRowSame(g1: seq<Frame>, g2: seq<Frame>, c1: Context, c2: Context, p: Place, acc: Access)
    requires g1 != [] && SameContext(c1, c2, p, acc) && SameGroup(g1, g2, p.scopes, acc)
    ensures SameContext(OverRow(c1, g1[0]), OverRow(c2, g2[0]), p, acc)
  {
    assert SameEnv(OverRow(c1, g1[0]).env, OverRow(c2, g2[0]).env, p.scopes, acc);
  }

  lemma {:induction false} OverStep(n: Node, g: seq<Frame>, c: Context)
    requires g != []
    ensures EvalOver(n, g, c) == [EvalExpr(n, OverRow(c, g[0]))] + EvalOver(n, g[1..], c)
  {
  }

  lemma {:induction false} OverSame(n: Node, g1: seq<Frame>, g2: seq<Frame>, c1: Context, c2: Context, p: Place,
        acc: Access)
    requires SameContext(c1, c2, p, acc) && SameGroup(g1, g2, p.scopes, acc) && AllOk(NeedsExpr(n, p), acc)
    ensures EvalOver(n, g1, c1) == EvalOver(n, g2, c2)
    decreases n, 1, |g1|
  {
    if g1 != [] {
      OverRowSame(g1, g2, c1, c2, p, acc);
      ExprSame(n, OverRow(c1, g1[0]), OverRow(c2, g2[0]), p, acc);
      OverSame(n, g1[1..], g2[1..], c1, c2, p, acc);
      OverStep(n, g1, c1);
      OverStep(n, g2, c2);
    }
  }

  // ---------------------------------------------------------------- sources and joins

  lemma {:induction false} TableSame(n: Node, c1: Context, c2: Context, p: Place, acc: Access)
    requires n.Table? && SameContext(c1, c2, p, acc) && AllOk(NeedsSource(n, p), acc)
    ensures SameRelation(EvalSource(n, c1), EvalSource(n, c2), VisOf(BindOf(n, p), acc))
  {
    if IsBase(n, p.ctes) {
      assert Ok(NeedTable(Located(n, p.up)), acc);
    }
  }

  lemma {:induction false} SameItself(rel: Relation, v: Vis)
    ensures SameRelation(rel, rel, v)
  {
  }

  lemma {:induction false} DerivedSame(n: Node, c1: Context, c2: Context, p: Place, acc: Access)
    requires (n.Subquery? || n.Lateral?) && SameContext(c1, c2, p, acc) && AllOk(NeedsSource(n, p), acc)
    ensures EvalSource(n, c1) == EvalSource(n, c2)
    decreases n, 21
  {
    DownSame(n, c1, c2, p, acc);
    QuerySame(n.arg, c1, c2, Down(n, p), acc);
  }

  lemma {:induction false} ValuesSame(n: Node, c1: Context, c2: Context, p: Place, acc: Access)
    requires n.Values? && SameContext(c1, c2, p, acc) && AllOk(NeedsSource(n, p), acc)
    ensures EvalSource(n, c1) == EvalSource(n, c2)
    decreases n, 21
  {
    QuerySame(n, c1, c2, p, acc);
  }

  lemma {:induction false} EmptySource(n: Node, c: Context)
    requires !n.Table? && !n.Subquery? && !n.Lateral? && !n.Values?
    ensures EvalSource(n, c) == Relation([], [])
  {
  }

  lemma {:induction false} SourceSame(n: Node, c1: Context, c2: Context, p: Place, acc: Access)
    requires SameContext(c1, c2, p, acc) && AllOk(NeedsSource(n, p), acc)
    ensures SameRelation(EvalSource(n, c1), EvalSource(n, c2), VisOf(BindOf(n, p), acc))
    decreases n, 22
  {
    if n.Table? {
      TableSame(n, c1, c2, p, acc);
    } else {
      if n.Subquery? || n.Lateral? {
        DerivedSame(n, c1, c2, p, acc);
      } else if n.Values? {
        ValuesSame(n, c1, c2, p, acc);
      } else {
        EmptySource(n, c1);
        EmptySource(n, c2);
      }
      SameItself(EvalSource(n, c1), VisOf(BindOf(n, p), acc));
    }
  }

  /** The place from which the right side of a join is read. */
  function RightPlace(j: Node, sel: nat, binds: seq<Bind>, p: Place): Place
    requires j.Join?
  {
    if j.arg.Lateral? then Inner(Local(sel, binds), Down(j, p)) else Down(j, p)
  }

  lemma {:induction false} RightSame(j: Node, sel: nat, shape: seq<Header>, a: seq<seq<Value>>, b: seq<seq<Value>>,
        binds: seq<Bind>, c1: Context, c2: Context, p: Place, acc: Access)
    requires j.Join? && c1.group == c2.group == []
    requires SameContext(c1, c2, p, acc) && Labelled(shape, binds) && SameRow(shape, a, b, binds, acc)
    requires AllOk(NeedsSource(j.arg, RightPlace(j, sel, binds, p)), acc)
    ensures SameRelation(EvalRight(j, shape, a, c1), EvalRight(j, shape, b, c2), VisOf(BindOf(j.arg, Down(j, p)), acc))
    decreases j, 3
  {
    if j.arg.Lateral? {
      WithinSame(c1, c2, Down(j, p), sel, shape, a, b, binds, acc);
    }
    SourceSame(j.arg, if j.arg.Lateral? then Within(c1, shape, a) else c1,
               if j.arg.Lateral? then Within(c2, shape, b) else c2, RightPlace(j, sel, binds, p), acc);
  }

  lemma {:induction false} NamesSame(j: Node, names: seq<string>, shape: seq<Header>, a: seq<seq<Value>>,
        b: seq<seq<Value>>, binds: seq<Bind>, h: Header, r1: seq<Value>, r2: seq<Value>, last: Bind, acc: Access)
    requires SameRow(shape, a, b, binds, acc) && SameVals(h.cols, r1, r2, VisOf(last, acc))
    requires forall c :: c in names ==> forall k :: k in binds + [last] ==> Sees(VisOf(k, acc), c)
    ensures NamesAgree(names, shape, a, h, r1) == NamesAgree(names, shape, b, h, r2)
  {
    forall c | c in names
      ensures LeftValue(shape, a, c) == LeftValue(shape, b, c)
      ensures Field(h.cols, r1, c) == Field(h.cols, r2, c)
    {
      assert last in binds + [last];
      FieldSame(h.cols, r1, r2, VisOf(last, acc), c);
      var i := FindColumn(shape, c);
      if i < |shape| {
        assert binds[i] in binds + [last];
        FieldSame(shape[i].cols, a[i], b[i], VisOf(binds[i], acc), c);
      }
    }
  }

  /** What the lemmas about one join have in common. */
  ghost predicate JoinPremise(j: Node, sel: nat, names: seq<string>, shape: seq<Header>, binds: seq<Bind>, h: Header,
        c1: Context, c2: Context, p: Place, acc: Access)
  {
    && j.Join?
    && c1.group == c2.group == []
    && SameContext(c1, c2, p, acc)
    && Labelled(shape, binds)
    && h.alias == AliasOrName(j.arg)
    && AllOk(NeedsJoin(j, sel, binds, p), acc)
    && (forall c :: c in names ==> forall k :: k in binds + [BindOf(j.arg, Down(j, p))] ==> Sees(VisOf(k, acc), c))
  }

  lemma {:induction false} ExtendRow(shape: seq<Header>, a: seq<seq<Value>>, b: seq<seq<Value>>, binds: seq<Bind>,
        h: Header, r1: seq<Value>, r2: seq<Value>, last: Bind, acc: Access)
    requires Labelled(shape, binds) && SameRow(shape, a, b, binds, acc)
    requires h.alias == last.alias && SameVals(h.cols, r1, r2, VisOf(last, acc))
    ensures Labelled(shape + [h], binds + [last])
    ensures SameRow(shape + [h], a + [r1], b + [r2], binds + [last], acc)
  {
  }

  lemma {:induction false} JoinOnSame(j: Node, sel: nat, names: seq<string>, shape: seq<Header>, a: seq<seq<Value>>,
        b: seq<seq<Value>>, binds: seq<Bind>, h: Header, r1: seq<Value>, r2: seq<Value>, c1: Context, c2: Context,
        p: Place, acc: Access)
    requires JoinPremise(j, sel, names, shape, binds, h, c1, c2, p, acc)
    requires SameRow(shape, a, b, binds, acc) && SameVals(h.cols, r1, r2, VisOf(BindOf(j.arg, Down(j, p)), acc))
    ensures JoinOn(j, names, shape, a, h, r1, c1) == JoinOn(j, names, shape, b, h, r2, c2)
    decreases j, 3
  {
    var last := BindOf(j.arg, Down(j, p));
    NamesSame(j, names, shape, a, b, binds, h, r1, r2, last, acc);
    if j.on.Some? {
      ExtendRow(shape, a, b, binds, h, r1, r2, last, acc);
      WithinSame(c1, c2, Down(j, p), sel, shape + [h], a + [r1], b + [r2], binds + [last], acc);
      ExprSame(j.on.value, Within(c1, shape + [h], a + [r1]), Within(c2, shape + [h], b + [r2]),
               Inner(Local(sel, binds + [last]), Down(j, p)), acc);
    }
  }

  lemma {:induction false} MatchesSame(j: Node, sel: nat, names: seq<string>, shape: seq<Header>, a: seq<seq<Value>>,
        b: seq<seq<Value>>, binds: seq<Bind>, h: Header, rs1: seq<seq<Value>>, rs2: seq<seq<Value>>, c1: Context,
        c2: Context, p: Place, acc: Access)
    requires JoinPremise(j, sel, names, shape, binds, h, c1, c2, p, acc)
    requires SameRow(shape, a, b, binds, acc) && |rs1| == |rs2|
    requires forall i :: 0 <= i < |rs1| ==> SameVals(h.cols, rs1[i], rs2[i], VisOf(BindOf(j.arg, Down(j, p)), acc))
    ensures SameRows(shape + [h], Matches(j, names, shape, a, h, rs1, c1), Matches(j, names, shape, b, h, rs2, c2),
                     binds + [BindOf(j.arg, Down(j, p))], acc)
    decreases j, 4, |rs1|
  {
    if rs1 != [] {
      var last := BindOf(j.arg, Down(j, p));
      JoinOnSame(j, sel, names, shape, a, b, binds, h, rs1[0], rs2[0], c1, c2, p, acc);
      ExtendRow(shape, a, b, binds, h, rs1[0], rs2[0], last, acc);
      MatchesSame(j, sel, names, shape, a, b, binds, h, rs1[1..], rs2[1..], c1, c2, p, acc);
    }
  }

  lemma {:induction false} RowsAppend(shape: seq<Header>, a1: seq<seq<seq<Value>>>, a2: seq<seq<seq<Value>>>,
        b1: seq<seq<seq<Value>>>, b2: seq<seq<seq<Value>>>, binds: seq<Bind>, acc: Access)
    requires SameRows(shape, a1, a2, binds, acc) && SameRows(shape, b1, b2, binds, acc)
    ensures SameRows(shape, a1 + b1, a2 + b2, binds, acc)
  {
  }

  /** The rows that one left row gives. */
  ghost function RowsOf(j: Node, names: seq<string>, shape: seq<Header>, left: seq<seq<Value>>, h: Header,
        c: Context): seq<seq<seq<Value>>>
    requires j.Join?
  {
    var ms := Matches(j, names, shape, left, h, EvalRight(j, shape, left, c).rows, c);
    if ms == [] && KeepsLeft(j) then [left + [Nulls(|h.cols|)]] else ms
  }

  lemma {:induction false} RowsOfSame(j: Node, sel: nat, names: seq<string>, shape: seq<Header>, a: seq<seq<Value>>,
        b: seq<seq<Value>>, binds: seq<Bind>, h: Header, c1: Context, c2: Context, p: Place, acc: Access)
    requires JoinPremise(j, sel, names, shape, binds, h, c1, c2, p, acc) && SameRow(shape, a, b, binds, acc)
    requires h.cols == EvalRight(j, shape, NullRow(shape), c1).cols
    ensures SameRows(shape + [h], RowsOf(j, names, shape, a, h, c1), RowsOf(j, names, shape, b, h, c2),
                     binds + [BindOf(j.arg, Down(j, p))], acc)
    decreases j, 5, 0
  {
    RightSame(j, sel, shape, a, b, binds, c1, c2, p, acc);
    var rs1, rs2 := EvalRight(j, shape, a, c1), EvalRight(j, shape, b, c2);
    assert j.arg.Lateral? || rs1.cols == h.cols;
    MatchesSame(j, sel, names, shape, a, b, binds, h, rs1.rows, rs2.rows, c1, c2, p, acc);
    ExtendRow(shape, a, b, binds, h, Nulls(|h.cols|), Nulls(|h.cols|), BindOf(j.arg, Down(j, p)), acc);
  }

  lemma {:induction false} JoinRowsSame(j: Node, sel: nat, names: seq<string>, shape: seq<Header>,
        ls1: seq<seq<seq<Value>>>, ls2: seq<seq<seq<Value>>>, binds: seq<Bind>, h: Header, c1: Context, c2: Context,
        p: Place, acc: Access)
    requires JoinPremise(j, sel, names, shape, binds, h, c1, c2, p, acc)
    requires SameRows(shape, ls1, ls2, binds, acc)
    requires h.cols == EvalRight(j, shape, NullRow(shape), c1).cols
    ensures SameRows(shape + [h], JoinRows(j, names, shape, ls1, h, c1), JoinRows(j, names, shape, ls2, h, c2),
                     binds + [BindOf(j.arg, Down(j, p))], acc)
    decreases j, 5, 1 + |ls1|
  {
    if ls1 != [] {
      RowsOfSame(j, sel, names, shape, ls1[0], ls2[0], binds, h, c1, c2, p, acc);
      JoinRowsSame(j, sel, names, shape, ls1[1..], ls2[1..], binds, h, c1, c2, p, acc);
      RowsAppend(shape + [h], RowsOf(j, names, shape, ls1[0], h, c1), RowsOf(j, names, shape, ls2[0], h, c2),
                 JoinRows(j, names, shape, ls1[1..], h, c1), JoinRows(j, names, shape, ls2[1..], h, c2),
                 binds + [BindOf(j.arg, Down(j, p))], acc);
    }
  }

  lemma {:induction false} UnmatchedSame(j: Node, sel: nat, names: seq<string>, shape: seq<Header>,
        ls1: seq<seq<seq<Value>>>, ls2: seq<seq<seq<Value>>>, binds: seq<Bind>, h: Header, r1: seq<Value>,
        r2: seq<Value>, c1: Context, c2: Context, p: Place, acc: Access)
    requires JoinPremise(j, sel, names, shape, binds, h, c1, c2, p, acc)
    requires SameRows(shape, ls1, ls2, binds, acc) && SameVals(h.cols, r1, r2, VisOf(BindOf(j.arg, Down(j, p)), acc))
    ensures Unmatched(j, names, shape, ls1, h, r1, c1) == Unmatched(j, names, shape, ls2, h, r2, c2)
    decreases j, 4, |ls1|
  {
    if ls1 != [] {
      JoinOnSame(j, sel, names, shape, ls1[0], ls2[0], binds, h, r1, r2, c1, c2, p, acc);
      UnmatchedSame(j, sel, names, shape, ls1[1..], ls2[1..], binds, h, r1, r2, c1, c2, p, acc);
    }
  }

  lemma {:induction false} LoneRightsSame(j: Node, sel: nat, names: seq<string>, shape: seq<Header>,
        ls1: seq<seq<seq<Value>>>, ls2: seq<seq<seq<Value>>>, binds: seq<Bind>, h: Header, rs1: seq<seq<Value>>,
        rs2: seq<seq<Value>>, c1: Context, c2: Context, p: Place, acc: Access)
    requires JoinPremise(j, sel, names, shape, binds, h, c1, c2, p, acc)
    requires SameRows(shape, ls1, ls2, binds, acc) && |rs1| == |rs2|
    requires forall i :: 0 <= i < |rs1| ==> SameVals(h.cols, rs1[i], rs2[i], VisOf(BindOf(j.arg, Down(j, p)), acc))
    ensures SameRows(shape + [h], LoneRights(j, names, shape, ls1, h, rs1, c1),
        LoneRights(j, names, shape, ls2, h, rs2, c2),
                     binds + [BindOf(j.arg, Down(j, p))], acc)
    decreases j, 5, |rs1|
  {
    if rs1 != [] {
      UnmatchedSame(j, sel, names, shape, ls1, ls2, binds, h, rs1[0], rs2[0], c1, c2, p, acc);
      NullRowSame(shape, binds, acc);
      ExtendRow(shape, NullRow(shape), NullRow(shape), binds, h, rs1[0], rs2[0], BindOf(j.arg, Down(j, p)), acc);
      LoneRightsSame(j, sel, names, shape, ls1, ls2, binds, h, rs1[1..], rs2[1..], c1, c2, p, acc);
    }
  }

  lemma {:induction false} JoinNamesOk(j: Node, sel: nat, binds: seq<Bind>, shape: seq<Header>, cols: seq<string>,
        p: Place, acc: Access)
    requires j.Join? && AllOk(NeedsJoin(j, sel, binds, p), acc)
    ensures forall c :: c in JoinColumns(j, shape, cols) ==> forall k ::
        k in binds + [BindOf(j.arg, Down(j, p))] ==> Sees(VisOf(k, acc), c)
  {
    var all := binds + [BindOf(j.arg, Down(j, p))];
    if IsNatural(j) {
      assert Ok(NeedNatural(Located(j, p.up), all), acc);
    } else {
      forall c | c in j.using
        ensures forall k :: k in all ==> Sees(VisOf(k, acc), c)
      {
        assert Ok(NeedUsing(Located(j, p.up), c, all), acc);
      }
    }
  }

  lemma {:induction false} JoinSame(j: Node, sel: nat, prod1: Product, prod2: Product, binds: seq<Bind>, c1: Context,
        c2: Context, p: Place, acc: Access)
    requires j.Join? && c1.group == c2.group == []
    requires SameContext(c1, c2, p, acc) && SameProduct(prod1, prod2, binds, acc)
    requires AllOk(NeedsJoin(j, sel, binds, p), acc)
    ensures SameProduct(EvalJoin(j, prod1, c1), EvalJoin(j, prod2, c2), binds + [BindOf(j.arg, Down(j, p))], acc)
    decreases j, 6
  {
    var shape := prod1.shape;
    NullRowSame(shape, binds, acc);
    RightSame(j, sel, shape, NullRow(shape), NullRow(shape), binds, c1, c2, p, acc);
    var right1, right2 := EvalRight(j, shape, NullRow(shape), c1), EvalRight(j, shape, NullRow(shape), c2);
    var names := JoinColumns(j, shape, right1.cols);
    var h := Header(AliasOrName(j.arg), right1.cols, NameSet(names));
    JoinNamesOk(j, sel, binds, shape, right1.cols, p, acc);
    JoinRowsSame(j, sel, names, shape, prod1.rows, prod2.rows, binds, h, c1, c2, p, acc);
    if KeepsRight(j) {
      LoneRightsSame(j, sel, names, shape, prod1.rows, prod2.rows, binds, h, right1.rows, right2.rows, c1, c2, p, acc);
    }
  }

  lemma {:induction false} JoinsSame(joins: seq<Node>, sel: nat, prod1: Product, prod2: Product, binds: seq<Bind>,
        c1: Context, c2: Context, p: Place, acc: Access)
    requires c1.group == c2.group == []
    requires SameContext(c1, c2, p, acc) && SameProduct(prod1, prod2, binds, acc)
    requires AllOk(NeedsJoins(joins, sel, binds, p), acc)
    ensures SameProduct(EvalJoins(joins, prod1, c1), EvalJoins(joins, prod2, c2), JoinBinds(joins, binds, p), acc)
    decreases joins, 7
  {
    if joins != [] {
      if joins[0].Join? {
        JoinSame(joins[0], sel, prod1, prod2, binds, c1, c2, p, acc);
        JoinsSame(joins[1..], sel, EvalJoin(joins[0], prod1, c1), EvalJoin(joins[0], prod2, c2),
                  binds + [BindOf(joins[0].arg, Down(joins[0], p))], c1, c2, p, acc);
      } else {
        JoinsSame(joins[1..], sel, prod1, prod2, binds, c1, c2, p, acc);
      }
    }
  }

  lemma {:induction false} FirstSame(from: Option<Node>, c1: Context, c2: Context, p: Place, acc: Access)
    requires SameContext(c1, c2, p, acc) && AllOk(NeedsFirst(from, p), acc)
    ensures SameProduct(EvalFirst(from, c1), EvalFirst(from, c2), FirstBinds(from, p), acc)
    decreases from, 7
  {
    if from.Some? && from.value.From? {
      SourceSame(from.value.arg, c1, c2, Down(from.value, p), acc);
    }
  }

  lemma {:induction false} KeptSame(clause: Option<Node>, sel: nat, shape: seq<Header>, rows1: seq<seq<seq<Value>>>,
        rows2: seq<seq<seq<Value>>>, binds: seq<Bind>, c1: Context, c2: Context, p: Place, acc: Access)
    requires SameContext(c1, c2, p, acc) && Labelled(shape, binds) && SameRows(shape, rows1, rows2, binds, acc)
    requires AllOk(NeedsFilter(clause, Inner(Local(sel, binds), p)), acc)
    ensures SameRows(shape, Kept(clause, shape, rows1, c1), Kept(clause, shape, rows2, c2), binds, acc)
    decreases clause, 7, |rows1|
  {
    if rows1 != [] {
      KeptSame(clause, sel, shape, rows1[1..], rows2[1..], binds, c1, c2, p, acc);
      if clause.Some? && clause.value.Where? {
        WithinSame(c1, c2, p, sel, shape, rows1[0], rows2[0], binds, acc);
        ExprSame(clause.value.arg, Within(c1, shape, rows1[0]), Within(c2, shape, rows2[0]),
                 Down(clause.value, Inner(Local(sel, binds), p)), acc);
      }
    }
  }

  // ---------------------------------------------------------------- projections

  lemma {:induction false} StarItemSame(items: seq<Node>, c1: Context, c2: Context, p: Place, acc: Access)
    requires items != [] && items[0].Star? && p.scopes != [] && SameContext(c1, c2, p, acc)
    requires Ok(NeedStar(Located(items[0], p.up), p.scopes[0]), acc)
    requires ProjectRow(items[1..], c1) == ProjectRow(items[1..], c2)
    requires ProjectCols(items[1..], Shapes(c1.env)) == ProjectCols(items[1..], Shapes(c2.env))
    ensures ProjectRow(items, c1) == ProjectRow(items, c2)
    ensures ProjectCols(items, Shapes(c1.env)) == ProjectCols(items, Shapes(c2.env))
  {
    assert SameFrame(c1.env[0], c2.env[0], p.scopes[0], acc);
    StarSame(c1.env[0].shape, c1.env[0].vals, c2.env[0].vals, p.scopes[0].binds, acc);
  }

  lemma {:induction false} TableStarItemSame(items: seq<Node>, c1: Context, c2: Context, p: Place, acc: Access)
    requires items != [] && items[0].StarColumn? && SameContext(c1, c2, p, acc)
    requires Ok(NeedTableStar(Located(items[0], p.up), p.scopes), acc)
    requires ProjectRow(items[1..], c1) == ProjectRow(items[1..], c2)
    requires ProjectCols(items[1..], Shapes(c1.env)) == ProjectCols(items[1..], Shapes(c2.env))
    ensures ProjectRow(items, c1) == ProjectRow(items, c2)
    ensures ProjectCols(items, Shapes(c1.env)) == ProjectCols(items, Shapes(c2.env))
  {
    TableStarSame(c1.env, c2.env, p.scopes, items[0].table, acc);
  }

  lemma {:induction false} PlainItemSame(items: seq<Node>, c1: Context, c2: Context)
    requires items != [] && !items[0].Star? && !items[0].StarColumn? && EvalExpr(items[0], c1) == EvalExpr(items[0], c2)
    requires ProjectRow(items[1..], c1) == ProjectRow(items[1..], c2)
    requires ProjectCols(items[1..], Shapes(c1.env)) == ProjectCols(items[1..], Shapes(c2.env))
    ensures ProjectRow(items, c1) == ProjectRow(items, c2)
    ensures ProjectCols(items, Shapes(c1.env)) == ProjectCols(items, Shapes(c2.env))
  {
  }

  /** What the first item and the others need. */
  lemma {:induction false} ItemNeeds(items: seq<Node>, p: Place, acc: Access)
    requires items != [] && p.scopes != [] && AllOk(NeedsItems(items, p), acc)
    ensures items[0].Star? ==> Ok(NeedStar(Located(items[0], p.up), p.scopes[0]), acc)
    ensures items[0].StarColumn? ==> Ok(NeedTableStar(Located(items[0], p.up), p.scopes), acc)
    ensures !items[0].Star? && !items[0].StarColumn? ==> AllOk(NeedsExpr(items[0], p), acc)
    ensures AllOk(NeedsItems(items[1..], p), acc)
  {
  }

  lemma {:induction false} ItemsSame(items: seq<Node>, c1: Context, c2: Context, p: Place, acc: Access)
    requires p.scopes != [] && SameContext(c1, c2, p, acc) && AllOk(NeedsItems(items, p), acc)
    ensures ProjectRow(items, c1) == ProjectRow(items, c2)
    ensures ProjectCols(items, Shapes(c1.env)) == ProjectCols(items, Shapes(c2.env))
    decreases items, 7
  {
    if items != [] {
      ItemNeeds(items, p, acc);
      ItemsSame(items[1..], c1, c2, p, acc);
      if items[0].Star? {
        StarItemSame(items, c1, c2, p, acc);
      } else if items[0].StarColumn? {
        TableStarItemSame(items, c1, c2, p, acc);
      } else {
        ExprSame(items[0], c1, c2, p, acc);
        PlainItemSame(items, c1, c2);
      }
    }
  }

  lemma {:induction false} ProjectRowsSame(items: seq<Node>, sel: nat, shape: seq<Header>,
        rows1: seq<seq<seq<Value>>>, rows2: seq<seq<seq<Value>>>, binds: seq<Bind>, c1: Context, c2: Context,
        p: Place, acc: Access)
    requires SameContext(c1, c2, p, acc) && Labelled(shape, binds) && SameRows(shape, rows1, rows2, binds, acc)
    requires AllOk(NeedsItems(items, Inner(Local(sel, binds), p)), acc)
    ensures ProjectRows(items, shape, rows1, c1) == ProjectRows(items, shape, rows2, c2)
    decreases items, 8, |rows1|
  {
    if rows1 != [] {
      WithinSame(c1, c2, p, sel, shape, rows1[0], rows2[0], binds, acc);
      ItemsSame(items, Within(c1, shape, rows1[0]), Within(c2, shape, rows2[0]), Inner(Local(sel, binds), p), acc);
      ProjectRowsSame(items, sel, shape, rows1[1..], rows2[1..], binds, c1, c2, p, acc);
    }
  }

  lemma {:induction false} GroupSame(c1: Context, c2: Context, p: Place, sel: nat, shape: seq<Header>,
        rows1: seq<seq<seq<Value>>>, rows2: seq<seq<seq<Value>>>, binds: seq<Bind>, acc: Access)
    requires SameContext(c1, c2, p, acc) && Labelled(shape, binds) && SameRows(shape, rows1, rows2, binds, acc)
    ensures SameContext(GroupContext(c1, shape, rows1), GroupContext(c2, shape, rows2), Inner(Local(sel, binds), p),
        acc)
  {
    var a := if rows1 == [] then NullRow(shape) else rows1[0];
    var b := if rows2 == [] then NullRow(shape) else rows2[0];
    NullRowSame(shape, binds, acc);
    WithinSame(c1, c2, p, sel, shape, a, b, binds, acc);
    assert SameGroup(Frames(shape, rows1), Frames(shape, rows2), Inner(Local(sel, binds), p).scopes, acc);
  }

  // ---------------------------------------------------------------- queries

  lemma {:induction false} TuplesSame(items: seq<Node>, c1: Context, c2: Context, p: Place, acc: Access)
    requires SameContext(c1, c2, p, acc) && AllOk(NeedsTuples(items, p), acc)
    ensures EvalTuples(items, c1) == EvalTuples(items, c2)
    decreases items, 9
  {
    if items != [] {
      if items[0].Tuple? {
        ListSame(items[0].items, c1, c2, Down(items[0], p), acc);
      } else {
        ExprSame(items[0], c1, c2, p, acc);
      }
      TuplesSame(items[1..], c1, c2, p, acc);
    }
  }

  lemma {:induction false} CtesSame(ctes: seq<Node>, c1: Context, c2: Context, p: Place, acc: Access)
    requires SameContext(c1, c2, p, acc) && AllOk(NeedsCtes(ctes, p), acc)
    ensures EvalCtes(ctes, c1) == EvalCtes(ctes, c2)
    ensures EvalCtes(ctes, c1).Keys == p.ctes + CteNames(ctes)
    decreases ctes, 10
  {
    if ctes != [] {
      if ctes[0].Cte? {
        var k := ctes[0];
        QuerySame(k.arg, c1.(group := []), c2.(group := []), Down(k, p), acc);
        var rel := Rename(EvalQuery(k.arg, c1.(group := [])), k.columns);
        CtesSame(ctes[1..], c1.(ctes := c1.ctes[k.alias := rel]), c2.(ctes := c2.ctes[k.alias := rel]),
                 p.(ctes := p.ctes + {k.alias}), acc);
      } else {
        CtesSame(ctes[1..], c1, c2, p, acc);
      }
    }
  }

  lemma {:induction false} BoundSame(limit: Option<Node>, c1: Context, c2: Context, p: Place, acc: Access)
    requires SameContext(c1, c2, p, acc) && AllOk(NeedsBound(limit, p), acc)
    ensures RowBound(limit, c1) == RowBound(limit, c2)
    decreases limit, 10
  {
    if limit.Some? {
      var d1, d2 := c1.(env := [], group := []), c2.(env := [], group := []);
      match limit.value
      case Limit(Some(e)) => ExprSame(e, d1, d2, Down(limit.value, p).(scopes := []), acc);
      case Fetch(Some(e)) => ExprSame(e, d1, d2, Down(limit.value, p).(scopes := []), acc);
      case _ =>
    }
  }

  lemma {:induction false} BodySame(n: Node, c1: Context, c2: Context, p: Place, acc: Access)
    requires SameContext(c1, c2, p, acc)
    requires EvalCtes(CtesOf(n), c1) == EvalCtes(CtesOf(n), c2)
    requires EvalCtes(CtesOf(n), c1).Keys == p.ctes + CteNames(CtesOf(n))
    ensures SameContext(c1.(ctes := EvalCtes(CtesOf(n), c1), group := []),
        c2.(ctes := EvalCtes(CtesOf(n), c2), group := []), Body(n, p), acc)
  {
  }

  lemma {:induction false} SelectSame(n: Node, c1: Context, c2: Context, p: Place, acc: Access)
    requires n.Select? && SameContext(c1, c2, p, acc)
    requires EvalCtes(n.ctes, c1) == EvalCtes(n.ctes, c2) && EvalCtes(n.ctes, c1).Keys == p.ctes + CteNames(n.ctes)
    requires AllOk(NeedsSelect(n, p), acc)
    ensures EvalSelect(n, c1) == EvalSelect(n, c2)
    decreases n, 9
  {
    BodySame(n, c1, c2, p, acc);
    var d1, d2 := c1.(ctes := EvalCtes(n.ctes, c1), group := []), c2.(ctes := EvalCtes(n.ctes, c2), group := []);
    var b, binds := Body(n, p), OwnBinds(n, p);
    FirstSame(n.from, d1, d2, b, acc);
    JoinsSame(n.joins, n.id, EvalFirst(n.from, d1), EvalFirst(n.from, d2), FirstBinds(n.from, b), d1, d2, b, acc);
    var prod1, prod2 := EvalJoins(n.joins, EvalFirst(n.from, d1), d1), EvalJoins(n.joins, EvalFirst(n.from, d2), d2);
    KeptSame(n.where, n.id, prod1.shape, prod1.rows, prod2.rows, binds, d1, d2, b, acc);
    SelectListSame(n, d1, d2, SourceRows(n, d1), SourceRows(n, d2), binds, b, acc);
  }

  /** The SELECT list and HAVING, over rows that agree. */
  lemma {:induction false} SelectListSame(n: Node, d1: Context, d2: Context, prod1: Product, prod2: Product,
        binds: seq<Bind>, b: Place, acc: Access)
    requires n.Select? && d1.group == d2.group == []
    requires SameContext(d1, d2, b, acc) && SameProduct(prod1, prod2, binds, acc)
    requires AllOk(NeedsItems(n.items, Inner(Local(n.id, binds), b)), acc)
    requires AllOk(NeedsFilter(n.having, Inner(Local(n.id, binds), b)), acc)
    ensures ProjectCols(n.items, [prod1.shape] + Shapes(d1.env)) == ProjectCols(n.items, [prod2.shape] + Shapes(d2.env))
    ensures ProjectRows(n.items, prod1.shape, prod1.rows, d1) == ProjectRows(n.items, prod2.shape, prod2.rows, d2)
    ensures ProjectRow(n.items, GroupContext(d1, prod1.shape, prod1.rows))
        == ProjectRow(n.items, GroupContext(d2, prod2.shape, prod2.rows))
    ensures n.having.Some? && n.having.value.Having? ==>
      EvalExpr(n.having.value.arg, GroupContext(d1, prod1.shape, prod1.rows))
          == EvalExpr(n.having.value.arg, GroupContext(d2, prod2.shape, prod2.rows))
    decreases n, 8
  {
    var inner := Inner(Local(n.id, binds), b);
    var g1, g2 := GroupContext(d1, prod1.shape, prod1.rows), GroupContext(d2, prod2.shape, prod2.rows);
    GroupSame(d1, d2, b, n.id, prod1.shape, prod1.rows, prod2.rows, binds, acc);
    ItemsSame(n.items, g1, g2, inner, acc);
    assert Shapes(g1.env) == [prod1.shape] + Shapes(d1.env);
    assert Shapes(g2.env) == [prod2.shape] + Shapes(d2.env);
    ProjectRowsSame(n.items, n.id, prod1.shape, prod1.rows, prod2.rows, binds, d1, d2, b, acc);
    if n.having.Some? && n.having.value.Having? {
      ExprSame(n.having.value.arg, g1, g2, Down(n.having.value, inner), acc);
    }
  }

  lemma {:induction false} SelectQuerySame(n: Node, c1: Context, c2: Context, p: Place, acc: Access)
    requires n.Select? && SameContext(c1, c2, p, acc) && AllOk(NeedsQuery(n, p), acc)
    ensures EvalQuery(n, c1) == EvalQuery(n, c2)
    decreases n, 19
  {
    DownSame(n, c1, c2, p, acc);
    CtesSame(n.ctes, c1, c2, Down(n, p), acc);
    BodySame(n, c1, c2, p, acc);
    SelectSame(n, c1, c2, p, acc);
    BoundSame(n.limit, c1.(ctes := EvalCtes(n.ctes, c1), group := []), c2.(ctes := EvalCtes(n.ctes, c2), group := []),
        Body(n, p), acc);
  }

  lemma {:induction false} SetOpQuerySame(n: Node, c1: Context, c2: Context, p: Place, acc: Access)
    requires n.SetOp? && SameContext(c1, c2, p, acc) && AllOk(NeedsQuery(n, p), acc)
    ensures EvalQuery(n, c1) == EvalQuery(n, c2)
    decreases n, 19
  {
    DownSame(n, c1, c2, p, acc);
    CtesSame(n.ctes, c1, c2, Down(n, p), acc);
    BodySame(n, c1, c2, p, acc);
    var d1, d2 := c1.(ctes := EvalCtes(n.ctes, c1), group := []), c2.(ctes := EvalCtes(n.ctes, c2), group := []);
    QuerySame(n.left, d1, d2, Body(n, p), acc);
    QuerySame(n.right, d1, d2, Body(n, p), acc);
    BoundSame(n.limit, d1, d2, Body(n, p), acc);
  }

  /** A query whose reads are all visible means the same on databases that agree on what is visible. */
  lemma {:induction false} QuerySame(n: Node, c1: Context, c2: Context, p: Place, acc: Access)
    requires SameContext(c1, c2, p, acc) && AllOk(NeedsQuery(n, p), acc)
    ensures EvalQuery(n, c1) == EvalQuery(n, c2)
    decreases n, 20
  {
    if n.Select? {
      SelectQuerySame(n, c1, c2, p, acc);
    } else if n.SetOp? {
      SetOpQuerySame(n, c1, c2, p, acc);
    } else if n.Subquery? || n.Paren? {
      DownSame(n, c1, c2, p, acc);
      QuerySame(n.arg, c1, c2, Down(n, p), acc);
    } else if n.Values? {
      DownSame(n, c1, c2, p, acc);
      TuplesSame(n.items, c1, c2, Down(n, p), acc);
    }
  }
}
