/**
 * What a query means. A query maps a database and the rows of the enclosing queries to a relation:
 * column names and an ordered list of rows. A run-time error yields NULL.
 */
module Semantics {
  import opened Syntax
  import opened Text
  import opened SqlValues
  import opened Traversal

  datatype Relation = Relation(cols: seq<string>, rows: seq<seq<Value>>)

  /** A table as a statement names it; an absent schema is "". */
  datatype TableName = TableName(db: string, name: string)

  type Database = map<TableName, Relation>

  /** One source of a FROM list; `merged` holds the columns folded into an earlier source by USING or NATURAL. */
  datatype Header = Header(alias: string, cols: seq<string>, merged: set<string>)

  /** One row of a FROM list: the current row of each source. */
  datatype Frame = Frame(shape: seq<Header>, vals: seq<seq<Value>>)

  datatype Product = Product(shape: seq<Header>, rows: seq<seq<seq<Value>>>)

  /** The functions the database supplies: scalar functions, aggregates and the cast to text. */
  datatype Calls = Calls(fn: (string, seq<Value>) -> Value, agg: (string, seq<Value>) -> Value, text: Value -> string)

  /** `env` lists the rows in scope, innermost first; `group` the rows an aggregate ranges over. */
  datatype Context = Context(db: Database, ctes: map<string, Relation>, env: seq<Frame>, group: seq<Frame>,
        calls: Calls)

  // ---------------------------------------------------------------- names

  function IndexOf(xs: seq<string>, x: string): (i: nat)
    ensures i <= |xs|
    ensures i < |xs| ==> xs[i] == x
    ensures x in xs <==> i < |xs|
  {
    if xs == [] then 0 else if xs[0] == x then 0 else 1 + IndexOf(xs[1..], x)
  }

  function ValueAt(vals: seq<Value>, i: nat): Value {
    if i < |vals| then vals[i] else VNull
  }

  function Field(cols: seq<string>, vals: seq<Value>, c: string): Value {
    var i := IndexOf(cols, c);
    if i < |cols| then ValueAt(vals, i) else VNull
  }

  function RowAt(vals: seq<seq<Value>>, i: nat): seq<Value> {
    if i < |vals| then vals[i] else []
  }

  /** The first source called `q`, or the number of sources. */
  function FindLabel(shape: seq<Header>, q: string): (i: nat)
    ensures i <= |shape|
    ensures i < |shape| ==> shape[i].alias == q
    ensures forall j :: 0 <= j < i ==> shape[j].alias != q
  {
    if shape == [] then 0 else if shape[0].alias == q then 0 else 1 + FindLabel(shape[1..], q)
  }

  /** The first source with a column `c` that is not merged away, or the number of sources. */
  function FindColumn(shape: seq<Header>, c: string): (i: nat)
    ensures i <= |shape|
    ensures i < |shape| ==> c in shape[i].cols
  {
    if shape == [] then 0
    else if c in shape[0].cols && c !in shape[0].merged then 0
    else 1 + FindColumn(shape[1..], c)
  }

  /** `q.c`: the innermost source called `q` decides. */
  function LookupQualified(env: seq<Frame>, q: string, c: string): Value {
    if env == [] then VNull
    else
      var i := FindLabel(env[0].shape, q);
      if i < |env[0].shape| then Field(env[0].shape[i].cols, RowAt(env[0].vals, i), c)
      else LookupQualified(env[1..], q, c)
  }

  /** `c` as a column of the innermost row that has it. */
  function LookupColumn(env: seq<Frame>, c: string): Option<Value> {
    if env == [] then None
    else
      var i := FindColumn(env[0].shape, c);
      if i < |env[0].shape| then Some(Field(env[0].shape[i].cols, RowAt(env[0].vals, i), c))
      else LookupColumn(env[1..], c)
  }

  /** `c` as the whole row of the innermost source called `c`. */
  function LookupRow(env: seq<Frame>, c: string): Value {
    if env == [] then VNull
    else
      var i := FindLabel(env[0].shape, c);
      if i < |env[0].shape| then VRow(RowAt(env[0].vals, i)) else LookupRow(env[1..], c)
  }

  function Lookup(env: seq<Frame>, q: string, c: string): Value {
    if q != "" then LookupQualified(env, q, c)
    else
      var v := LookupColumn(env, c);
      if v.Some? then v.value else LookupRow(env, c)
  }

  // ---------------------------------------------------------------- relations

  function Nulls(n: nat): (r: seq<Value>)
    ensures |r| == n
  {
    if n == 0 then [] else [VNull] + Nulls(n - 1)
  }

  function NullRow(shape: seq<Header>): (r: seq<seq<Value>>)
    ensures |r| == |shape|
  {
    if shape == [] then [] else [Nulls(|shape[0].cols|)] + NullRow(shape[1..])
  }

  /** A column alias list renames the leading columns. */
  function Rename(rel: Relation, columns: seq<string>): Relation {
    if columns == [] then rel
    else if |columns| <= |rel.cols| then Relation(columns + rel.cols[|columns|..], rel.rows)
    else Relation(columns[..|rel.cols|], rel.rows)
  }

  function WrapRows(rows: seq<seq<Value>>): (r: seq<seq<seq<Value>>>)
    ensures |r| == |rows|
    ensures forall i :: 0 <= i < |rows| ==> r[i] == [rows[i]]
  {
    if rows == [] then [] else [[rows[0]]] + WrapRows(rows[1..])
  }

  function Frames(shape: seq<Header>, rows: seq<seq<seq<Value>>>): (r: seq<Frame>)
    ensures |r| == |rows|
    ensures forall i :: 0 <= i < |rows| ==> r[i] == Frame(shape, rows[i])
  {
    if rows == [] then [] else [Frame(shape, rows[0])] + Frames(shape, rows[1..])
  }

  function Shapes(env: seq<Frame>): (r: seq<seq<Header>>)
    ensures |r| == |env|
    ensures forall i :: 0 <= i < |env| ==> r[i] == env[i].shape
  {
    if env == [] then [] else [env[0].shape] + Shapes(env[1..])
  }

  function Column0(rel: Relation): (r: seq<Value>)
    ensures |r| == |rel.rows|
    decreases |rel.rows|
  {
    if rel.rows == [] then []
    else [ValueAt(rel.rows[0], 0)] + Column0(Relation(rel.cols, rel.rows[1..]))
  }

  /** A scalar subquery: NULL when empty, an error when it has several rows. */
  function ScalarOf(rel: Relation): Value {
    if |rel.rows| == 1 then ValueAt(rel.rows[0], 0) else VNull
  }

  function Dedup(rows: seq<seq<Value>>): seq<seq<Value>> {
    if rows == [] then []
    else if rows[0] in rows[1..] then Dedup(rows[1..])
    else [rows[0]] + Dedup(rows[1..])
  }

  function Members(rows: seq<seq<Value>>, others: seq<seq<Value>>, keep: bool): seq<seq<Value>> {
    if rows == [] then []
    else (if (rows[0] in others) == keep then [rows[0]] else []) + Members(rows[1..], others, keep)
  }

  function Combine(kind: SetKind, distinct: bool, l: Relation, r: Relation): Relation {
    var rows := match kind
      case Union => l.rows + r.rows
      case Intersect => Members(l.rows, r.rows, true)
      case Except => Members(l.rows, r.rows, false);
    Relation(l.cols, if distinct then Dedup(rows) else rows)
  }

  // ---------------------------------------------------------------- joins

  predicate IsNatural(j: Node)
    requires j.Join?
  {
    Upper(j.joinMethod) == "NATURAL"
  }

  predicate KeepsLeft(j: Node)
    requires j.Join?
  {
    Upper(j.joinSide) == "LEFT" || Upper(j.joinSide) == "FULL"
  }

  predicate KeepsRight(j: Node)
    requires j.Join?
  {
    Upper(j.joinSide) == "RIGHT" || Upper(j.joinSide) == "FULL"
  }

  function Shared(cols: seq<string>, shape: seq<Header>): seq<string> {
    if cols == [] then []
    else (if FindColumn(shape, cols[0]) < |shape| then [cols[0]] else []) + Shared(cols[1..], shape)
  }

  /** The columns a join equates by name. */
  function JoinColumns(j: Node, shape: seq<Header>, cols: seq<string>): seq<string>
    requires j.Join?
  {
    if IsNatural(j) then Shared(cols, shape) else j.using
  }

  function NameSet(xs: seq<string>): set<string> {
    set x | x in xs
  }

  function LeftValue(shape: seq<Header>, left: seq<seq<Value>>, c: string): Value {
    var i := FindColumn(shape, c);
    if i < |shape| then Field(shape[i].cols, RowAt(left, i), c) else VNull
  }

  /** The equalities of USING and NATURAL. */
  predicate NamesAgree(names: seq<string>, shape: seq<Header>, left: seq<seq<Value>>, h: Header, right: seq<Value>) {
    forall c :: c in names ==> Compare(Eq, LeftValue(shape, left, c), Field(h.cols, right, c)) == True
  }

  // ---------------------------------------------------------------- expressions

  predicate HasAggregate(n: Node)
    decreases n
  {
    match n
    case Aggregate(_, _) => true
    case Paren(e) => HasAggregate(e)
    case Alias(e, _) => HasAggregate(e)
    case Not(e) => HasAggregate(e)
    case And(l, r) => HasAggregate(l) || HasAggregate(r)
    case Or(l, r) => HasAggregate(l) || HasAggregate(r)
    case Cmp(_, l, r) => HasAggregate(l) || HasAggregate(r)
    case Arith(_, l, r) => HasAggregate(l) || HasAggregate(r)
    case Neg(e) => HasAggregate(e)
    case Cast(e) => HasAggregate(e)
    case Func(_, items) => exists i :: 0 <= i < |items| && HasAggregate(items[i])
    case _ => false
  }

  function ArithName(op: ArithOp): string {
    match op
    case Add => "+"
    case Sub => "-"
    case Mul => "*"
    case Div => "/"
  }

  function IsTest(v: Value, expression: Node, negate: bool): Truth {
    var t := match expression
      case Null => FromBool(v.VNull?)
      case Boolean(b) => FromBool(ToTruth(v) == FromBool(b))
      case _ => Unknown;
    if negate then Not3(t) else t
  }

  function LikeTest(v: Value, pattern: Value, calls: Calls): Truth {
    if v.VNull? || pattern.VNull? then Unknown
    else FromBool(LikeMatch(AsText(v, calls), AsText(pattern, calls)))
  }

  function AsText(v: Value, calls: Calls): string {
    if v.VStr? then v.s else calls.text(v)
  }

  function NonNull(vs: seq<Value>): seq<Value> {
    if vs == [] then [] else (if vs[0].VNull? then [] else [vs[0]]) + NonNull(vs[1..])
  }

  ghost function EvalExpr(n: Node, c: Context): Value
    decreases n, 0
  {
    match n
    case Number(v, _) => VNum(v)
    case Text(s) => VStr(s)
    case Boolean(b) => VBool(b)
    case Column(q, name) => Lookup(c.env, q, name)
    case Paren(e) => EvalExpr(e, c)
    case Alias(e, _) => EvalExpr(e, c)
    case Not(e) => FromTruth(Not3(ToTruth(EvalExpr(e, c))))
    case And(l, r) => FromTruth(And3(ToTruth(EvalExpr(l, c)), ToTruth(EvalExpr(r, c))))
    case Or(l, r) => FromTruth(Or3(ToTruth(EvalExpr(l, c)), ToTruth(EvalExpr(r, c))))
    case Cmp(op, l, r) => FromTruth(Compare(op, EvalExpr(l, c), EvalExpr(r, c)))
    case Is(e, x, negate) => FromTruth(IsTest(EvalExpr(e, c), x, negate))
    case In(e, items, query) =>
      FromTruth(InList(EvalExpr(e, c), if query.Some? then Column0(EvalQuery(query.value, c)) else EvalList(items, c)))
    case Like(l, r) => FromTruth(LikeTest(EvalExpr(l, c), EvalExpr(r, c), c.calls))
    case Between(e, lo, hi) =>
      var v := EvalExpr(e, c);
      FromTruth(And3(Compare(Gte, v, EvalExpr(lo, c)), Compare(Lte, v, EvalExpr(hi, c))))
    case Exists(q) => VBool(EvalQuery(q, c).rows != [])
    case Subquery(_, _, _, _) => ScalarOf(EvalQuery(n.arg, c.(group := [])))
    case Neg(e) => c.calls.fn("neg", [EvalExpr(e, c)])
    case Cast(e) => c.calls.fn("cast", [EvalExpr(e, c)])
    case Arith(op, l, r) => c.calls.fn(ArithName(op), [EvalExpr(l, c), EvalExpr(r, c)])
    case Func(name, items) => c.calls.fn(name, EvalList(items, c))
    case Aggregate(fn, e) =>
      if e.Star? then VNum(|c.group| as real)
      else
        var vs := EvalOver(e, c.group, c);
        (match fn
         case CountFn => VNum(|NonNull(vs)| as real)
         case AggNamed(name) => c.calls.agg(name, vs))
    case _ => VNull
  }

  ghost function EvalList(ns: seq<Node>, c: Context): (r: seq<Value>)
    ensures |r| == |ns|
    decreases ns, 0
  {
    if ns == [] then [] else [EvalExpr(ns[0], c)] + EvalList(ns[1..], c)
  }

  /** The argument of an aggregate, once per row of the group. */
  ghost function EvalOver(n: Node, group: seq<Frame>, c: Context): (r: seq<Value>)
    ensures |r| == |group|
    decreases n, 1, |group|
  {
    if group == [] then []
    else
      [EvalExpr(n, c.(env := [group[0]] + (if c.env == [] then [] else c.env[1..]), group := []))]
      + EvalOver(n, group[1..], c)
  }

  ghost function EvalTruth(n: Node, c: Context): Truth {
    ToTruth(EvalExpr(n, c))
  }

  // ---------------------------------------------------------------- FROM and JOIN

  /** The context in which row `row` of a FROM list is the innermost row. */
  ghost function Within(c: Context, shape: seq<Header>, row: seq<seq<Value>>): Context {
    c.(env := [Frame(shape, row)] + c.env, group := [])
  }

  ghost function EvalSource(n: Node, c: Context): Relation
    decreases n, 21
  {
    match n
    case Table(_, db, name, _, columns) =>
      if db == "" && name != "" && name in c.ctes then Rename(c.ctes[name], columns)
      else if TableName(db, name) in c.db then Rename(c.db[TableName(db, name)], columns)
      else Relation([], [])
    case Subquery(q, _, columns, _) => Rename(EvalQuery(q, c), columns)
    case Lateral(q, _, columns) => Rename(EvalQuery(q, c), columns)
    case Values(_, _, _) => EvalQuery(n, c)
    case _ => Relation([], [])
  }

  /** The right side of a join for one left row; only LATERAL sees that row. */
  ghost function EvalRight(j: Node, shape: seq<Header>, left: seq<seq<Value>>, c: Context): Relation
    requires j.Join?
    decreases j, 3
  {
    EvalSource(j.arg, if j.arg.Lateral? then Within(c, shape, left) else c)
  }

  ghost predicate JoinOn(j: Node, names: seq<string>, shape: seq<Header>, left: seq<seq<Value>>, h: Header,
        right: seq<Value>, c: Context)
    requires j.Join?
    decreases j, 3
  {
    && NamesAgree(names, shape, left, h, right)
    && (j.on.Some? ==> ToTruth(EvalExpr(j.on.value, Within(c, shape + [h], left + [right]))) == True)
  }

  /** The extensions of one left row. */
  ghost function Matches(j: Node, names: seq<string>, shape: seq<Header>, left: seq<seq<Value>>, h: Header,
        rights: seq<seq<Value>>, c: Context): seq<seq<seq<Value>>>
    requires j.Join?
    decreases j, 4, |rights|
  {
    if rights == [] then []
    else
      (if JoinOn(j, names, shape, left, h, rights[0], c) then [left + [rights[0]]] else [])
      + Matches(j, names, shape, left, h, rights[1..], c)
  }

  ghost function JoinRows(j: Node, names: seq<string>, shape: seq<Header>, lefts: seq<seq<seq<Value>>>, h: Header,
        c: Context): seq<seq<seq<Value>>>
    requires j.Join?
    decreases j, 5, |lefts|
  {
    if lefts == [] then []
    else
      var ms := Matches(j, names, shape, lefts[0], h, EvalRight(j, shape, lefts[0], c).rows, c);
      (if ms == [] && KeepsLeft(j) then [lefts[0] + [Nulls(|h.cols|)]] else ms)
      + JoinRows(j, names, shape, lefts[1..], h, c)
  }

  ghost predicate Unmatched(j: Node, names: seq<string>, shape: seq<Header>, lefts: seq<seq<seq<Value>>>, h: Header,
        right: seq<Value>, c: Context)
    requires j.Join?
    decreases j, 4, |lefts|
  {
    lefts == [] || (!JoinOn(j, names, shape, lefts[0], h, right, c)
        && Unmatched(j, names, shape, lefts[1..], h, right, c))
  }

  /** The null-extended rows of a RIGHT or FULL join. */
  ghost function LoneRights(j: Node, names: seq<string>, shape: seq<Header>, lefts: seq<seq<seq<Value>>>, h: Header,
        rights: seq<seq<Value>>, c: Context): seq<seq<seq<Value>>>
    requires j.Join?
    decreases j, 5, |rights|
  {
    if rights == [] then []
    else
      (if Unmatched(j, names, shape, lefts, h, rights[0], c) then [NullRow(shape) + [rights[0]]] else [])
      + LoneRights(j, names, shape, lefts, h, rights[1..], c)
  }

  ghost function EvalJoin(j: Node, prod: Product, c: Context): Product
    requires j.Join?
    decreases j, 6
  {
    var right := EvalRight(j, prod.shape, NullRow(prod.shape), c);
    var names := JoinColumns(j, prod.shape, right.cols);
    var h := Header(AliasOrName(j.arg), right.cols, NameSet(names));
    Product(prod.shape + [h],
            JoinRows(j, names, prod.shape, prod.rows, h, c)
            + (if KeepsRight(j) then LoneRights(j, names, prod.shape, prod.rows, h, right.rows, c) else []))
  }

  ghost function EvalJoins(joins: seq<Node>, prod: Product, c: Context): Product
    decreases joins, 7
  {
    if joins == [] then prod
    else if joins[0].Join? then EvalJoins(joins[1..], EvalJoin(joins[0], prod, c), c)
    else EvalJoins(joins[1..], prod, c)
  }

  /** The first source; a query without FROM has one row without columns. */
  ghost function EvalFirst(from: Option<Node>, c: Context): Product
    decreases from, 7
  {
    if from.Some? && from.value.From? then
      var src := from.value.arg;
      var rel := EvalSource(src, c);
      Product([Header(AliasOrName(src), rel.cols, {})], WrapRows(rel.rows))
    else Product([], [[]])
  }

  /** The rows that WHERE keeps. */
  ghost function Kept(where: Option<Node>, shape: seq<Header>, rows: seq<seq<seq<Value>>>,
        c: Context): seq<seq<seq<Value>>>
    decreases where, 7, |rows|
  {
    if rows == [] then []
    else
      (if where.Some? && where.value.Where?
          && ToTruth(EvalExpr(where.value.arg, Within(c, shape, rows[0]))) != True then [] else [rows[0]])
      + Kept(where, shape, rows[1..], c)
  }

  // ---------------------------------------------------------------- projection

  function VisibleCols(h: Header): seq<string> {
    VisibleFrom(h.cols, h.merged)
  }

  function VisibleFrom(cols: seq<string>, merged: set<string>): seq<string> {
    if cols == [] then [] else (if cols[0] in merged then [] else [cols[0]]) + VisibleFrom(cols[1..], merged)
  }

  function VisibleVals(cols: seq<string>, vals: seq<Value>, merged: set<string>): seq<Value>
    decreases |cols|
  {
    if cols == [] then []
    else (if cols[0] in merged then [] else [ValueAt(vals, 0)])
         + VisibleVals(cols[1..], if vals == [] then [] else vals[1..], merged)
  }

  /** `*` */
  function StarCols(shape: seq<Header>): seq<string> {
    if shape == [] then [] else VisibleCols(shape[0]) + StarCols(shape[1..])
  }

  function StarVals(shape: seq<Header>, vals: seq<seq<Value>>): seq<Value> {
    if shape == [] then []
    else VisibleVals(shape[0].cols, RowAt(vals, 0), shape[0].merged)
         + StarVals(shape[1..], if vals == [] then [] else vals[1..])
  }

  /** `q.*` */
  function TableStarCols(shapes: seq<seq<Header>>, q: string): seq<string> {
    if shapes == [] then []
    else
      var i := FindLabel(shapes[0], q);
      if i < |shapes[0]| then shapes[0][i].cols else TableStarCols(shapes[1..], q)
  }

  function TableStarVals(env: seq<Frame>, q: string): seq<Value> {
    if env == [] then []
    else
      var i := FindLabel(env[0].shape, q);
      if i < |env[0].shape| then VisibleVals(env[0].shape[i].cols, RowAt(env[0].vals, i), {})
      else TableStarVals(env[1..], q)
  }

  function ProjectCols(items: seq<Node>, shapes: seq<seq<Header>>): seq<string> {
    if items == [] then []
    else
      (match items[0]
       case Star => if shapes == [] then [] else StarCols(shapes[0])
       case StarColumn(q, _) => TableStarCols(shapes, q)
       case _ => [AliasOrName(items[0])])
      + ProjectCols(items[1..], shapes)
  }

  ghost function ProjectRow(items: seq<Node>, c: Context): seq<Value>
    decreases items, 7
  {
    if items == [] then []
    else
      (match items[0]
       case Star => if c.env == [] then [] else StarVals(c.env[0].shape, c.env[0].vals)
       case StarColumn(q, _) => TableStarVals(c.env, q)
       case _ => [EvalExpr(items[0], c)])
      + ProjectRow(items[1..], c)
  }

  ghost function ProjectRows(items: seq<Node>, shape: seq<Header>, rows: seq<seq<seq<Value>>>,
        c: Context): seq<seq<Value>>
    decreases items, 8, |rows|
  {
    if rows == [] then []
    else [ProjectRow(items, Within(c, shape, rows[0]))] + ProjectRows(items, shape, rows[1..], c)
  }

  // ---------------------------------------------------------------- queries

  ghost predicate Aggregated(n: Node)
    requires n.Select?
  {
    n.having.Some? || exists i :: 0 <= i < |n.items| && HasAggregate(n.items[i])
  }

  /** The context of an aggregated SELECT list. */
  ghost function GroupContext(c: Context, shape: seq<Header>, rows: seq<seq<seq<Value>>>): Context {
    Within(c, shape, if rows == [] then NullRow(shape) else rows[0]).(group := Frames(shape, rows))
  }

  /** FROM, joins and WHERE of a SELECT: the rows it projects. */
  ghost function SourceRows(n: Node, c: Context): Product
    requires n.Select?
    decreases n, 8
  {
    var prod := EvalJoins(n.joins, EvalFirst(n.from, c), c);
    Product(prod.shape, Kept(n.where, prod.shape, prod.rows, c))
  }

  /** A SELECT without its LIMIT. */
  ghost function EvalSelect(n: Node, c: Context): Relation
    requires n.Select?
    decreases n, 9
  {
    var c1 := c.(ctes := EvalCtes(n.ctes, c), group := []);
    var prod := SourceRows(n, c1);
    var cols := ProjectCols(n.items, [prod.shape] + Shapes(c.env));
    if Aggregated(n) then
      var cg := GroupContext(c1, prod.shape, prod.rows);
      var holds := n.having.Some? && n.having.value.Having? ==> ToTruth(EvalExpr(n.having.value.arg, cg)) == True;
      Relation(cols, if holds then [ProjectRow(n.items, cg)] else [])
    else
      Relation(cols, ProjectRows(n.items, prod.shape, prod.rows, c1))
  }

  ghost function EvalSetOp(n: Node, c: Context): Relation
    requires n.SetOp?
    decreases n, 9
  {
    var c1 := c.(ctes := EvalCtes(n.ctes, c), group := []);
    Combine(n.kind, n.distinct, EvalQuery(n.left, c1), EvalQuery(n.right, c1))
  }

  ghost function EvalTuples(items: seq<Node>, c: Context): seq<seq<Value>>
    decreases items, 9
  {
    if items == [] then []
    else [if items[0].Tuple? then EvalList(items[0].items, c) else [EvalExpr(items[0], c)]] + EvalTuples(items[1..], c)
  }

  /** WITH: each query sees the names bound before it. */
  ghost function EvalCtes(ctes: seq<Node>, c: Context): map<string, Relation>
    decreases ctes, 10
  {
    if ctes == [] then c.ctes
    else if ctes[0].Cte? then
      EvalCtes(ctes[1..], c.(ctes :=
          c.ctes[ctes[0].alias := Rename(EvalQuery(ctes[0].arg, c.(group := [])), ctes[0].columns)]))
    else EvalCtes(ctes[1..], c)
  }

  function Round(r: real): int {
    (r + 0.5).Floor
  }

  /** The number of rows a bound admits; a NULL bound admits all. */
  function CountOf(v: Value): Option<nat> {
    if v.VNum? then Some(if Round(v.n) < 0 then 0 else Round(v.n)) else None
  }

  /** LIMIT and FETCH FIRST; the bound sees no row. */
  ghost function RowBound(limit: Option<Node>, c: Context): Option<nat>
    decreases limit, 10
  {
    if limit.None? then None
    else
      match limit.value
      case Limit(Some(e)) => CountOf(EvalExpr(e, c.(env := [], group := [])))
      case Fetch(Some(e)) => CountOf(EvalExpr(e, c.(env := [], group := [])))
      case Fetch(None) => Some(1)
      case _ => None
  }

  function TakeRows(rel: Relation, bound: Option<nat>): Relation {
    if bound.Some? && bound.value < |rel.rows| then Relation(rel.cols, rel.rows[..bound.value]) else rel
  }

  ghost function EvalQuery(n: Node, c: Context): Relation
    decreases n, 20
  {
    match n
    case Select(_, ctes, _, _, _, _, _, _, _, limit) =>
      TakeRows(EvalSelect(n, c), RowBound(limit, c.(ctes := EvalCtes(ctes, c), group := [])))
    case SetOp(_, _, ctes, _, _, limit) =>
      TakeRows(EvalSetOp(n, c), RowBound(limit, c.(ctes := EvalCtes(ctes, c), group := [])))
    case Subquery(q, _, _, _) => EvalQuery(q, c)
    case Paren(q) => EvalQuery(q, c)
    case Values(items, _, columns) =>
      var rows := EvalTuples(items, c);
      Relation(columns, rows)
    case _ => Relation([], [])
  }
}
