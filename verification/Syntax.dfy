/** The normalised statement tree the checks walk: one node type, as in the parser's own class hierarchy. */
module Syntax {
  import opened Text

  datatype Option<+T> = None | Some(value: T)

  datatype CmpOp = Eq | Neq | Gt | Gte | Lt | Lte

  datatype ArithOp = Add | Sub | Mul | Div

  datatype AggFn = CountFn | AggNamed(name: string)

  datatype SetKind = Union | Intersect | Except

  /** Statement kinds that are gated by name only. */
  datatype CommandKind =
    | Drop | Create | Alter | TruncateTable | Grant
    | Copy | RawCommand | Transaction | Commit | Rollback | SetVariable

  /**
   * A `Table` and a `Select` carry an `id`, standing for the identity of the node object.
   * An absent name or alias is the empty string.
   */
  datatype Node =
    // scalar expressions
    | Number(value: real, integral: bool)       // `integral`: the literal's text is accepted by int()
    | Text(text: string)
    | Boolean(truth: bool)
    | Null
    | Star
    | Column(table: string, name: string)
    | StarColumn(table: string, arg: Node)      // t.*: a column whose child is the Star
    | Paren(arg: Node)
    | Alias(arg: Node, alias: string)
    | Not(arg: Node)
    | And(left: Node, right: Node)
    | Or(left: Node, right: Node)
    | Cmp(op: CmpOp, left: Node, right: Node)
    | Is(arg: Node, expression: Node, negate: bool)
    | In(arg: Node, items: seq<Node>, query: Option<Node>)
    | Like(left: Node, right: Node)
    | Between(arg: Node, low: Node, high: Node)
    | Exists(arg: Node)
    | Neg(arg: Node)
    | Cast(arg: Node)
    | Arith(arith: ArithOp, left: Node, right: Node)
    | Func(name: string, items: seq<Node>)
    | Aggregate(fn: AggFn, arg: Node)
    // queries and row sources
    | Select(id: nat, ctes: seq<Node>, items: seq<Node>, into: Option<Node>, from: Option<Node>,
             joins: seq<Node>, where: Option<Node>, having: Option<Node>, locks: seq<Node>,
             limit: Option<Node>)
    | SetOp(kind: SetKind, distinct: bool, ctes: seq<Node>, left: Node, right: Node, limit: Option<Node>)
    | Subquery(arg: Node, alias: string, columns: seq<string>, locks: seq<Node>)
    | Values(items: seq<Node>, alias: string, columns: seq<string>)
    | Tuple(items: seq<Node>)
    | Table(id: nat, db: string, name: string, alias: string, columns: seq<string>)
    | Lateral(arg: Node, alias: string, columns: seq<string>)
    | From(arg: Node)
    | Join(arg: Node, joinKind: string, joinSide: string, joinMethod: string, on: Option<Node>, using: seq<string>)
    | Where(arg: Node)
    | Having(arg: Node)
    | Cte(alias: string, columns: seq<string>, arg: Node)
    | Limit(count: Option<Node>)
    | Fetch(count: Option<Node>)
    // writes and commands
    | Into(arg: Node)
    | Lock
    | Insert(ctes: seq<Node>, arg: Node, source: Option<Node>, conflict: Option<Node>)
    | Update(ctes: seq<Node>, arg: Node, items: seq<Node>, where: Option<Node>)
    | Delete(ctes: seq<Node>, arg: Node, where: Option<Node>)
    | Merge(ctes: seq<Node>, arg: Node, source: Option<Node>, on: Option<Node>, whens: seq<Node>)
    | When(condition: Option<Node>, action: Option<Node>)
    | OnConflict(action: Option<Node>)
    | Var(name: string)
    | Command(command: CommandKind, items: seq<Node>)
    | Semicolon

  function OptList(o: Option<Node>): seq<Node> {
    if o.Some? then [o.value] else []
  }

  /** The WITH list of a node; it scopes over every other child of that node. */
  function CtesOf(n: Node): seq<Node> {
    match n
    case Select(_, ctes, _, _, _, _, _, _, _, _) => ctes
    case SetOp(_, _, ctes, _, _, _) => ctes
    case Insert(ctes, _, _, _) => ctes
    case Update(ctes, _, _, _) => ctes
    case Delete(ctes, _, _) => ctes
    case Merge(ctes, _, _, _, _) => ctes
    case _ => []
  }

  /** Every child of a node other than its WITH list, in the order the parser stores them. */
  function Parts(n: Node): seq<Node> {
    match n
    case StarColumn(_, star) => [star]
    case Paren(e) => [e]
    case Alias(e, _) => [e]
    case Not(e) => [e]
    case And(l, r) => [l, r]
    case Or(l, r) => [l, r]
    case Cmp(_, l, r) => [l, r]
    case Is(e, x, _) => [e, x]
    case In(e, items, q) => [e] + items + OptList(q)
    case Like(l, r) => [l, r]
    case Between(e, lo, hi) => [e, lo, hi]
    case Exists(q) => [q]
    case Neg(e) => [e]
    case Cast(e) => [e]
    case Arith(_, l, r) => [l, r]
    case Func(_, items) => items
    case Aggregate(_, e) => [e]
    case Select(_, _, items, into, from, joins, where, having, locks, limit) =>
      items + OptList(into) + OptList(from) + joins + OptList(where) + OptList(having) + locks + OptList(limit)
    case SetOp(_, _, _, l, r, limit) => [l, r] + OptList(limit)
    case Subquery(q, _, _, locks) => [q] + locks
    case Values(items, _, _) => items
    case Tuple(items) => items
    case Lateral(q, _, _) => [q]
    case From(s) => [s]
    case Join(s, _, _, _, on, _) => [s] + OptList(on)
    case Where(p) => [p]
    case Having(p) => [p]
    case Cte(_, _, q) => [q]
    case Limit(e) => OptList(e)
    case Fetch(e) => OptList(e)
    case Into(t) => [t]
    case Insert(_, t, src, oc) => [t] + OptList(src) + OptList(oc)
    case Update(_, t, sets, where) => [t] + sets + OptList(where)
    case Delete(_, t, where) => [t] + OptList(where)
    case Merge(_, t, src, on, whens) => [t] + OptList(src) + OptList(on) + whens
    case When(cond, action) => OptList(cond) + OptList(action)
    case OnConflict(a) => OptList(a)
    case Command(_, items) => items
    case _ => []
  }

  function Kids(n: Node): seq<Node> {
    CtesOf(n) + Parts(n)
  }

  /** A column reference, `t.*` included: its name is then "*". */
  predicate IsColumn(n: Node) {
    n.Column? || n.StarColumn?
  }

  predicate IsTable(n: Node) { n.Table? }

  predicate IsSelect(n: Node) { n.Select? }

  predicate IsJoin(n: Node) { n.Join? }

  function ColumnName(n: Node): string
    requires IsColumn(n)
  {
    if n.Column? then n.name else "*"
  }

  function AliasOf(n: Node): string {
    match n
    case Alias(_, a) => a
    case Subquery(_, a, _, _) => a
    case Values(_, a, _) => a
    case Table(_, _, _, a, _) => a
    case Lateral(_, a, _) => a
    case Cte(a, _, _) => a
    case _ => ""
  }

  function AliasOrName(n: Node): string {
    if AliasOf(n) != "" then AliasOf(n)
    else match n
         case Column(_, c) => c
         case StarColumn(_, _) => "*"
         case Star => "*"
         case Table(_, _, t, _, _) => t
         case _ => ""
  }
}
