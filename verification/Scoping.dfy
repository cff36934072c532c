/**
 * Lexical scoping. `NeedsQuery` lists everything a query reads: its base tables, and each column,
 * star and join column together with the sources in scope where it stands.
 */
module Scoping {
  import opened Syntax
  import opened Text
  import opened Traversal
  import opened Semantics

  /** A source in scope; `table` is the reference it stands for when it is a base table. */
  datatype Bind = Bind(alias: string, table: Option<Located>)

  /**
   * One level of scope: the sources of SELECT `sel`, or a row of an enclosing query about which
   * only this is known: none of its sources has its lower-cased name in `names`.
   */
  datatype Scope = Local(sel: nat, binds: seq<Bind>) | Foreign(names: set<string>)

  datatype Need =
    | NeedTable(table: Located)
    | NeedColumn(col: Located, scopes: seq<Scope>)
    | NeedStar(star: Located, scope: Scope)
    | NeedTableStar(col: Located, scopes: seq<Scope>)
    | NeedUsing(join: Located, name: string, binds: seq<Bind>)
    | NeedNatural(join: Located, binds: seq<Bind>)

  /** Where a node stands: the scopes around it, the WITH names it sees and its ancestors. */
  datatype Place = Place(scopes: seq<Scope>, ctes: set<string>, up: seq<Tag>)

  function Down(n: Node, p: Place): Place {
    p.(up := [TagOf(n)] + p.up)
  }

  function Inner(scope: Scope, p: Place): Place {
    p.(scopes := [scope] + p.scopes)
  }

  /** A table name means a base table unless it is unqualified and a WITH name in scope. */
  predicate IsBase(n: Node, ctes: set<string>) {
    n.Table? && !(n.db == "" && n.name != "" && n.name in ctes)
  }

  function BindOf(src: Node, p: Place): Bind {
    Bind(AliasOrName(src), if IsBase(src, p.ctes) then Some(Located(src, p.up)) else None)
  }

  function CteNames(ctes: seq<Node>): set<string> {
    if ctes == [] then {}
    else (if ctes[0].Cte? then {ctes[0].alias} else {}) + CteNames(ctes[1..])
  }

  function FirstBinds(from: Option<Node>, p: Place): seq<Bind> {
    if from.Some? && from.value.From? then [BindOf(from.value.arg, Down(from.value, p))] else []
  }

  /** The sources of a FROM list once `joins` have been added to `binds`. */
  function JoinBinds(joins: seq<Node>, binds: seq<Bind>, p: Place): seq<Bind> {
    if joins == [] then binds
    else if joins[0].Join? then JoinBinds(joins[1..], binds + [BindOf(joins[0].arg, Down(joins[0], p))], p)
    else JoinBinds(joins[1..], binds, p)
  }

  ghost function NeedsExpr(n: Node, p: Place): set<Need>
    decreases n, 0
  {
    match n
    case Column(_, _) => {NeedColumn(Located(n, p.up), p.scopes)}
    case Paren(e) => NeedsExpr(e, Down(n, p))
    case Alias(e, _) => NeedsExpr(e, Down(n, p))
    case Not(e) => NeedsExpr(e, Down(n, p))
    case And(l, r) => NeedsExpr(l, Down(n, p)) + NeedsExpr(r, Down(n, p))
    case Or(l, r) => NeedsExpr(l, Down(n, p)) + NeedsExpr(r, Down(n, p))
    case Cmp(_, l, r) => NeedsExpr(l, Down(n, p)) + NeedsExpr(r, Down(n, p))
    case Is(e, _, _) => NeedsExpr(e, Down(n, p))
    case In(e, items, query) =>
      NeedsExpr(e, Down(n, p))
          + (if query.Some? then NeedsQuery(query.value, Down(n, p)) else NeedsList(items, Down(n, p)))
    case Like(l, r) => NeedsExpr(l, Down(n, p)) + NeedsExpr(r, Down(n, p))
    case Between(e, lo, hi) => NeedsExpr(e, Down(n, p)) + NeedsExpr(lo, Down(n, p)) + NeedsExpr(hi, Down(n, p))
    case Exists(q) => NeedsQuery(q, Down(n, p))
    case Subquery(q, _, _, _) => NeedsQuery(q, Down(n, p))
    case Neg(e) => NeedsExpr(e, Down(n, p))
    case Cast(e) => NeedsExpr(e, Down(n, p))
    case Arith(_, l, r) => NeedsExpr(l, Down(n, p)) + NeedsExpr(r, Down(n, p))
    case Func(_, items) => NeedsList(items, Down(n, p))
    case Aggregate(_, e) => if e.Star? then {} else NeedsExpr(e, Down(n, p))
    case _ => {}
  }

  ghost function NeedsList(ns: seq<Node>, p: Place): set<Need>
    decreases ns, 0
  {
    if ns == [] then {} else NeedsExpr(ns[0], p) + NeedsList(ns[1..], p)
  }

  ghost function NeedsSource(n: Node, p: Place): set<Need>
    decreases n, 21
  {
    match n
    case Table(_, _, _, _, _) => if IsBase(n, p.ctes) then {NeedTable(Located(n, p.up))} else {}
    case Subquery(q, _, _, _) => NeedsQuery(q, Down(n, p))
    case Lateral(q, _, _) => NeedsQuery(q, Down(n, p))
    case Values(_, _, _) => NeedsQuery(n, p)
    case _ => {}
  }

  ghost function NeedsJoin(j: Node, sel: nat, binds: seq<Bind>, p: Place): set<Need>
    requires j.Join?
    decreases j, 6
  {
    var d := Down(j, p);
    var all := binds + [BindOf(j.arg, d)];
    NeedsSource(j.arg, if j.arg.Lateral? then Inner(Local(sel, binds), d) else d)
    + (if IsNatural(j) then {NeedNatural(Located(j, p.up), all)}
       else set c | c in j.using :: NeedUsing(Located(j, p.up), c, all))
    + (if j.on.Some? then NeedsExpr(j.on.value, Inner(Local(sel, all), d)) else {})
  }

  ghost function NeedsJoins(joins: seq<Node>, sel: nat, binds: seq<Bind>, p: Place): set<Need>
    decreases joins, 7
  {
    if joins == [] then {}
    else if joins[0].Join? then
      NeedsJoin(joins[0], sel, binds, p)
          + NeedsJoins(joins[1..], sel, binds + [BindOf(joins[0].arg, Down(joins[0], p))], p)
    else NeedsJoins(joins[1..], sel, binds, p)
  }

  ghost function NeedsFirst(from: Option<Node>, p: Place): set<Need>
    decreases from, 7
  {
    if from.Some? && from.value.From? then NeedsSource(from.value.arg, Down(from.value, p)) else {}
  }

  ghost function NeedsFilter(clause: Option<Node>, p: Place): set<Need>
    decreases clause, 7
  {
    if clause.Some? && (clause.value.Where? || clause.value.Having?) then
        NeedsExpr(clause.value.arg, Down(clause.value, p))
    else {}
  }

  /** A SELECT list; `p.scopes[0]` is the SELECT's own scope. */
  ghost function NeedsItems(items: seq<Node>, p: Place): set<Need>
    requires p.scopes != []
    decreases items, 7
  {
    if items == [] then {}
    else
      (match items[0]
       case Star => {NeedStar(Located(items[0], p.up), p.scopes[0])}
       case StarColumn(_, _) => {NeedTableStar(Located(items[0], p.up), p.scopes)}
       case _ => NeedsExpr(items[0], p))
      + NeedsItems(items[1..], p)
  }

  ghost function NeedsTuples(items: seq<Node>, p: Place): set<Need>
    decreases items, 9
  {
    if items == [] then {}
    else (if items[0].Tuple? then NeedsList(items[0].items, Down(items[0], p)) else NeedsExpr(items[0], p))
         + NeedsTuples(items[1..], p)
  }

  ghost function NeedsCtes(ctes: seq<Node>, p: Place): set<Need>
    decreases ctes, 10
  {
    if ctes == [] then {}
    else if ctes[0].Cte? then
      NeedsQuery(ctes[0].arg, Down(ctes[0], p)) + NeedsCtes(ctes[1..], p.(ctes := p.ctes + {ctes[0].alias}))
    else NeedsCtes(ctes[1..], p)
  }

  ghost function NeedsBound(limit: Option<Node>, p: Place): set<Need>
    decreases limit, 10
  {
    if limit.None? then {}
    else
      match limit.value
      case Limit(Some(e)) => NeedsExpr(e, Down(limit.value, p).(scopes := []))
      case Fetch(Some(e)) => NeedsExpr(e, Down(limit.value, p).(scopes := []))
      case _ => {}
  }

  /** The place of the clauses of a SELECT or set operation: its WITH names are bound. */
  function Body(n: Node, p: Place): Place {
    Down(n, p).(ctes := p.ctes + CteNames(CtesOf(n)))
  }

  /** The sources of a SELECT. */
  function OwnBinds(n: Node, p: Place): seq<Bind>
    requires n.Select?
  {
    JoinBinds(n.joins, FirstBinds(n.from, Body(n, p)), Body(n, p))
  }

  ghost function NeedsSelect(n: Node, p: Place): set<Need>
    requires n.Select?
    decreases n, 9
  {
    var b := Body(n, p);
    var inner := Inner(Local(n.id, OwnBinds(n, p)), b);
    NeedsFirst(n.from, b) + NeedsJoins(n.joins, n.id, FirstBinds(n.from, b), b)
    + NeedsFilter(n.where, inner) + NeedsFilter(n.having, inner) + NeedsItems(n.items, inner)
  }

  ghost function NeedsQuery(n: Node, p: Place): set<Need>
    decreases n, 20
  {
    match n
    case Select(_, ctes, _, _, _, _, _, _, _, limit) =>
      NeedsCtes(ctes, Down(n, p)) + NeedsSelect(n, p) + NeedsBound(limit, Body(n, p))
    case SetOp(_, _, ctes, l, r, limit) =>
      NeedsCtes(ctes, Down(n, p)) + NeedsQuery(l, Body(n, p)) + NeedsQuery(r, Body(n, p))
          + NeedsBound(limit, Body(n, p))
    case Subquery(q, _, _, _) => NeedsQuery(q, Down(n, p))
    case Paren(q) => NeedsQuery(q, Down(n, p))
    case Values(items, _, _) => NeedsTuples(items, Down(n, p))
    case _ => {}
  }
}
