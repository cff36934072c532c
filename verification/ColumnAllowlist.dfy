/** The column allowlist: `check_columns`, and what passing it means. */
module ColumnAllowlist {
  import opened Sequences
  import opened Syntax
  import opened Text
  import opened Traversal
  import opened Policy
  import opened Tables
  import opened TableAllowlist

  predicate IsStar(n: Node) { n.Star? }

  predicate IsSubquery(n: Node) { n.Subquery? }

  predicate IsLateral(n: Node) { n.Lateral? }

  const COLUMN_NOT_ALLOWED := Violation("column_not_allowed", High, BlockIt)

  // ---------------------------------------------------------------- what the loops collect

  /** The tables with a column restriction. */
  function Restricted(allowed: Allowlist): map<string, set<string>> {
    map k | k in allowed && allowed[k].Some? :: allowed[k].value
  }

  /** The allowed columns of a reference, if it is restricted. */
  function ColumnsFor(t: Node, restricted: map<string, set<string>>): Option<set<string>>
    requires t.Table?
  {
    var key := FirstKey(KeyCandidates(t), restricted.Keys);
    if key.Some? then Some(restricted[key.value]) else None
  }

  /** A restricted reference registers its name and its alias. */
  function Register(t: Located, restricted: map<string, set<string>>, m: map<string, set<string>>): map<string,
        set<string>>
  {
    if !t.node.Table? || ColumnsFor(t.node, restricted).None? then m
    else
      var cols := ColumnsFor(t.node, restricted).value;
      var named := m[t.node.name := cols];
      if t.node.alias != "" then named[t.node.alias := cols] else named
  }

  function ByName(ts: seq<Located>, restricted: map<string, set<string>>, m: map<string, set<string>>): map<string,
        set<string>>
  {
    if ts == [] then m else ByName(ts[1..], restricted, Register(ts[0], restricted, m))
  }

  function RealColumns(ts: seq<Located>, restricted: map<string, set<string>>): seq<set<string>> {
    if ts == [] then []
    else (if ts[0].node.Table? && ColumnsFor(ts[0].node, restricted).Some? then
        [ColumnsFor(ts[0].node, restricted).value] else [])
         + RealColumns(ts[1..], restricted)
  }

  function UnionOf(sets: seq<set<string>>): set<string> {
    if sets == [] then {} else sets[0] + UnionOf(sets[1..])
  }

  /** A derived table: its SELECT and its column aliases. */
  datatype Derived = Derived(inner: Node, columns: seq<string>)

  function DerivedSubqueries(subs: seq<Located>, m: map<string, Derived>): map<string, Derived> {
    if subs == [] then m
    else
      var s := subs[0].node;
      var known := s.Subquery? && s.alias != "" && s.arg.Select?;
      DerivedSubqueries(subs[1..], if known then m[s.alias := Derived(s.arg, s.columns)] else m)
  }

  function LateralInner(n: Node): Node
    requires n.Lateral?
  {
    if n.arg.Subquery? then n.arg.arg else n.arg
  }

  function DerivedLaterals(lats: seq<Located>, m: map<string, Derived>): map<string, Derived> {
    if lats == [] then m
    else
      var l := lats[0].node;
      var known := l.Lateral? && l.alias != "" && LateralInner(l).Select?;
      DerivedLaterals(lats[1..], if known then m[l.alias := Derived(LateralInner(l), l.columns)] else m)
  }

  /** The derived tables of a statement: subqueries with an alias, then LATERAL ones. */
  function DerivedTables(stmt: Node): map<string, Derived> {
    DerivedLaterals(FindAll(stmt, IsLateral), DerivedSubqueries(FindAll(stmt, IsSubquery), map[]))
  }

  function Qualifiers(ts: seq<Located>): set<string> {
    if ts == [] then {}
    else (if ts[0].node.Table? then {ts[0].node.name} + (if ts[0].node.alias != "" then {ts[0].node.alias} else {})
        else {})
         + Qualifiers(ts[1..])
  }

  /** Everything the column loop consults. */
  datatype Books = Books(
    ctes: set<string>,
    restricted: map<string, set<string>>,
    byName: map<string, set<string>>,
    realCols: seq<set<string>>,
    derived: map<string, Derived>,
    quals: set<string>,
    single: Option<set<string>>,
    union: set<string>)

  function BooksOf(stmt: Node, tables: seq<Located>, allowed: Allowlist): Books {
    var restricted := Restricted(allowed);
    var realCols := RealColumns(tables, restricted);
    var derived := DerivedTables(stmt);
    Books(CteAliases(stmt), restricted, ByName(tables, restricted, map[]), realCols, derived,
          CteAliases(stmt) + derived.Keys + Qualifiers(tables),
          if |tables| == 1 && |realCols| == 1 then Some(realCols[0]) else None,
          UnionOf(realCols))
  }

  // ---------------------------------------------------------------- stars

  /** The SELECT with a given identity. */
  function SelectById(selects: seq<Located>, id: nat): Option<Node> {
    if selects == [] then None
    else if selects[0].node.Select? && selects[0].node.id == id then Some(selects[0].node)
    else SelectById(selects[1..], id)
  }

  predicate AnyRestricted(ts: seq<Located>, restricted: map<string, set<string>>) {
    ts != [] && ((ts[0].node.Table? && ColumnsFor(ts[0].node, restricted).Some?) || AnyRestricted(ts[1..], restricted))
  }

  /** The table references in the SELECT that owns a star. */
  function StarSources(stmt: Node, star: Located): seq<Located> {
    var id := NearestSelect(star.up);
    var sel := if id.Some? then SelectById(FindAll(stmt, IsSelect), id.value) else None;
    if sel.Some? then FindAll(sel.value, IsTable) else []
  }

  /** Does this star stop the loop with a violation? */
  predicate StarHit(stmt: Node, star: Located, b: Books) {
    if star.up != [] && star.up[0].CountTag? then false
    else if star.up != [] && star.up[0].ColumnTag? && star.up[0].table != "" then star.up[0].table in b.byName
    else
      var srcs := StarSources(stmt, star);
      srcs == [] || AnyRestricted(srcs, b.restricted)
  }

  predicate AnyStarHit(stmt: Node, stars: seq<Located>, b: Books) {
    stars != [] && (StarHit(stmt, stars[0], b) || AnyStarHit(stmt, stars[1..], b))
  }

  // ---------------------------------------------------------------- USING

  function UsingNames(names: seq<string>, b: Books): seq<Violation> {
    if names == [] then []
    else (if b.realCols != [] && Lower(names[0]) !in b.union then [COLUMN_NOT_ALLOWED] else [])
         + UsingNames(names[1..], b)
  }

  function UsingViolations(joins: seq<Located>, b: Books): seq<Violation> {
    if joins == [] then []
    else (if joins[0].node.Join? then UsingNames(joins[0].node.using, b) else []) + UsingViolations(joins[1..], b)
  }

  // ---------------------------------------------------------------- derived columns

  /** `_inner_real_table`. */
  function InnerRealTable(ts: seq<Located>, q: string): Option<string> {
    if ts == [] then None
    else
      var t := ts[0].node;
      if t.Table? && (q == "" || t.name == q || t.alias == q) then Some(t.name) else InnerRealTable(ts[1..], q)
  }

  method FindInnerRealTable(inner: Node, q: string) returns (name: Option<string>)
    ensures name == InnerRealTable(FindAll(inner, IsTable), q)
  {
    var ts := FindAll(inner, IsTable);
    var i := 0;
    while i < |ts|
      invariant 0 <= i <= |ts|
      invariant InnerRealTable(ts[i..], q) == InnerRealTable(ts, q)
    {
      var t := ts[i].node;
      assert ts[i..][0] == ts[i] && ts[i..][1..] == ts[i + 1..];
      if t.Table? && (q == "" || t.name == q || t.alias == q) {
        return Some(t.name);
      }
      i := i + 1;
    }
    return None;
  }

  function LowerAll(xs: seq<string>): (r: seq<string>)
    ensures |r| == |xs|
  {
    if xs == [] then [] else [Lower(xs[0])] + LowerAll(xs[1..])
  }

  function PositionOf(xs: seq<string>, x: string): (i: nat)
    ensures i <= |xs|
    ensures i < |xs| <==> x in xs
  {
    if xs == [] then 0 else if xs[0] == x then 0 else 1 + PositionOf(xs[1..], x)
  }

  /** The projection named `name`, or the number of projections. */
  function NamedItem(items: seq<Node>, name: string): (i: nat)
    ensures i <= |items|
  {
    if items == [] then 0
    else if AliasOrName(items[0]) != "" && Lower(AliasOrName(items[0])) == Lower(name) then 0
    else 1 + NamedItem(items[1..], name)
  }

  function TargetItem(d: Derived, name: string): Option<Node>
    requires d.inner.Select?
  {
    var idx := PositionOf(LowerAll(d.columns), Lower(name));
    if idx < |d.columns| && idx < |d.inner.items| then Some(d.inner.items[idx])
    else
      var k := NamedItem(d.inner.items, name);
      if k < |d.inner.items| then Some(d.inner.items[k]) else None
  }

  /** `_resolve_derived_column`: the base table and column behind a derived column. */
  function ResolveDerived(d: Derived, name: string): Option<(string, string)>
    requires d.inner.Select?
  {
    var target := TargetItem(d, name);
    if target.None? then None
    else
      var col := if target.value.Alias? then target.value.arg else target.value;
      if !IsColumn(col) then None
      else
        var found := InnerRealTable(FindAll(d.inner, IsTable), col.table);
        if found.Some? then Some((found.value, ColumnName(col))) else None
  }

  method RunResolveDerived(d: Derived, name: string) returns (r: Option<(string, string)>)
    requires d.inner.Select?
    ensures r == ResolveDerived(d, name)
  {
    var items := d.inner.items;
    var target: Option<Node> := None;
    if d.columns != [] {
      var idx := PositionOf(LowerAll(d.columns), Lower(name));
      if idx < |d.columns| && idx < |items| {
        target := Some(items[idx]);
      }
    }
    if target.None? {
      var i := 0;
      while i < |items| && target.None?
        invariant 0 <= i <= |items|
        invariant target.None? ==> NamedItem(items, name) == i + NamedItem(items[i..], name)
        invariant target.Some? ==> NamedItem(items, name) < |items| && target.value == items[NamedItem(items, name)]
      {
        assert items[i..][0] == items[i] && items[i..][1..] == items[i + 1..];
        var out := AliasOrName(items[i]);
        if out != "" && Lower(out) == Lower(name) {
          target := Some(items[i]);
        }
        i := i + 1;
      }
    }
    if target.None? {
      return None;
    }
    var col := if target.value.Alias? then target.value.arg else target.value;
    if !IsColumn(col) {
      return None;
    }
    var found := FindInnerRealTable(d.inner, col.table);
    return if found.Some? then Some((found.value, ColumnName(col))) else None;
  }

  // ---------------------------------------------------------------- columns

  /** Is a derived column that resolves to a restricted table outside its allowed columns? */
  predicate DerivedForbidden(resolved: Option<(string, string)>, restricted: map<string, set<string>>) {
    && resolved.Some?
    && Lower(resolved.value.0) in restricted
    && Lower(resolved.value.1) !in restricted[Lower(resolved.value.0)]
  }

  predicate QualifiedForbidden(q: string, name: string, b: Books) {
    if q in b.byName then Lower(name) !in b.byName[q]
    else if q in b.ctes then false
    else if q in b.derived then
      b.derived[q].inner.Select? && DerivedForbidden(ResolveDerived(b.derived[q], name), b.restricted)
    else q !in b.quals
  }

  predicate UnqualifiedForbidden(name: string, b: Books) {
    || Lower(name) in b.byName
    || (b.single.Some? && Lower(name) !in b.single.value)
    || (b.realCols != [] && Lower(name) !in b.union)
  }

  predicate ColumnForbidden(col: Node, b: Books)
    requires IsColumn(col)
  {
    if col.table != "" then QualifiedForbidden(col.table, ColumnName(col), b)
        else UnqualifiedForbidden(ColumnName(col), b)
  }

  function ColumnViolations(cols: seq<Located>, b: Books): seq<Violation> {
    if cols == [] then []
    else (if IsColumn(cols[0].node) && ColumnForbidden(cols[0].node, b) then [COLUMN_NOT_ALLOWED] else [])
         + ColumnViolations(cols[1..], b)
  }

  function CheckColumns(stmt: Node, tables: seq<Located>, policy: GuardPolicy): seq<Violation> {
    if policy.allowedTables.None? || Restricted(policy.allowedTables.value) == map[] then []
    else
      var b := BooksOf(stmt, tables, policy.allowedTables.value);
      if b.byName == map[] then []
      else ColumnReport(stmt, FindAll(stmt, IsStar), FindAll(stmt, IsJoin), FindAll(stmt, IsColumn), b)
  }

  /** The violations over the stars, joins and columns of a statement. */
  function ColumnReport(stmt: Node, stars: seq<Located>, joins: seq<Located>, cols: seq<Located>,
        b: Books): seq<Violation>
  {
    (if AnyStarHit(stmt, stars, b) then [COLUMN_NOT_ALLOWED] else [])
    + UsingViolations(joins, b)
    + ColumnViolations(cols, b)
  }

  // ---------------------------------------------------------------- the loops

  method CollectBooks(stmt: Node, tables: seq<Located>, allowed: Allowlist) returns (b: Books)
    ensures b == BooksOf(stmt, tables, allowed)
  {
    var ctes := CteAliases(stmt);
    var restricted := Restricted(allowed);
    var byName, realCols := CollectRestricted(tables, restricted);
    var derived := CollectDerived(stmt);
    var quals := ctes + derived.Keys;
    var i := 0;
    while i < |tables|
      invariant 0 <= i <= |tables|
      invariant quals + Qualifiers(tables[i..]) == ctes + derived.Keys + Qualifiers(tables)
    {
      var t := tables[i].node;
      assert tables[i..][0] == tables[i] && tables[i..][1..] == tables[i + 1..];
      if t.Table? {
        quals := quals + {t.name};
        if t.alias != "" {
          quals := quals + {t.alias};
        }
      }
      i := i + 1;
    }
    var single := if |tables| == 1 && |realCols| == 1 then Some(realCols[0]) else None;
    b := Books(ctes, restricted, byName, realCols, derived, quals, single, UnionOf(realCols));
  }

  lemma {:induction false} NextReference(ts: seq<Located>, i: nat, restricted: map<string, set<string>>,
        m: map<string, set<string>>)
    requires i < |ts|
    ensures ByName(ts[i..], restricted, m) == ByName(ts[i + 1..], restricted, Register(ts[i], restricted, m))
    ensures var t := ts[i].node;
      RealColumns(ts[i..], restricted) ==
        (if t.Table? && ColumnsFor(t, restricted).Some? then [ColumnsFor(t, restricted).value] else [])
        + RealColumns(ts[i + 1..], restricted)
  {
    assert ts[i..][0] == ts[i] && ts[i..][1..] == ts[i + 1..];
  }

  method CollectRestricted(tables: seq<Located>, restricted: map<string, set<string>>)
    returns (byName: map<string, set<string>>, realCols: seq<set<string>>)
    ensures byName == ByName(tables, restricted, map[])
    ensures realCols == RealColumns(tables, restricted)
  {
    byName, realCols := map[], [];
    var i := 0;
    while i < |tables|
      invariant 0 <= i <= |tables|
      invariant ByName(tables[i..], restricted, byName) == ByName(tables, restricted, map[])
      invariant realCols + RealColumns(tables[i..], restricted) == RealColumns(tables, restricted)
    {
      NextReference(tables, i, restricted, byName);
      var t := tables[i].node;
      if t.Table? {
        var cols := ColumnsFor(t, restricted);
        if cols.Some? {
          AppendNext(realCols, [cols.value], RealColumns(tables[i + 1..], restricted));
          byName := byName[t.name := cols.value];
          if t.alias != "" {
            byName := byName[t.alias := cols.value];
          }
          realCols := realCols + [cols.value];
        }
      }
      i := i + 1;
    }
  }

  method CollectDerived(stmt: Node) returns (derived: map<string, Derived>)
    ensures derived == DerivedTables(stmt)
  {
    derived := map[];
    var subs, lats := FindAll(stmt, IsSubquery), FindAll(stmt, IsLateral);
    var i := 0;
    while i < |subs|
      invariant 0 <= i <= |subs|
      invariant DerivedSubqueries(subs[i..], derived) == DerivedSubqueries(subs, map[])
    {
      var s := subs[i].node;
      assert subs[i..][0] == subs[i] && subs[i..][1..] == subs[i + 1..];
      if s.Subquery? && s.alias != "" && s.arg.Select? {
        derived := derived[s.alias := Derived(s.arg, s.columns)];
      }
      i := i + 1;
    }
    ghost var mid := DerivedSubqueries(subs, map[]);
    assert derived == mid;
    i := 0;
    while i < |lats|
      invariant 0 <= i <= |lats|
      invariant DerivedLaterals(lats[i..], derived) == DerivedLaterals(lats, mid)
    {
      var l := lats[i].node;
      assert lats[i..][0] == lats[i] && lats[i..][1..] == lats[i + 1..];
      if l.Lateral? && l.alias != "" && LateralInner(l).Select? {
        derived := derived[l.alias := Derived(LateralInner(l), l.columns)];
      }
      i := i + 1;
    }
  }

  /** The star loop, which stops at the first violation. */
  method RunStars(stmt: Node, stars: seq<Located>, b: Books) returns (violations: seq<Violation>)
    ensures violations == if AnyStarHit(stmt, stars, b) then [COLUMN_NOT_ALLOWED] else []
  {
    violations := [];
    var i := 0;
    while i < |stars|
      invariant 0 <= i <= |stars|
      invariant violations == []
      invariant AnyStarHit(stmt, stars[i..], b) == AnyStarHit(stmt, stars, b)
    {
      assert stars[i..][0] == stars[i] && stars[i..][1..] == stars[i + 1..];
      if StarHit(stmt, stars[i], b) {
        violations := [COLUMN_NOT_ALLOWED];
        break;
      }
      i := i + 1;
    }
  }

  method RunUsing(joins: seq<Located>, b: Books) returns (violations: seq<Violation>)
    ensures violations == UsingViolations(joins, b)
  {
    violations := [];
    var i := 0;
    while i < |joins|
      invariant 0 <= i <= |joins|
      invariant violations + UsingViolations(joins[i..], b) == UsingViolations(joins, b)
    {
      assert joins[i..][0] == joins[i] && joins[i..][1..] == joins[i + 1..];
      if joins[i].node.Join? {
        var found := RunUsingNames(joins[i].node.using, b);
        violations := violations + found;
      }
      i := i + 1;
    }
  }

  method RunUsingNames(names: seq<string>, b: Books) returns (violations: seq<Violation>)
    ensures violations == UsingNames(names, b)
  {
    violations := [];
    var k := 0;
    while k < |names|
      invariant 0 <= k <= |names|
      invariant violations + UsingNames(names[k..], b) == UsingNames(names, b)
    {
      assert names[k..][0] == names[k] && names[k..][1..] == names[k + 1..];
      if b.realCols != [] && Lower(names[k]) !in b.union {
        violations := violations + [COLUMN_NOT_ALLOWED];
      }
      k := k + 1;
    }
  }

  method RunColumns(cols: seq<Located>, b: Books) returns (violations: seq<Violation>)
    ensures violations == ColumnViolations(cols, b)
  {
    violations := [];
    var i := 0;
    while i < |cols|
      invariant 0 <= i <= |cols|
      invariant violations + ColumnViolations(cols[i..], b) == ColumnViolations(cols, b)
    {
      assert cols[i..][0] == cols[i] && cols[i..][1..] == cols[i + 1..];
      var col := cols[i].node;
      if IsColumn(col) {
        var forbidden := JudgeColumn(col, b);
        if forbidden {
          violations := violations + [COLUMN_NOT_ALLOWED];
        }
      }
      i := i + 1;
    }
  }

  /** The body of the column loop. */
  method JudgeColumn(col: Node, b: Books) returns (forbidden: bool)
    requires IsColumn(col)
    ensures forbidden == ColumnForbidden(col, b)
  {
    var q, name := col.table, ColumnName(col);
    if q != "" {
      if q in b.byName {
        forbidden := Lower(name) !in b.byName[q];
      } else if q in b.ctes {
        forbidden := false;
      } else if q in b.derived {
        forbidden := false;
        if b.derived[q].inner.Select? {
          var resolved := RunResolveDerived(b.derived[q], name);
          forbidden := DerivedForbidden(resolved, b.restricted);
        }
      } else {
        forbidden := q !in b.quals;
      }
    } else if Lower(name) in b.byName {
      forbidden := true;
    } else if b.single.Some? && Lower(name) !in b.single.value {
      forbidden := true;
    } else {
      forbidden := b.realCols != [] && Lower(name) !in b.union;
    }
  }

  method RunCheckColumns(stmt: Node, tables: seq<Located>, policy: GuardPolicy) returns (violations: seq<Violation>)
    ensures violations == CheckColumns(stmt, tables, policy)
  {
    if policy.allowedTables.None? || Restricted(policy.allowedTables.value) == map[] {
      return [];
    }
    var b := CollectBooks(stmt, tables, policy.allowedTables.value);
    if b.byName == map[] {
      return [];
    }
    violations := RunColumnReport(stmt, FindAll(stmt, IsStar), FindAll(stmt, IsJoin), FindAll(stmt, IsColumn), b);
  }

  method RunColumnReport(stmt: Node, stars: seq<Located>, joins: seq<Located>, cols: seq<Located>, b: Books)
    returns (violations: seq<Violation>)
    ensures violations == ColumnReport(stmt, stars, joins, cols, b)
  {
    var starred := RunStars(stmt, stars, b);
    var using := RunUsing(joins, b);
    var columns := RunColumns(cols, b);
    violations := starred + using + columns;
  }
}
