/** What passing the column allowlist means: the result cannot depend on a hidden column. */
module ColumnMeaning {
  import opened Syntax
  import opened Text
  import opened Traversal
  import opened Semantics
  import opened Scoping
  import opened Origins
  import opened Noninterference
  import opened Policy
  import opened Tables
  import opened TableAllowlist
  import opened ColumnAllowlist

  /** The listed tables that have a column list. */
  function RestrictedKeys(allowed: Allowlist): set<string> {
    set k | k in allowed && allowed[k].Some?
  }

  /** The column list of a reference is the one under its own key among the tables with column lists. */
  lemma {:induction false} ColumnsForExactly(t: Node, allowed: Allowlist)
    requires t.Table?
    ensures var key := OwnKey(t.db, t.name, RestrictedKeys(allowed));
      ColumnsFor(t, Restricted(allowed)) == if key.Some? then Some(allowed[key.value].value) else None
  {
    assert Restricted(allowed).Keys == RestrictedKeys(allowed);
    CandidatesExactly(t, RestrictedKeys(allowed));
  }

  /** The allowlist as a view of the database: of a restricted table only the allowed columns show. */
  function ColumnAccess(policy: GuardPolicy): Access {
    (t: TableName) =>
      if policy.allowedTables.None? then Some(All)
      else if OwnKey(t.db, t.name, policy.allowedTables.value.Keys).None? then None
      else
        var key := OwnKey(t.db, t.name, RestrictedKeys(policy.allowedTables.value));
        if key.Some? then Some(Only(policy.allowedTables.value[key.value].value)) else Some(All)
  }

  /** What the parser guarantees about a qualified star. */
  ghost predicate StarsWellFormed(nodes: seq<Located>) {
    forall l :: l in nodes && l.node.StarColumn? ==> l.node.table != "" && l.node.arg.Star?
  }

  /** The restricted references. */
  predicate IsRestricted(t: Node, restricted: map<string, set<string>>) {
    t.Table? && ColumnsFor(t, restricted).Some?
  }

  predicate Registers(t: Node, key: string)
    requires t.Table?
  {
    key == t.name || (t.alias != "" && key == t.alias)
  }

  /**
   * The statements for which the check is a guarantee; every clause can be read off the statement.
   * - no column alias list on a restricted table, and no unqualified column that is called like a
   *   restricted source whose name is not in lower case;
   * - no two restricted references share a name or alias with different column sets;
   * - an unqualified or USING column is allowed by every restricted reference, or is an unqualified
   *   column of a statement that reads exactly one table; no NATURAL join.
   */
  ghost predicate ColumnReady(nodes: seq<Located>, tables: seq<Located>, restricted: map<string, set<string>>) {
    && StarsWellFormed(nodes)
    && (forall t :: t in tables && IsRestricted(t.node, restricted) ==> t.node.columns == [])
    && (forall l, t :: l in nodes && t in tables && CalledLike(l.node, t.node, restricted) ==>
        Lower(l.node.name) == l.node.name)
    && (forall t, u, key :: SharesKey(t, u, key, tables, restricted) ==>
        ColumnsFor(t.node, restricted) == ColumnsFor(u.node, restricted))
    && (forall l :: l in nodes && l.node.Column? && l.node.table == "" ==>
          |tables| == 1 || EveryoneAllows(l.node.name, tables, restricted))
    && (forall l :: l in nodes && l.node.Join? ==>
          !IsNatural(l.node) && forall c :: c in l.node.using ==> EveryoneAllows(c, tables, restricted))
  }

  /** An unqualified column with the name of a restricted source. */
  predicate CalledLike(col: Node, t: Node, restricted: map<string, set<string>>) {
    col.Column? && col.table == "" && IsRestricted(t, restricted) && col.name == AliasOrName(t)
  }

  ghost predicate SharesKey(t: Located, u: Located, key: string, tables: seq<Located>, restricted: map<string,
        set<string>>)
  {
    && t in tables && u in tables
    && IsRestricted(t.node, restricted) && IsRestricted(u.node, restricted)
    && Registers(t.node, key) && Registers(u.node, key)
  }

  ghost predicate EveryoneAllows(c: string, tables: seq<Located>, restricted: map<string, set<string>>) {
    forall t :: t in tables && IsRestricted(t.node, restricted) ==> Lower(c) in ColumnsFor(t.node, restricted).value
  }

  // ---------------------------------------------------------------- the books

  /** Once `key` stands for `cols` and no later reference disagrees, it keeps standing for `cols`. */
  lemma {:induction false} KeyStays(ts: seq<Located>, restricted: map<string, set<string>>, m: map<string,
        set<string>>, key: string, cols: set<string>)
    requires key in m && m[key] == cols
    requires forall u :: u in ts && IsRestricted(u.node, restricted) && Registers(u.node, key) ==>
        ColumnsFor(u.node, restricted).value == cols
    ensures key in ByName(ts, restricted, m) && ByName(ts, restricted, m)[key] == cols
    decreases |ts|
  {
    if ts != [] {
      KeyStays(ts[1..], restricted, Register(ts[0], restricted, m), key, cols);
    }
  }

  /** A restricted reference is known by its name and by its alias. */
  lemma {:induction false} KeyKnown(ts: seq<Located>, restricted: map<string, set<string>>, m: map<string,
        set<string>>, t: Located, key: string)
    requires t in ts && IsRestricted(t.node, restricted) && Registers(t.node, key)
    requires forall u :: u in ts && IsRestricted(u.node, restricted) && Registers(u.node, key) ==>
      ColumnsFor(u.node, restricted) == ColumnsFor(t.node, restricted)
    ensures key in ByName(ts, restricted, m) && ByName(ts, restricted, m)[key] == ColumnsFor(t.node, restricted).value
    decreases |ts|
  {
    if t == ts[0] {
      KeyStays(ts[1..], restricted, Register(ts[0], restricted, m), key, ColumnsFor(t.node, restricted).value);
    } else {
      KeyKnown(ts[1..], restricted, Register(ts[0], restricted, m), t, key);
    }
  }

  lemma {:induction false} NoViolation(cols: seq<Located>, b: Books, col: Located)
    requires ColumnViolations(cols, b) == [] && col in cols && IsColumn(col.node)
    ensures !ColumnForbidden(col.node, b)
  {
    if col != cols[0] {
      NoViolation(cols[1..], b, col);
    }
  }

  lemma {:induction false} NoStarHit(stmt: Node, stars: seq<Located>, b: Books, star: Located)
    requires !AnyStarHit(stmt, stars, b) && star in stars
    ensures !StarHit(stmt, star, b)
  {
    if star != stars[0] {
      NoStarHit(stmt, stars[1..], b, star);
    }
  }

  lemma {:induction false} AnyRestrictedHas(ts: seq<Located>, restricted: map<string, set<string>>, t: Located)
    requires t in ts && IsRestricted(t.node, restricted)
    ensures AnyRestricted(ts, restricted)
    decreases |ts|
  {
    if t != ts[0] {
      AnyRestrictedHas(ts[1..], restricted, t);
    }
  }

  lemma {:induction false} SelectFound(selects: seq<Located>, s: Located)
    requires s in selects && s.node.Select?
    requires forall u :: u in selects && u.node.Select? && u.node.id == s.node.id ==> u == s
    ensures SelectById(selects, s.node.id) == Some(s.node)
  {
    if s != selects[0] {
      SelectFound(selects[1..], s);
    }
  }

  /** A direct source of a SELECT occurs in that SELECT's own tree. */
  lemma {:induction false} SourceInside(t: Located, s: Located)
    requires s.node.Select? && SourceUpTo(t, s, |s.node.joins|)
    ensures exists l :: Inside(l, s.node) && l.node == t.node
  {
    RootInside(s.node);
    SelectParts(s.node);
    if s.node.from.Some? && s.node.from.value.From? && t == FromSource(s) {
      var f := s.node.from.value;
      KidInside(Root(s.node), f, s.node);
      assert f.arg in Kids(f);
      KidInside(Below(f, Root(s.node)), f.arg, s.node);
    } else {
      var i: nat :| i < |s.node.joins| && s.node.joins[i].Join? && t == JoinSource(s, i);
      var j := s.node.joins[i];
      KidInside(Root(s.node), j, s.node);
      assert j.arg in Parts(j) && j.arg in Kids(j);
      KidInside(Below(j, Root(s.node)), j.arg, s.node);
    }
  }

  // ---------------------------------------------------------------- the premise of the theorem

  /** The books list every restricted reference of the statement. */
  ghost predicate BooksRight(b: Books, tables: seq<Located>, restricted: map<string, set<string>>) {
    && b.restricted == restricted
    && (forall t, key :: t in tables && IsRestricted(t.node, restricted) && Registers(t.node, key) ==>
          key in b.byName && b.byName[key] == ColumnsFor(t.node, restricted).value)
    && (forall t :: tables == [t] && IsRestricted(t.node, restricted) ==>
        b.single == Some(ColumnsFor(t.node, restricted).value))
  }

  /** No star and no column of the statement is reported. */
  ghost predicate Clear(whole: Whole, b: Books) {
    && (forall l :: l in whole.nodes && IsColumn(l.node) ==> !ColumnForbidden(l.node, b))
    && (forall l :: l in whole.nodes && l.node.Star? ==> !StarHit(whole.node, l, b))
    && (forall l :: l in whole.nodes && l.node.StarColumn? ==> l.node.table !in b.byName)
  }

  /** What the tree says about its SELECT nodes. */
  ghost predicate Linked(whole: Whole) {
    && (forall s :: s in whole.nodes && s.node.Select? ==>
        SelectById(FindAll(whole.node, IsSelect), s.node.id) == Some(s.node))
    && (forall s, k: nat :: s in whole.nodes && s.node.Select? && k < |s.node.joins| ==>
        Below(s.node.joins[k], s) in whole.nodes)
  }

  ghost predicate SelectsUnique(nodes: seq<Located>) {
    forall a, b :: a in nodes && b in nodes && a.node.Select? && b.node.Select? && a.node.id == b.node.id ==> a == b
  }

  /** Both checks pass on a ready statement. */
  ghost predicate Passed(whole: Whole, tables: seq<Located>, allowed: Allowlist, b: Books) {
    && whole.outer == []
    && Linked(whole)
    && (forall t :: t in tables <==> t in whole.bases)
    && (forall t :: t in tables ==> t in whole.nodes && t.node.Table? && MatchTable(t.node, allowed).Some?)
    && ColumnReady(whole.nodes, tables, Restricted(allowed))
    && BooksRight(b, tables, Restricted(allowed))
    && Clear(whole, b)
  }

  lemma {:induction false} ByNameOf(tables: seq<Located>, restricted: map<string, set<string>>, t: Located, key: string)
    requires t in tables && IsRestricted(t.node, restricted) && Registers(t.node, key)
    requires forall u, v, k :: SharesKey(u, v, k, tables, restricted) ==>
        ColumnsFor(u.node, restricted) == ColumnsFor(v.node, restricted)
    ensures key in ByName(tables, restricted, map[])
    ensures ByName(tables, restricted, map[])[key] == ColumnsFor(t.node, restricted).value
  {
    forall u | u in tables && IsRestricted(u.node, restricted) && Registers(u.node, key)
      ensures ColumnsFor(u.node, restricted) == ColumnsFor(t.node, restricted)
    {
      assert SharesKey(t, u, key, tables, restricted);
    }
    KeyKnown(tables, restricted, map[], t, key);
  }

  /** In a statement that reads one table the check compares with that table's columns. */
  lemma {:induction false} SingleTable(stmt: Node, tables: seq<Located>, allowed: Allowlist, t: Located)
    requires tables == [t] && IsRestricted(t.node, Restricted(allowed))
    ensures BooksOf(stmt, tables, allowed).single == Some(ColumnsFor(t.node, Restricted(allowed)).value)
  {
    var r := Restricted(allowed);
    assert RealColumns(tables, r) == [ColumnsFor(t.node, r).value] + RealColumns([], r);
  }

  /** The books are right as soon as they hold what the loops collect. */
  lemma {:induction false} CollectedRight(b: Books, tables: seq<Located>, r: map<string, set<string>>)
    requires forall u, v, k :: SharesKey(u, v, k, tables, r) ==> ColumnsFor(u.node, r) == ColumnsFor(v.node, r)
    requires b.restricted == r && b.byName == ByName(tables, r, map[])
    requires forall t :: tables == [t] && IsRestricted(t.node, r) ==> b.single == Some(ColumnsFor(t.node, r).value)
    ensures BooksRight(b, tables, r)
  {
    forall t, key | t in tables && IsRestricted(t.node, r) && Registers(t.node, key)
      ensures key in b.byName && b.byName[key] == ColumnsFor(t.node, r).value
    {
      ByNameOf(tables, r, t, key);
    }
  }

  lemma {:induction false} BooksAreRight(stmt: Node, tables: seq<Located>, allowed: Allowlist)
    requires forall u, v, k :: SharesKey(u, v, k, tables, Restricted(allowed)) ==>
      ColumnsFor(u.node, Restricted(allowed)) == ColumnsFor(v.node, Restricted(allowed))
    ensures BooksRight(BooksOf(stmt, tables, allowed), tables, Restricted(allowed))
  {
    var r := Restricted(allowed);
    forall t | tables == [t] && IsRestricted(t.node, r)
      ensures BooksOf(stmt, tables, allowed).single == Some(ColumnsFor(t.node, r).value)
    {
      SingleTable(stmt, tables, allowed, t);
    }
    CollectedRight(BooksOf(stmt, tables, allowed), tables, r);
  }

  lemma {:induction false} ReportClear(whole: Whole, b: Books)
    requires Faithful(whole)
    requires ColumnReport(whole.node, FindAll(whole.node, IsStar), FindAll(whole.node, IsJoin),
        FindAll(whole.node, IsColumn), b) == []
    requires StarsWellFormed(whole.nodes)
    ensures Clear(whole, b)
  {
    forall l | l in whole.nodes && l.node.StarColumn?
      ensures l.node.table !in b.byName
    {
      KidInside(l, l.node.arg, whole.node);
      FoundIffInside(whole.node, IsStar, Below(l.node.arg, l));
      NoStarHit(whole.node, FindAll(whole.node, IsStar), b, Below(l.node.arg, l));
    }
    forall l | l in whole.nodes && IsColumn(l.node)
      ensures !ColumnForbidden(l.node, b)
    {
      FoundIffInside(whole.node, IsColumn, l);
      NoViolation(FindAll(whole.node, IsColumn), b, l);
    }
    forall l | l in whole.nodes && l.node.Star?
      ensures !StarHit(whole.node, l, b)
    {
      FoundIffInside(whole.node, IsStar, l);
      NoStarHit(whole.node, FindAll(whole.node, IsStar), b, l);
    }
  }

  /** The view of a bind: nothing hidden, or the columns of a restricted reference of the statement. */
  lemma {:induction false} VisOfBind(k: Bind, policy: GuardPolicy)
    requires policy.allowedTables.Some?
    requires k.table.Some? ==>
      k.table.value.node.Table? && MatchTable(k.table.value.node, policy.allowedTables.value).Some?
    ensures VisOf(k, ColumnAccess(policy)) == All || (
      && k.table.Some?
      && IsRestricted(k.table.value.node, Restricted(policy.allowedTables.value))
      && VisOf(k, ColumnAccess(policy))
          == Only(ColumnsFor(k.table.value.node, Restricted(policy.allowedTables.value)).value))
  {
    if k.table.Some? {
      var t := k.table.value.node;
      MatchTableExactly(t, policy.allowedTables.value);
      ColumnsForExactly(t, policy.allowedTables.value);
    }
  }

  lemma {:induction false} RestrictedBind(binds: seq<Bind>, s: Located, n: nat, k: Bind, whole: Whole,
        tables: seq<Located>, policy: GuardPolicy, b: Books)
    requires policy.allowedTables.Some? && Passed(whole, tables, policy.allowedTables.value, b)
    requires s.node.Select? && BindsUpTo(binds, s, n, whole) && k in binds
    requires VisOf(k, ColumnAccess(policy)) != All
    ensures k.table.Some? && k.table.value in tables && SourceUpTo(k.table.value, s, n)
    ensures IsRestricted(k.table.value.node, Restricted(policy.allowedTables.value))
    ensures k.alias == AliasOrName(k.table.value.node) && Registers(k.table.value.node, k.alias)
    ensures VisOf(k, ColumnAccess(policy))
        == Only(ColumnsFor(k.table.value.node, Restricted(policy.allowedTables.value)).value)
  {
    VisOfBind(k, policy);
  }

  /** `q.c` against one source called `q`. */
  lemma {:induction false} QualifiedBindOk(col: Located, binds: seq<Bind>, s: Located, k: Bind, whole: Whole,
        tables: seq<Located>, policy: GuardPolicy, b: Books)
    requires policy.allowedTables.Some? && Passed(whole, tables, policy.allowedTables.value, b)
    requires col in whole.nodes && col.node.Column? && col.node.table != ""
    requires s.node.Select? && BindsUpTo(binds, s, |s.node.joins|, whole) && k in binds && k.alias == col.node.table
    ensures Sees(VisOf(k, ColumnAccess(policy)), col.node.name)
  {
    if VisOf(k, ColumnAccess(policy)) != All {
      RestrictedBind(binds, s, |s.node.joins|, k, whole, tables, policy, b);
    }
  }

  lemma {:induction false} QualifiedOk(col: Located, sc: Scope, whole: Whole, tables: seq<Located>,
        policy: GuardPolicy, b: Books)
    requires policy.allowedTables.Some? && Passed(whole, tables, policy.allowedTables.value, b)
    requires col in whole.nodes && col.node.Column? && col.node.table != "" && ScopeRooted(sc, whole)
    ensures ColumnOk(sc, col.node.table, col.node.name, ColumnAccess(policy))
  {
    var s :| ScopeOf(sc, s, whole);
    forall k | k in sc.binds && k.alias == col.node.table
      ensures Sees(VisOf(k, ColumnAccess(policy)), col.node.name)
    {
      QualifiedBindOk(col, sc.binds, s, k, whole, tables, policy, b);
    }
  }

  /** An unqualified name the check lets pass, against one restricted reference. */
  lemma {:induction false} UnqualifiedAgainst(name: string, t: Located, tables: seq<Located>, restricted: map<string,
        set<string>>, b: Books)
    requires BooksRight(b, tables, restricted) && t in tables && IsRestricted(t.node, restricted)
    requires !UnqualifiedForbidden(name, b) && (|tables| == 1 || EveryoneAllows(name, tables, restricted))
    requires name == AliasOrName(t.node) ==> Lower(name) == name
    ensures Lower(name) in ColumnsFor(t.node, restricted).value
    ensures AliasOrName(t.node) != name
  {
    assert Registers(t.node, AliasOrName(t.node));
    if |tables| == 1 {
      assert tables == [t];
    }
  }

  lemma {:induction false} UnqualifiedClear(col: Located, whole: Whole, tables: seq<Located>, allowed: Allowlist,
        b: Books)
    requires Passed(whole, tables, allowed, b) && col in whole.nodes && col.node.Column? && col.node.table == ""
    ensures !UnqualifiedForbidden(col.node.name, b)
    ensures |tables| == 1 || EveryoneAllows(col.node.name, tables, Restricted(allowed))
    ensures forall t :: t in tables && CalledLike(col.node, t.node, Restricted(allowed)) ==>
      Lower(col.node.name) == col.node.name
    ensures BooksRight(b, tables, Restricted(allowed))
  {
    assert !ColumnForbidden(col.node, b);
    forall t | t in tables && IsRestricted(t.node, Restricted(allowed)) && col.node.name == AliasOrName(t.node)
      ensures Lower(col.node.name) == col.node.name
    {
      assert CalledLike(col.node, t.node, Restricted(allowed));
    }
  }

  lemma {:induction false} UnqualifiedOk(col: Located, sc: Scope, whole: Whole, tables: seq<Located>,
        policy: GuardPolicy, b: Books)
    requires policy.allowedTables.Some? && Passed(whole, tables, policy.allowedTables.value, b)
    requires col in whole.nodes && col.node.Column? && col.node.table == "" && ScopeRooted(sc, whole)
    ensures ColumnOk(sc, "", col.node.name, ColumnAccess(policy))
  {
    var s :| ScopeOf(sc, s, whole);
    UnqualifiedClear(col, whole, tables, policy.allowedTables.value, b);
    forall k | k in sc.binds
      ensures Sees(VisOf(k, ColumnAccess(policy)), col.node.name)
      ensures k.alias == col.node.name ==> VisOf(k, ColumnAccess(policy)).All?
    {
      if VisOf(k, ColumnAccess(policy)) != All {
        RestrictedBind(sc.binds, s, |s.node.joins|, k, whole, tables, policy, b);
        UnqualifiedAgainst(col.node.name, k.table.value, tables, Restricted(policy.allowedTables.value), b);
      }
    }
  }

  lemma {:induction false} RestrictedSourceFound(t: Located, s: Located, restricted: map<string, set<string>>)
    requires s.node.Select? && SourceUpTo(t, s, |s.node.joins|) && IsRestricted(t.node, restricted)
    ensures AnyRestricted(FindAll(s.node, IsTable), restricted)
  {
    SourceInside(t, s);
    var l :| Inside(l, s.node) && l.node == t.node;
    FoundIffInside(s.node, IsTable, l);
    AnyRestrictedHas(FindAll(s.node, IsTable), restricted, l);
  }

  lemma {:induction false} StarOk(star: Located, sc: Scope, whole: Whole, tables: seq<Located>, policy: GuardPolicy,
        b: Books)
    requires policy.allowedTables.Some? && Passed(whole, tables, policy.allowedTables.value, b)
    requires star in whole.nodes && star.node.Star? && sc.Local? && ScopeRooted(sc, whole)
    requires star.up != [] && star.up[0] == SelectTag(sc.sel)
    ensures AllVisible(sc.binds, ColumnAccess(policy))
  {
    var s :| ScopeOf(sc, s, whole);
    assert !StarHit(whole.node, star, b);
    var restricted := Restricted(policy.allowedTables.value);
    assert !AnyRestricted(FindAll(s.node, IsTable), restricted);
    forall k | k in sc.binds
      ensures VisOf(k, ColumnAccess(policy)).All?
    {
      if VisOf(k, ColumnAccess(policy)) != All {
        RestrictedBind(sc.binds, s, |s.node.joins|, k, whole, tables, policy, b);
        RestrictedSourceFound(k.table.value, s, restricted);
      }
    }
  }

  lemma {:induction false} NotRegistered(t: Node, alias: string, tables: seq<Located>, restricted: map<string,
        set<string>>, b: Books)
    requires BooksRight(b, tables, restricted) && t.Table? && IsRestricted(t, restricted) && Registers(t, alias)
    requires exists l :: l in tables && l.node == t
    ensures alias in b.byName
  {
  }

  lemma {:induction false} TableStarIsOk(col: Located, sc: Scope, whole: Whole, tables: seq<Located>,
        policy: GuardPolicy, b: Books)
    requires policy.allowedTables.Some? && Passed(whole, tables, policy.allowedTables.value, b)
    requires col in whole.nodes && col.node.StarColumn? && ScopeRooted(sc, whole)
    ensures TableStarOk(sc, col.node.table, ColumnAccess(policy))
  {
    var s :| ScopeOf(sc, s, whole);
    assert col.node.table !in b.byName;
    forall k | k in sc.binds && k.alias == col.node.table
      ensures VisOf(k, ColumnAccess(policy)).All?
    {
      if VisOf(k, ColumnAccess(policy)) != All {
        RestrictedBind(sc.binds, s, |s.node.joins|, k, whole, tables, policy, b);
        NotRegistered(k.table.value.node, k.alias, tables, Restricted(policy.allowedTables.value), b);
      }
    }
  }

  lemma {:induction false} UsingAllowed(join: Located, c: string, whole: Whole, tables: seq<Located>,
        restricted: map<string, set<string>>)
    requires ColumnReady(whole.nodes, tables, restricted) && join in whole.nodes && join.node.Join?
        && c in join.node.using
    ensures EveryoneAllows(c, tables, restricted)
  {
  }

  lemma {:induction false} JoinNamesOkHere(join: Located, binds: seq<Bind>, c: string, whole: Whole,
        tables: seq<Located>, policy: GuardPolicy, b: Books)
    requires policy.allowedTables.Some? && Passed(whole, tables, policy.allowedTables.value, b)
    requires join.node.Join? && c in join.node.using && exists s, n: nat :: JoinOf(join, binds, s, n, whole)
    ensures forall k :: k in binds ==> Sees(VisOf(k, ColumnAccess(policy)), c)
  {
    var s, n: nat :| JoinOf(join, binds, s, n, whole);
    assert Below(s.node.joins[n], s) in whole.nodes;
    UsingAllowed(join, c, whole, tables, Restricted(policy.allowedTables.value));
    forall k | k in binds
      ensures Sees(VisOf(k, ColumnAccess(policy)), c)
    {
      if VisOf(k, ColumnAccess(policy)) != All {
        RestrictedBind(binds, s, n + 1, k, whole, tables, policy, b);
      }
    }
  }

  lemma {:induction false} TableIsOk(t: Located, whole: Whole, tables: seq<Located>, policy: GuardPolicy, b: Books)
    requires policy.allowedTables.Some? && Passed(whole, tables, policy.allowedTables.value, b) && t in tables
    ensures Ok(NeedTable(t), ColumnAccess(policy))
  {
    assert KeyCandidates(Table(0, t.node.db, t.node.name, "", [])) == KeyCandidates(t.node);
  }

  lemma {:induction false} ColumnIsOk(col: Located, scopes: seq<Scope>, whole: Whole, tables: seq<Located>,
        policy: GuardPolicy, b: Books)
    requires policy.allowedTables.Some? && Passed(whole, tables, policy.allowedTables.value, b)
    requires Rooted(NeedColumn(col, scopes), whole)
    ensures Ok(NeedColumn(col, scopes), ColumnAccess(policy))
  {
    forall sc | sc in scopes
      ensures ColumnOk(sc, col.node.table, col.node.name, ColumnAccess(policy))
    {
      assert ScopeRooted(sc, whole);
      if col.node.table != "" {
        QualifiedOk(col, sc, whole, tables, policy, b);
      } else {
        UnqualifiedOk(col, sc, whole, tables, policy, b);
      }
    }
  }

  lemma {:induction false} NoNatural(join: Located, binds: seq<Bind>, whole: Whole, tables: seq<Located>,
        policy: GuardPolicy, b: Books)
    requires policy.allowedTables.Some? && Passed(whole, tables, policy.allowedTables.value, b)
    ensures !Rooted(NeedNatural(join, binds), whole)
  {
    forall s, k: nat | JoinOf(join, binds, s, k, whole)
      ensures !IsNatural(s.node.joins[k])
    {
      assert Below(s.node.joins[k], s) in whole.nodes;
    }
  }

  lemma {:induction false} NeedIsOk(need: Need, whole: Whole, tables: seq<Located>, policy: GuardPolicy, b: Books)
    requires policy.allowedTables.Some? && Passed(whole, tables, policy.allowedTables.value, b)
    requires Rooted(need, whole)
    ensures Ok(need, ColumnAccess(policy))
  {
    match need
    case NeedTable(t) => TableIsOk(t, whole, tables, policy, b);
    case NeedColumn(col, scopes) => ColumnIsOk(col, scopes, whole, tables, policy, b);
    case NeedStar(star, sc) => StarOk(star, sc, whole, tables, policy, b);
    case NeedTableStar(col, scopes) =>
      forall sc | sc in scopes
        ensures TableStarOk(sc, col.node.table, ColumnAccess(policy))
      {
        assert ScopeRooted(sc, whole);
        TableStarIsOk(col, sc, whole, tables, policy, b);
      }
    case NeedUsing(join, c, binds) => JoinNamesOkHere(join, binds, c, whole, tables, policy, b);
    case NeedNatural(join, binds) => NoNatural(join, binds, whole, tables, policy, b);
  }

  lemma {:induction false} PassedMakesOk(whole: Whole, tables: seq<Located>, policy: GuardPolicy, b: Books)
    requires policy.allowedTables.Some? && Passed(whole, tables, policy.allowedTables.value, b) && Faithful(whole)
    ensures AllOk(Reads(whole), ColumnAccess(policy))
  {
    ReadsAreRooted(whole);
    forall need | need in Reads(whole)
      ensures Ok(need, ColumnAccess(policy))
    {
      NeedIsOk(need, whole, tables, policy, b);
    }
  }

  lemma {:induction false} OwnSelect(whole: Whole, s: Located)
    requires Faithful(whole) && SelectsUnique(whole.nodes) && s in whole.nodes && s.node.Select?
    ensures SelectById(FindAll(whole.node, IsSelect), s.node.id) == Some(s.node)
  {
    FoundIffInside(whole.node, IsSelect, s);
    forall u | u in FindAll(whole.node, IsSelect) && u.node.Select? && u.node.id == s.node.id
      ensures u == s
    {
      FoundIffInside(whole.node, IsSelect, u);
    }
    SelectFound(FindAll(whole.node, IsSelect), s);
  }

  lemma {:induction false} TreeLinked(whole: Whole)
    requires Faithful(whole) && SelectsUnique(whole.nodes)
    ensures Linked(whole)
  {
    forall s | s in whole.nodes && s.node.Select?
      ensures SelectById(FindAll(whole.node, IsSelect), s.node.id) == Some(s.node)
    {
      OwnSelect(whole, s);
    }
    forall s, k: nat | s in whole.nodes && s.node.Select? && k < |s.node.joins|
      ensures Below(s.node.joins[k], s) in whole.nodes
    {
      SelectParts(s.node);
      assert s.node.joins[k] in Kids(s.node);
      KidInside(s, s.node.joins[k], whole.node);
    }
  }

  /** Every restricted reference registers its name. */
  lemma {:induction false} AllRegistered(ts: seq<Located>, restricted: map<string, set<string>>, m: map<string,
        set<string>>)
    ensures m.Keys <= ByName(ts, restricted, m).Keys
    ensures forall t :: t in ts && IsRestricted(t.node, restricted) ==> t.node.name in ByName(ts, restricted, m)
    decreases |ts|
  {
    if ts != [] {
      AllRegistered(ts[1..], restricted, Register(ts[0], restricted, m));
    }
  }

  /** A statement whose tables are all unrestricted or restricted as the view says. */
  lemma {:induction false} UnrestrictedAccess(t: Node, policy: GuardPolicy)
    requires t.Table? && policy.allowedTables.Some?
    requires MatchTable(t, policy.allowedTables.value).Some? && !IsRestricted(t, Restricted(policy.allowedTables.value))
    ensures ColumnAccess(policy)(RefOf(t)) == Some(All)
  {
    assert KeyCandidates(Table(0, t.db, t.name, "", [])) == KeyCandidates(t);
  }

  /** Both checks passing makes every read of the statement visible. */
  lemma {:induction false} ChecksMakeOk(whole: Whole, tables: seq<Located>, policy: GuardPolicy)
    requires Faithful(whole) && whole.outer == [] && SelectsUnique(whole.nodes)
    requires policy.allowedTables.Some?
    requires forall t :: t in tables <==> t in whole.bases
    requires forall t :: t in tables ==>
      t in whole.nodes && t.node.Table? && MatchTable(t.node, policy.allowedTables.value).Some?
    requires ColumnReady(whole.nodes, tables, Restricted(policy.allowedTables.value))
    requires CheckColumns(whole.node, tables, policy) == []
    ensures AllOk(Reads(whole), ColumnAccess(policy))
  {
    var allowed := policy.allowedTables.value;
    var b := BooksOf(whole.node, tables, allowed);
    if Restricted(allowed) != map[] && b.byName != map[] {
      BooksAreRight(whole.node, tables, allowed);
      TreeLinked(whole);
      ReportClear(whole, b);
      PassedMakesOk(whole, tables, policy, b);
    } else {
      NothingHidden(whole.node, tables, policy);
      TablesMakeOk(whole, ColumnAccess(policy));
    }
  }

  lemma {:induction false} ChecksMakeTopOk(stmt: Node, tables: seq<Located>, policy: GuardPolicy)
    requires policy.allowedTables.Some? && UniqueIds(stmt)
    requires forall t :: t in tables <==> t in LexicalTables(stmt)
    requires forall t :: t in tables ==>
      Inside(t, stmt) && t.node.Table? && MatchTable(t.node, policy.allowedTables.value).Some?
    requires ColumnReady(Walk(Root(stmt)), tables, Restricted(policy.allowedTables.value))
    requires CheckColumns(stmt, tables, policy) == []
    ensures AllOk(Reads(TopLevel(stmt)), ColumnAccess(policy))
  {
    ChecksMakeOk(TopLevel(stmt), tables, policy);
  }

  /** The references `real_tables` reports are the base tables of the statement, all of them matched. */
  lemma {:induction false} TablesOfStatement(stmt: Node, scopes: Option<seq<seq<ScopeSource>>>, policy: GuardPolicy)
    requires policy.allowedTables.Some?
    requires UniqueIds(stmt) && Resolved(stmt, scopes) && LabelsTell(RealTables(stmt, scopes))
    requires CheckTables(RealTables(stmt, scopes), policy) == []
    ensures forall t :: t in RealTables(stmt, scopes) <==> t in LexicalTables(stmt)
    ensures forall t :: t in RealTables(stmt, scopes) ==>
      Inside(t, stmt) && t.node.Table? && MatchTable(t.node, policy.allowedTables.value).Some?
  {
    TablesFound(stmt, scopes);
    GlobalPassExact(stmt);
    CheckTablesPasses(RealTables(stmt, scopes), policy);
  }

  /**
   * Column noninterference. If the table and the column check pass on a ready statement, it returns
   * the same relation on any two databases that agree on the allowed columns of the restricted tables
   * and on the unrestricted allowed tables.
   */
  lemma {:induction false} ColumnNoninterference(stmt: Node, scopes: Option<seq<seq<ScopeSource>>>,
        policy: GuardPolicy, d1: Database, d2: Database, calls: Calls)
    requires policy.allowedTables.Some?
    requires UniqueIds(stmt) && Resolved(stmt, scopes) && LabelsTell(RealTables(stmt, scopes))
    requires ColumnReady(Walk(Root(stmt)), RealTables(stmt, scopes), Restricted(policy.allowedTables.value))
    requires CheckTables(RealTables(stmt, scopes), policy) == []
    requires CheckColumns(stmt, RealTables(stmt, scopes), policy) == []
    requires SameDatabase(d1, d2, ColumnAccess(policy))
    ensures EvalQuery(stmt, TopContext(d1, calls)) == EvalQuery(stmt, TopContext(d2, calls))
  {
    TablesOfStatement(stmt, scopes, policy);
    ChecksMakeTopOk(stmt, RealTables(stmt, scopes), policy);
    VisibleReadsDecide(stmt, ColumnAccess(policy), d1, d2, calls);
  }

  lemma {:induction false} NothingHidden(stmt: Node, tables: seq<Located>, policy: GuardPolicy)
    requires policy.allowedTables.Some?
    requires Restricted(policy.allowedTables.value) == map[]
        || BooksOf(stmt, tables, policy.allowedTables.value).byName == map[]
    requires forall t :: t in tables ==> t.node.Table? && MatchTable(t.node, policy.allowedTables.value).Some?
    ensures forall t :: t in tables ==> ColumnAccess(policy)(RefOf(t.node)) == Some(All)
  {
    var restricted := Restricted(policy.allowedTables.value);
    forall t | t in tables
      ensures ColumnAccess(policy)(RefOf(t.node)) == Some(All)
    {
      if restricted != map[] {
        AllRegistered(tables, restricted, map[]);
      }
      UnrestrictedAccess(t.node, policy);
    }
  }
}
