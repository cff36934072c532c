/** The exact verdict of `check_columns`: silent if and only if every star, USING name and column is allowed. */
module ColumnVerdict {
  import opened Syntax
  import opened Text
  import opened Traversal
  import opened Policy
  import opened Tables
  import opened ColumnAllowlist
  import opened ColumnMeaning
  import opened ColumnSources

  type Restrictions = map<string, set<string>>

  /** `t` is a restricted reference of the statement that `key` names. */
  ghost predicate Names(key: string, t: Located, tables: seq<Located>, restricted: Restrictions) {
    t in tables && IsRestricted(t.node, restricted) && Registers(t.node, key)
  }

  ghost predicate NamesSome(key: string, tables: seq<Located>, restricted: Restrictions) {
    exists t :: Names(key, t, tables, restricted)
  }

  /** A restricted reference allows column `c`. */
  ghost predicate SomeAllows(c: string, tables: seq<Located>, restricted: Restrictions) {
    exists t :: t in tables && IsRestricted(t.node, restricted) && Lower(c) in ColumnsFor(t.node, restricted).value
  }

  ghost predicate AnyRestrictedIn(tables: seq<Located>, restricted: Restrictions) {
    exists t :: t in tables && IsRestricted(t.node, restricted)
  }

  /** Reference `i` is the last restricted one that `key` names: a later one replaces an earlier one. */
  ghost predicate Last(key: string, i: nat, tables: seq<Located>, restricted: Restrictions) {
    && i < |tables|
    && Names(key, tables[i], tables, restricted)
    && forall u :: u in tables[i + 1..] && IsRestricted(u.node, restricted) ==> !Registers(u.node, key)
  }

  ghost predicate NamesTable(q: string, tables: seq<Located>) {
    exists t :: t in tables && t.node.Table? && Registers(t.node, q)
  }

  /** No column of a restricted table outside its allowed columns stands behind column `c` of the derived table. */
  ghost predicate DerivedAllowed(d: Derived, c: string, restricted: Restrictions) {
    forall table, column :: Behind(d, c, table, column) && Lower(table) in restricted ==>
      Lower(column) in restricted[Lower(table)]
  }

  /**
   * `q.c` is allowed: the last restricted source called `q` allows it, or `q` is a WITH query, or a derived
   * table behind which no forbidden column stands, or a table without restriction.
   */
  ghost predicate QualifiedAllowed(q: string, c: string, stmt: Node, tables: seq<Located>, restricted: Restrictions) {
    if NamesSome(q, tables, restricted) then
      forall i: nat :: Last(q, i, tables, restricted) ==> Lower(c) in ColumnsFor(tables[i].node, restricted).value
    else if CteNamed(stmt, q) then true
    else if exists d :: IsDerived(stmt, q, d) then
      forall d :: IsDerived(stmt, q, d) ==> DerivedAllowed(d, c, restricted)
    else NamesTable(q, tables)
  }

  /**
   * `c` is allowed: it is not the name of a restricted source, a single restricted table allows it,
   * and if there is a restricted table at all, some restricted table allows it.
   */
  ghost predicate UnqualifiedAllowed(c: string, tables: seq<Located>, restricted: Restrictions) {
    && !NamesSome(Lower(c), tables, restricted)
    && (forall t :: tables == [t] && IsRestricted(t.node, restricted) ==>
        Lower(c) in ColumnsFor(t.node, restricted).value)
    && (AnyRestrictedIn(tables, restricted) ==> SomeAllows(c, tables, restricted))
  }

  ghost predicate ColumnAllowed(col: Node, stmt: Node, tables: seq<Located>, restricted: Restrictions)
    requires IsColumn(col)
  {
    if col.table != "" then QualifiedAllowed(col.table, ColumnName(col), stmt, tables, restricted)
    else UnqualifiedAllowed(ColumnName(col), tables, restricted)
  }

  /** The SELECT around the star reads some table, and none with a column list. */
  ghost predicate BareStarAllowed(star: Located, stmt: Node, restricted: Restrictions) {
    && (exists t :: StarReads(stmt, star, t))
    && forall t :: StarReads(stmt, star, t) ==> !IsRestricted(t.node, restricted)
  }

  /**
   * A star is allowed as the argument of COUNT, as `t.*` of a source without restriction, and in a
   * SELECT that reads some table and no restricted one.
   */
  ghost predicate StarAllowed(star: Located, stmt: Node, tables: seq<Located>, restricted: Restrictions) {
    if star.up != [] && star.up[0].CountTag? then true
    else if star.up != [] && star.up[0].ColumnTag? && star.up[0].table != "" then
        !NamesSome(star.up[0].table, tables, restricted)
    else BareStarAllowed(star, stmt, restricted)
  }

  ghost predicate UsingAllowed(join: Node, tables: seq<Located>, restricted: Restrictions)
    requires join.Join?
  {
    forall c :: c in join.using ==> SomeAllows(c, tables, restricted)
  }

  // ---------------------------------------------------------------- what the books say

  lemma {:induction false} KeysComeFrom(ts: seq<Located>, restricted: Restrictions, m: Restrictions, key: string)
    requires key in ByName(ts, restricted, m)
    ensures key in m || NamesSome(key, ts, restricted)
    decreases |ts|
  {
    if ts != [] {
      var m' := Register(ts[0], restricted, m);
      KeysComeFrom(ts[1..], restricted, m', key);
      if key in m' && key !in m {
        assert Names(key, ts[0], ts, restricted);
      } else if key !in m' {
        var t :| Names(key, t, ts[1..], restricted);
        assert Names(key, t, ts, restricted);
      }
    }
  }

  lemma {:induction false} LastExists(key: string, tables: seq<Located>, restricted: Restrictions) returns (i: nat)
    requires NamesSome(key, tables, restricted)
    ensures Last(key, i, tables, restricted)
    decreases |tables|
  {
    var rest := tables[1..];
    assert forall t :: t in tables <==> t == tables[0] || t in rest;
    if NamesSome(key, rest, restricted) {
      var k := LastExists(key, rest, restricted);
      assert rest[k + 1..] == tables[k + 2..];
      i := k + 1;
    } else {
      assert forall u :: u in rest && IsRestricted(u.node, restricted) && Registers(u.node, key) ==>
        Names(key, u, rest, restricted);
      i := 0;
    }
  }

  lemma {:induction false} LastDecides(key: string, i: nat, ts: seq<Located>, restricted: Restrictions, m: Restrictions)
    requires Last(key, i, ts, restricted)
    ensures key in ByName(ts, restricted, m)
    ensures ByName(ts, restricted, m)[key] == ColumnsFor(ts[i].node, restricted).value
    decreases |ts|
  {
    if i == 0 {
      KeyStays(ts[1..], restricted, Register(ts[0], restricted, m), key, ColumnsFor(ts[0].node, restricted).value);
    } else {
      assert ts[1..][i - 1 + 1..] == ts[i + 1..];
      LastDecides(key, i - 1, ts[1..], restricted, Register(ts[0], restricted, m));
    }
  }

  /** The name table knows exactly the restricted sources, each name with the columns of its last one. */
  lemma {:induction false} NameTable(tables: seq<Located>, restricted: Restrictions, key: string)
    ensures key in ByName(tables, restricted, map[]) <==> NamesSome(key, tables, restricted)
    ensures forall i: nat :: Last(key, i, tables, restricted) ==>
      key in ByName(tables, restricted, map[])
      && ByName(tables, restricted, map[])[key] == ColumnsFor(tables[i].node, restricted).value
  {
    if key in ByName(tables, restricted, map[]) {
      KeysComeFrom(tables, restricted, map[], key);
    }
    if NamesSome(key, tables, restricted) {
      var k := LastExists(key, tables, restricted);
      LastDecides(key, k, tables, restricted, map[]);
    }
    forall i: nat | Last(key, i, tables, restricted)
      ensures key in ByName(tables, restricted, map[])
      ensures ByName(tables, restricted, map[])[key] == ColumnsFor(tables[i].node, restricted).value
    {
      LastDecides(key, i, tables, restricted, map[]);
    }
  }

  lemma {:induction false} FirstOrRest(ts: seq<Located>, restricted: Restrictions, c: string)
    requires ts != []
    ensures AnyRestrictedIn(ts, restricted) <==>
      IsRestricted(ts[0].node, restricted) || AnyRestrictedIn(ts[1..], restricted)
    ensures SomeAllows(c, ts, restricted) <==>
      || (IsRestricted(ts[0].node, restricted) && Lower(c) in ColumnsFor(ts[0].node, restricted).value)
      || SomeAllows(c, ts[1..], restricted)
  {
    assert forall t :: t in ts <==> t == ts[0] || t in ts[1..];
  }

  lemma {:induction false} UnionNext(first: set<string>, rest: seq<set<string>>)
    ensures UnionOf([first] + rest) == first + UnionOf(rest)
  {
    assert ([first] + rest)[1..] == rest;
  }

  lemma {:induction false} RealColumnsExact(ts: seq<Located>, restricted: Restrictions, c: string)
    ensures RealColumns(ts, restricted) != [] <==> AnyRestrictedIn(ts, restricted)
    ensures Lower(c) in UnionOf(RealColumns(ts, restricted)) <==> SomeAllows(c, ts, restricted)
    decreases |ts|
  {
    if ts != [] {
      var rest := RealColumns(ts[1..], restricted);
      RealColumnsExact(ts[1..], restricted, c);
      FirstOrRest(ts, restricted, c);
      if IsRestricted(ts[0].node, restricted) {
        var first := ColumnsFor(ts[0].node, restricted).value;
        assert RealColumns(ts, restricted) == [first] + rest;
        UnionNext(first, rest);
      } else {
        assert RealColumns(ts, restricted) == rest;
      }
    }
  }

  lemma {:induction false} QualifiersExact(ts: seq<Located>, q: string)
    ensures q in Qualifiers(ts) <==> NamesTable(q, ts)
    decreases |ts|
  {
    if ts != [] {
      QualifiersExact(ts[1..], q);
      assert forall t :: t in ts <==> t == ts[0] || t in ts[1..];
    }
  }

  /** What the lemmas below know of the books. */
  ghost predicate Kept(b: Books, stmt: Node, tables: seq<Located>, restricted: Restrictions) {
    && b.restricted == restricted
    && b.byName == ByName(tables, restricted, map[])
    && b.realCols == RealColumns(tables, restricted)
    && b.union == UnionOf(b.realCols)
    && b.ctes == CteAliases(stmt)
    && b.derived == DerivedTables(stmt)
    && b.quals == b.ctes + b.derived.Keys + Qualifiers(tables)
    && b.single == (if |tables| == 1 && |b.realCols| == 1 then Some(b.realCols[0]) else None)
  }

  lemma {:induction false} DerivedExact(d: Derived, c: string, restricted: Restrictions)
    requires d.inner.Select?
    ensures DerivedForbidden(ResolveDerived(d, c), restricted) <==> !DerivedAllowed(d, c, restricted)
  {
    var found := ResolveDerived(d, c);
    if found.Some? {
      BehindExactly(d, c, found.value.0, found.value.1);
    }
    if table, column :| Behind(d, c, table, column) && !(Lower(table) in restricted ==>
        Lower(column) in restricted[Lower(table)]) {
      BehindExactly(d, c, table, column);
    }
  }

  lemma {:induction false} DerivedPart(q: string, stmt: Node)
    ensures (exists d :: IsDerived(stmt, q, d)) <==> q in DerivedTables(stmt)
    ensures q in DerivedTables(stmt) ==> DerivedTables(stmt)[q].inner.Select?
    ensures forall d :: IsDerived(stmt, q, d) ==> q in DerivedTables(stmt) && DerivedTables(stmt)[q] == d
  {
    if q in DerivedTables(stmt) {
      DerivedExactly(stmt, q, DerivedTables(stmt)[q]);
    }
    forall d | IsDerived(stmt, q, d)
      ensures q in DerivedTables(stmt) && DerivedTables(stmt)[q] == d
    {
      DerivedExactly(stmt, q, d);
    }
  }

  lemma {:induction false} QualifiedExact(q: string, c: string, b: Books, stmt: Node, tables: seq<Located>,
        restricted: Restrictions)
    requires Kept(b, stmt, tables, restricted)
    ensures QualifiedForbidden(q, c, b) <==> !QualifiedAllowed(q, c, stmt, tables, restricted)
  {
    NameTable(tables, restricted, q);
    QualifiersExact(tables, q);
    CteNamedExactly(stmt, q);
    DerivedPart(q, stmt);
    if NamesSome(q, tables, restricted) {
      var i := LastExists(q, tables, restricted);
      assert b.byName[q] == ColumnsFor(tables[i].node, restricted).value;
    } else if q in b.derived {
      DerivedExact(b.derived[q], c, restricted);
    }
  }

  lemma {:induction false} SingleExact(b: Books, stmt: Node, tables: seq<Located>, restricted: Restrictions)
    requires Kept(b, stmt, tables, restricted)
    ensures forall t :: tables == [t] && IsRestricted(t.node, restricted) ==>
        b.single == Some(ColumnsFor(t.node, restricted).value)
    ensures b.single.Some? ==> |tables| == 1 && IsRestricted(tables[0].node, restricted)
  {
    if |tables| == 1 {
      var t := tables[0];
      assert tables == [t] && tables[1..] == [];
      assert RealColumns(tables, restricted) ==
        (if IsRestricted(t.node, restricted) then [ColumnsFor(t.node, restricted).value] else [])
            + RealColumns([], restricted);
    }
  }

  lemma {:induction false} UnqualifiedExact(c: string, b: Books, stmt: Node, tables: seq<Located>,
        restricted: Restrictions)
    requires Kept(b, stmt, tables, restricted)
    ensures UnqualifiedForbidden(c, b) <==> !UnqualifiedAllowed(c, tables, restricted)
  {
    NameTable(tables, restricted, Lower(c));
    RealColumnsExact(tables, restricted, c);
    SingleExact(b, stmt, tables, restricted);
    if b.single.Some? {
      assert tables == [tables[0]];
    }
  }

  lemma {:induction false} AnyRestrictedExact(ts: seq<Located>, restricted: Restrictions)
    ensures AnyRestricted(ts, restricted) <==> AnyRestrictedIn(ts, restricted)
    decreases |ts|
  {
    if ts != [] {
      AnyRestrictedExact(ts[1..], restricted);
      assert forall t :: t in ts <==> t == ts[0] || t in ts[1..];
    }
  }

  lemma {:induction false} SourcesDecide(srcs: seq<Located>, star: Located, stmt: Node, restricted: Restrictions)
    requires forall t :: t in srcs <==> StarReads(stmt, star, t)
    ensures srcs == [] || AnyRestricted(srcs, restricted) <==> !BareStarAllowed(star, stmt, restricted)
  {
    AnyRestrictedExact(srcs, restricted);
    if srcs != [] {
      assert srcs[0] in srcs && StarReads(stmt, star, srcs[0]);
    }
  }

  lemma {:induction false} BareStarExact(star: Located, stmt: Node, restricted: Restrictions)
    ensures StarSources(stmt, star) == [] || AnyRestricted(StarSources(stmt, star), restricted)
      <==> !BareStarAllowed(star, stmt, restricted)
  {
    forall t
      ensures t in StarSources(stmt, star) <==> StarReads(stmt, star, t)
    {
      StarReadsExactly(stmt, star, t);
    }
    SourcesDecide(StarSources(stmt, star), star, stmt, restricted);
  }

  lemma {:induction false} StarExact(star: Located, b: Books, stmt: Node, tables: seq<Located>,
        restricted: Restrictions)
    requires Kept(b, stmt, tables, restricted)
    ensures StarHit(stmt, star, b) <==> !StarAllowed(star, stmt, tables, restricted)
  {
    if star.up != [] && star.up[0].ColumnTag? {
      NameTable(tables, restricted, star.up[0].table);
    }
    BareStarExact(star, stmt, restricted);
  }

  // ---------------------------------------------------------------- the reports

  lemma {:induction false} StarsExact(stars: seq<Located>, b: Books, stmt: Node)
    ensures AnyStarHit(stmt, stars, b) <==> exists l :: l in stars && StarHit(stmt, l, b)
    decreases |stars|
  {
    if stars != [] {
      StarsExact(stars[1..], b, stmt);
      assert forall l :: l in stars <==> l == stars[0] || l in stars[1..];
    }
  }

  lemma {:induction false} ColumnListExact(cols: seq<Located>, b: Books)
    ensures ColumnViolations(cols, b) == [] <==> forall l ::
        l in cols && IsColumn(l.node) ==> !ColumnForbidden(l.node, b)
    decreases |cols|
  {
    if cols != [] {
      ColumnListExact(cols[1..], b);
      assert forall l :: l in cols <==> l == cols[0] || l in cols[1..];
    }
  }

  lemma {:induction false} UsingNamesExact(names: seq<string>, b: Books, stmt: Node, tables: seq<Located>,
        restricted: Restrictions)
    requires Kept(b, stmt, tables, restricted) && AnyRestrictedIn(tables, restricted)
    ensures UsingNames(names, b) == [] <==> forall c :: c in names ==> SomeAllows(c, tables, restricted)
    decreases |names|
  {
    if names != [] {
      RealColumnsExact(tables, restricted, names[0]);
      UsingNamesExact(names[1..], b, stmt, tables, restricted);
      assert forall c :: c in names <==> c == names[0] || c in names[1..];
    }
  }

  lemma {:induction false} UsingExact(joins: seq<Located>, b: Books, stmt: Node, tables: seq<Located>,
        restricted: Restrictions)
    requires Kept(b, stmt, tables, restricted) && AnyRestrictedIn(tables, restricted)
    ensures UsingViolations(joins, b) == [] <==> forall l ::
        l in joins && l.node.Join? ==> UsingAllowed(l.node, tables, restricted)
    decreases |joins|
  {
    if joins != [] {
      if joins[0].node.Join? {
        UsingNamesExact(joins[0].node.using, b, stmt, tables, restricted);
      }
      UsingExact(joins[1..], b, stmt, tables, restricted);
      assert forall l :: l in joins <==> l == joins[0] || l in joins[1..];
    }
  }

  /** Every star, column and USING list of the statement is allowed. */
  ghost predicate AllAllowed(stmt: Node, tables: seq<Located>, restricted: Restrictions) {
    && (forall l :: Inside(l, stmt) && l.node.Star? ==> StarAllowed(l, stmt, tables, restricted))
    && (forall l :: Inside(l, stmt) && IsColumn(l.node) ==> ColumnAllowed(l.node, stmt, tables, restricted))
    && (forall l :: Inside(l, stmt) && l.node.Join? ==> UsingAllowed(l.node, tables, restricted))
  }

  lemma {:induction false} Found(stmt: Node, p: Node -> bool)
    ensures forall l :: l in FindAll(stmt, p) <==> Inside(l, stmt) && p(l.node)
  {
    forall l
      ensures l in FindAll(stmt, p) <==> Inside(l, stmt) && p(l.node)
    {
      FoundIffInside(stmt, p, l);
    }
  }

  lemma {:induction false} StarPart(b: Books, stmt: Node, tables: seq<Located>, restricted: Restrictions)
    requires Kept(b, stmt, tables, restricted)
    ensures !AnyStarHit(stmt, FindAll(stmt, IsStar), b) <==>
      forall l :: Inside(l, stmt) && l.node.Star? ==> StarAllowed(l, stmt, tables, restricted)
  {
    StarsExact(FindAll(stmt, IsStar), b, stmt);
    Found(stmt, IsStar);
    forall l: Located
      ensures StarHit(stmt, l, b) <==> !StarAllowed(l, stmt, tables, restricted)
    {
      StarExact(l, b, stmt, tables, restricted);
    }
  }

  lemma {:induction false} ColumnPart(b: Books, stmt: Node, tables: seq<Located>, restricted: Restrictions)
    requires Kept(b, stmt, tables, restricted)
    ensures ColumnViolations(FindAll(stmt, IsColumn), b) == [] <==>
      forall l :: Inside(l, stmt) && IsColumn(l.node) ==> ColumnAllowed(l.node, stmt, tables, restricted)
  {
    ColumnListExact(FindAll(stmt, IsColumn), b);
    Found(stmt, IsColumn);
    forall l: Located | IsColumn(l.node)
      ensures ColumnForbidden(l.node, b) <==> !ColumnAllowed(l.node, stmt, tables, restricted)
    {
      if l.node.table != "" {
        QualifiedExact(l.node.table, ColumnName(l.node), b, stmt, tables, restricted);
      } else {
        UnqualifiedExact(ColumnName(l.node), b, stmt, tables, restricted);
      }
    }
  }

  lemma {:induction false} UsingPart(b: Books, stmt: Node, tables: seq<Located>, restricted: Restrictions)
    requires Kept(b, stmt, tables, restricted) && AnyRestrictedIn(tables, restricted)
    ensures UsingViolations(FindAll(stmt, IsJoin), b) == [] <==>
      forall l :: Inside(l, stmt) && l.node.Join? ==> UsingAllowed(l.node, tables, restricted)
  {
    UsingExact(FindAll(stmt, IsJoin), b, stmt, tables, restricted);
    Found(stmt, IsJoin);
  }

  lemma {:induction false} ReportParts(stmt: Node, stars: seq<Located>, joins: seq<Located>, cols: seq<Located>,
        b: Books)
    ensures ColumnReport(stmt, stars, joins, cols, b) == [] <==>
      !AnyStarHit(stmt, stars, b) && UsingViolations(joins, b) == [] && ColumnViolations(cols, b) == []
  {
  }

  lemma {:induction false} NothingNamed(tables: seq<Located>, restricted: Restrictions)
    ensures ByName(tables, restricted, map[]) == map[] <==> !AnyRestrictedIn(tables, restricted)
  {
    var m := ByName(tables, restricted, map[]);
    if m != map[] {
      var key :| key in m;
      NameTable(tables, restricted, key);
    }
    if t :| t in tables && IsRestricted(t.node, restricted) {
      NameTable(tables, restricted, t.node.name);
      assert Names(t.node.name, t, tables, restricted);
    }
  }

  lemma {:induction false} BooksKept(stmt: Node, tables: seq<Located>, allowed: Allowlist)
    ensures Kept(BooksOf(stmt, tables, allowed), stmt, tables, Restricted(allowed))
  {
  }

  lemma {:induction false} NothingRestricted(tables: seq<Located>, restricted: Restrictions)
    requires restricted == map[]
    ensures !AnyRestrictedIn(tables, restricted)
  {
    forall t: Located | t.node.Table?
      ensures ColumnsFor(t.node, restricted).None?
    {
    }
  }

  lemma {:induction false} ReportExact(stmt: Node, b: Books, tables: seq<Located>, restricted: Restrictions)
    requires Kept(b, stmt, tables, restricted) && AnyRestrictedIn(tables, restricted)
    ensures ColumnReport(stmt, FindAll(stmt, IsStar), FindAll(stmt, IsJoin), FindAll(stmt, IsColumn), b) == [] <==>
      AllAllowed(stmt, tables, restricted)
  {
    StarPart(b, stmt, tables, restricted);
    ColumnPart(b, stmt, tables, restricted);
    UsingPart(b, stmt, tables, restricted);
    ReportParts(stmt, FindAll(stmt, IsStar), FindAll(stmt, IsJoin), FindAll(stmt, IsColumn), b);
  }

  lemma {:induction false} WhatIsReported(stmt: Node, tables: seq<Located>, policy: GuardPolicy, b: Books)
    requires policy.allowedTables.Some? && b == BooksOf(stmt, tables, policy.allowedTables.value)
    ensures CheckColumns(stmt, tables, policy) ==
      if Restricted(policy.allowedTables.value) == map[] || b.byName == map[] then []
      else ColumnReport(stmt, FindAll(stmt, IsStar), FindAll(stmt, IsJoin), FindAll(stmt, IsColumn), b)
  {
  }

  /**
   * The check is exact: it is silent if and only if the statement reads no restricted table, or every
   * star, column and USING name in it is allowed.
   */
  lemma {:induction false} CheckColumnsExact(stmt: Node, tables: seq<Located>, policy: GuardPolicy)
    requires policy.allowedTables.Some?
    ensures var restricted := Restricted(policy.allowedTables.value);
      CheckColumns(stmt, tables, policy) == [] <==>
          AnyRestrictedIn(tables, restricted) ==> AllAllowed(stmt, tables, restricted)
  {
    var restricted := Restricted(policy.allowedTables.value);
    var b := BooksOf(stmt, tables, policy.allowedTables.value);
    BooksKept(stmt, tables, policy.allowedTables.value);
    NothingNamed(tables, restricted);
    WhatIsReported(stmt, tables, policy, b);
    if restricted == map[] {
      NothingRestricted(tables, restricted);
    } else if AnyRestrictedIn(tables, restricted) {
      ReportExact(stmt, b, tables, restricted);
    }
  }
}
