/** What the lookups of `check_columns` find, spelled out: WITH queries, derived tables and the tables of a star. */
module ColumnSources {
  import opened Syntax
  import opened Text
  import opened Traversal
  import opened Tables
  import opened ColumnAllowlist

  // ---------------------------------------------------------------- WITH queries

  /** A WITH query of the statement is called `q`. */
  ghost predicate CteNamed(stmt: Node, q: string) {
    q != "" && exists l :: Inside(l, stmt) && l.node.Cte? && l.node.alias == q
  }

  lemma {:induction false} CteNamedExactly(stmt: Node, q: string)
    ensures q in CteAliases(stmt) <==> CteNamed(stmt, q)
  {
    forall l
      ensures l in FindAll(stmt, IsNamedCte) <==> Inside(l, stmt) && l.node.Cte? && l.node.alias != ""
    {
      FoundIffInside(stmt, IsNamedCte, l);
    }
  }

  // ---------------------------------------------------------------- derived tables

  /** The node is the derived table `q` over `d`: a subquery, or a LATERAL one wrapped at most once. */
  predicate DerivedAs(n: Node, q: string, d: Derived) {
    q != "" && d.inner.Select? &&
    (|| (n.Subquery? && n.alias == q && d == Derived(n.arg, n.columns))
     || (n.Lateral? && n.alias == q && d.columns == n.columns
         && (d.inner == n.arg || (n.arg.Subquery? && d.inner == n.arg.arg))))
  }

  /** The last derived table called `q` in the list is over `d`. */
  ghost predicate LastDerived(ls: seq<Located>, q: string, d: Derived) {
    exists i: nat :: LastAt(ls, q, d, i)
  }

  ghost predicate LastAt(ls: seq<Located>, q: string, d: Derived, i: nat) {
    && i < |ls| && DerivedAs(ls[i].node, q, d)
    && forall j, other :: i < j < |ls| ==> !DerivedAs(ls[j].node, q, other)
  }

  ghost predicate SomeDerived(ls: seq<Located>, q: string) {
    exists d :: LastDerived(ls, q, d)
  }

  /** `q` is a derived table over `d`: the last LATERAL one of that name, or without any the last subquery. */
  ghost predicate IsDerived(stmt: Node, q: string, d: Derived) {
    || LastDerived(FindAll(stmt, IsLateral), q, d)
    || (LastDerived(FindAll(stmt, IsSubquery), q, d) && !SomeDerived(FindAll(stmt, IsLateral), q))
  }

  lemma {:induction false} LastDerivedStep(ls: seq<Located>, q: string, d: Derived)
    requires ls != []
    ensures LastDerived(ls, q, d) <==>
      LastDerived(ls[1..], q, d) || (DerivedAs(ls[0].node, q, d) && !SomeDerived(ls[1..], q))
  {
    var rest := ls[1..];
    assert forall j :: 0 < j < |ls| ==> ls[j] == rest[j - 1];
    if i: nat :| LastAt(ls, q, d, i) {
      if i > 0 {
        forall j, other | i - 1 < j < |rest|
          ensures !DerivedAs(rest[j].node, q, other)
        {
          assert rest[j] == ls[j + 1];
        }
        assert LastAt(rest, q, d, i - 1);
      } else {
        forall j, other | 0 <= j < |rest|
          ensures !DerivedAs(rest[j].node, q, other)
        {
          assert rest[j] == ls[j + 1];
        }
      }
    }
    if LastDerived(rest, q, d) {
      var i: nat :| LastAt(rest, q, d, i);
      assert LastAt(ls, q, d, i + 1);
    } else if DerivedAs(ls[0].node, q, d) && !SomeDerived(rest, q) {
      NoneDerived(rest, q);
      assert LastAt(ls, q, d, 0);
    }
  }

  /** Where no derived table is the last one, there is none. */
  lemma {:induction false} NoneDerived(ls: seq<Located>, q: string)
    requires !SomeDerived(ls, q)
    ensures forall j, other :: 0 <= j < |ls| ==> !DerivedAs(ls[j].node, q, other)
    decreases |ls|
  {
    if j, other :| 0 <= j < |ls| && DerivedAs(ls[j].node, q, other) {
      SomeIsLast(ls, q, j, other);
    }
  }

  lemma {:induction false} SomeIsLast(ls: seq<Located>, q: string, j: nat, d: Derived)
    requires j < |ls| && DerivedAs(ls[j].node, q, d)
    ensures SomeDerived(ls, q)
    decreases |ls| - j
  {
    if k, other :| j < k < |ls| && DerivedAs(ls[k].node, q, other) {
      SomeIsLast(ls, q, k, other);
    } else {
      assert LastAt(ls, q, d, j);
      assert LastDerived(ls, q, d);
    }
  }

  /** The map `m` has `d` under `q`. */
  predicate Maps(m: map<string, Derived>, q: string, d: Derived) {
    q in m && m[q] == d
  }

  lemma {:induction false} SubqueriesExactly(ls: seq<Located>, m: map<string, Derived>, q: string, d: Derived)
    requires forall l :: l in ls ==> l.node.Subquery?
    ensures Maps(DerivedSubqueries(ls, m), q, d) <==> LastDerived(ls, q, d) || (Maps(m, q, d) && !SomeDerived(ls, q))
    decreases |ls|
  {
    if ls != [] {
      var s := ls[0].node;
      var m1 := if s.alias != "" && s.arg.Select? then m[s.alias := Derived(s.arg, s.columns)] else m;
      SubqueriesExactly(ls[1..], m1, q, d);
      StepExactly(ls, m, m1, q, d, Derived(s.arg, s.columns), q != "" && s.alias == q && s.arg.Select?);
    }
  }

  lemma {:induction false} LateralsExactly(ls: seq<Located>, m: map<string, Derived>, q: string, d: Derived)
    requires forall l :: l in ls ==> l.node.Lateral?
    ensures Maps(DerivedLaterals(ls, m), q, d) <==> LastDerived(ls, q, d) || (Maps(m, q, d) && !SomeDerived(ls, q))
    decreases |ls|
  {
    if ls != [] {
      var s := ls[0].node;
      var inner := LateralInner(s);
      var m1 := if s.alias != "" && inner.Select? then m[s.alias := Derived(inner, s.columns)] else m;
      LateralsExactly(ls[1..], m1, q, d);
      StepExactly(ls, m, m1, q, d, Derived(inner, s.columns), q != "" && s.alias == q && inner.Select?);
    }
  }

  /** One step of the map over the derived tables: `own` is what the first node derives. */
  lemma {:induction false} StepExactly(ls: seq<Located>, m: map<string, Derived>, m1: map<string, Derived>, q: string,
        d: Derived, own: Derived, hit: bool)
    requires ls != []
    requires forall e :: DerivedAs(ls[0].node, q, e) <==> hit && e == own
    requires Maps(m1, q, d) <==> if hit then d == own else Maps(m, q, d)
    ensures LastDerived(ls[1..], q, d) || (Maps(m1, q, d) && !SomeDerived(ls[1..], q))
      <==> LastDerived(ls, q, d) || (Maps(m, q, d) && !SomeDerived(ls, q))
  {
    LastDerivedStep(ls, q, d);
    LastDerivedStep(ls, q, own);
    if SomeDerived(ls, q) {
      var e :| LastDerived(ls, q, e);
      LastDerivedStep(ls, q, e);
    }
    if SomeDerived(ls[1..], q) {
      var e :| LastDerived(ls[1..], q, e);
      LastDerivedStep(ls, q, e);
    }
  }

  lemma {:induction false} DerivedExactly(stmt: Node, q: string, d: Derived)
    ensures q in DerivedTables(stmt) && DerivedTables(stmt)[q] == d <==> IsDerived(stmt, q, d)
  {
    var subs, lats := FindAll(stmt, IsSubquery), FindAll(stmt, IsLateral);
    forall l
      ensures l in subs ==> l.node.Subquery?
      ensures l in lats ==> l.node.Lateral?
    {
      FoundIffInside(stmt, IsSubquery, l);
      FoundIffInside(stmt, IsLateral, l);
    }
    SubqueriesExactly(subs, map[], q, d);
    LateralsExactly(lats, DerivedSubqueries(subs, map[]), q, d);
  }

  // ---------------------------------------------------------------- columns of derived tables

  /** Item `i` of the derived table is the one its column list calls `name`. */
  ghost predicate Listed(d: Derived, name: string, i: nat)
    requires d.inner.Select?
  {
    && i < |d.columns| && i < |d.inner.items|
    && Lower(d.columns[i]) == Lower(name)
    && forall j :: 0 <= j < i ==> Lower(d.columns[j]) != Lower(name)
  }

  /** The item has this name or alias. */
  predicate ItemNamed(item: Node, name: string) {
    AliasOrName(item) != "" && Lower(AliasOrName(item)) == Lower(name)
  }

  /** `name` picks item `i`: by the column list, or if that picks none, the first item of that name. */
  ghost predicate Picks(d: Derived, name: string, i: nat)
    requires d.inner.Select?
  {
    || Listed(d, name, i)
    || (i < |d.inner.items| && ItemNamed(d.inner.items[i], name)
        && (forall k: nat :: !Listed(d, name, k))
        && forall j :: 0 <= j < i ==> !ItemNamed(d.inner.items[j], name))
  }

  /** The table is called `q`, or nothing is asked for. */
  predicate Fits(t: Node, q: string) {
    t.Table? && (q == "" || t.name == q || t.alias == q)
  }

  /** The first table in the SELECT that fits `q` is called `table`. */
  ghost predicate FirstFit(ts: seq<Located>, q: string, table: string) {
    exists i: nat :: FitAt(ts, q, table, i)
  }

  ghost predicate FitAt(ts: seq<Located>, q: string, table: string, i: nat) {
    && i < |ts| && Fits(ts[i].node, q) && ts[i].node.name == table
    && forall j :: 0 <= j < i ==> !Fits(ts[j].node, q)
  }

  /** Behind column `name` of the derived table stands column `column` of a table called `table`. */
  ghost predicate Behind(d: Derived, name: string, table: string, column: string) {
    d.inner.Select? && exists i: nat :: Picks(d, name, i) && ItemIs(d.inner.items[i], d.inner, table, column)
  }

  /** The column is `column` of the first fitting table in the SELECT, called `table`. */
  ghost predicate ColumnIs(col: Node, inner: Node, table: string, column: string) {
    || (col.Column? && col.name == column && FirstFit(FindAll(inner, IsTable), col.table, table))
    || (col.StarColumn? && column == "*" && FirstFit(FindAll(inner, IsTable), col.table, table))
  }

  /** The item is that column, with or without an alias. */
  ghost predicate ItemIs(item: Node, inner: Node, table: string, column: string) {
    ColumnIs(if item.Alias? then item.arg else item, inner, table, column)
  }

  lemma {:induction false} FirstFitExactly(ts: seq<Located>, q: string, table: string)
    ensures InnerRealTable(ts, q) == Some(table) <==> FirstFit(ts, q, table)
    decreases |ts|
  {
    if ts != [] {
      FirstFitExactly(ts[1..], q, table);
      assert forall j :: 0 < j < |ts| ==> ts[j] == ts[1..][j - 1];
      if !Fits(ts[0].node, q) {
        FirstFitLater(ts, q, table);
      } else if ts[0].node.name == table {
        assert FitAt(ts, q, table, 0);
      }
    }
  }

  lemma {:induction false} FirstFitLater(ts: seq<Located>, q: string, table: string)
    requires ts != [] && !Fits(ts[0].node, q)
    ensures FirstFit(ts, q, table) <==> FirstFit(ts[1..], q, table)
  {
    var rest := ts[1..];
    if i: nat :| FitAt(ts, q, table, i) {
      assert forall j :: 0 <= j < i - 1 ==> rest[j] == ts[j + 1];
      assert FitAt(rest, q, table, i - 1);
    }
    if i: nat :| FitAt(rest, q, table, i) {
      assert forall j :: 0 < j < i + 1 ==> ts[j] == rest[j - 1];
      assert FitAt(ts, q, table, i + 1);
    }
  }

  lemma {:induction false} LowerAllAt(xs: seq<string>, i: nat)
    requires i < |xs|
    ensures LowerAll(xs)[i] == Lower(xs[i])
    decreases |xs|
  {
    if i > 0 {
      LowerAllAt(xs[1..], i - 1);
    }
  }

  lemma {:induction false} PositionIsFirst(xs: seq<string>, x: string)
    ensures var i := PositionOf(xs, x);
      (i < |xs| ==> xs[i] == x) && forall j :: 0 <= j < i ==> xs[j] != x
    decreases |xs|
  {
    if xs != [] && xs[0] != x {
      PositionIsFirst(xs[1..], x);
      assert forall j :: 0 < j < |xs| ==> xs[j] == xs[1..][j - 1];
    }
  }

  lemma {:induction false} ListedExactly(d: Derived, name: string, i: nat)
    requires d.inner.Select?
    ensures Listed(d, name, i) <==>
      i == PositionOf(LowerAll(d.columns), Lower(name)) && i < |d.columns| && i < |d.inner.items|
  {
    PositionIsFirst(LowerAll(d.columns), Lower(name));
    forall j: nat | j < |d.columns|
      ensures LowerAll(d.columns)[j] == Lower(d.columns[j])
    {
      LowerAllAt(d.columns, j);
    }
  }

  lemma {:induction false} NamedIsFirst(items: seq<Node>, name: string)
    ensures var i := NamedItem(items, name);
      (i < |items| ==> ItemNamed(items[i], name)) && forall j :: 0 <= j < i ==> !ItemNamed(items[j], name)
    decreases |items|
  {
    if items != [] && !ItemNamed(items[0], name) {
      NamedIsFirst(items[1..], name);
      assert forall j :: 0 < j < |items| ==> items[j] == items[1..][j - 1];
    }
  }

  lemma {:induction false} ListedIsTarget(d: Derived, name: string, i: nat)
    requires d.inner.Select? && Listed(d, name, i)
    ensures TargetItem(d, name) == Some(d.inner.items[i])
  {
    ListedExactly(d, name, i);
  }

  lemma {:induction false} NamedIsTarget(d: Derived, name: string, i: nat)
    requires d.inner.Select? && (forall k: nat :: !Listed(d, name, k))
    requires i == NamedItem(d.inner.items, name) && i < |d.inner.items|
    ensures TargetItem(d, name) == Some(d.inner.items[i])
  {
    ListedExactly(d, name, PositionOf(LowerAll(d.columns), Lower(name)));
  }

  lemma {:induction false} PickedIsTarget(d: Derived, name: string, i: nat)
    requires d.inner.Select? && Picks(d, name, i)
    ensures TargetItem(d, name) == Some(d.inner.items[i])
  {
    if Listed(d, name, i) {
      ListedIsTarget(d, name, i);
    } else {
      NamedIsFirst(d.inner.items, name);
      NamedIsTarget(d, name, i);
    }
  }

  lemma {:induction false} TargetIsPicked(d: Derived, name: string) returns (i: nat)
    requires d.inner.Select? && TargetItem(d, name).Some?
    ensures Picks(d, name, i)
  {
    i := PositionOf(LowerAll(d.columns), Lower(name));
    if i < |d.columns| && i < |d.inner.items| {
      ListedExactly(d, name, i);
    } else {
      forall k: nat
        ensures !Listed(d, name, k)
      {
        ListedExactly(d, name, k);
      }
      i := NamedItem(d.inner.items, name);
      NamedIsFirst(d.inner.items, name);
    }
  }

  /** The resolution of a derived column, exactly. */
  lemma {:induction false} BehindExactly(d: Derived, name: string, table: string, column: string)
    requires d.inner.Select?
    ensures ResolveDerived(d, name) == Some((table, column)) <==> Behind(d, name, table, column)
  {
    if ResolveDerived(d, name) == Some((table, column)) {
      var i := TargetIsPicked(d, name);
      ItemResolves(d, name, i, table, column);
    }
    if i: nat :| Picks(d, name, i) && ItemIs(d.inner.items[i], d.inner, table, column) {
      ItemResolves(d, name, i, table, column);
    }
  }

  lemma {:induction false} ItemResolves(d: Derived, name: string, i: nat, table: string, column: string)
    requires d.inner.Select? && Picks(d, name, i)
    ensures ResolveDerived(d, name) == Some((table, column)) <==> ItemIs(d.inner.items[i], d.inner, table, column)
  {
    PickedIsTarget(d, name, i);
    var item := d.inner.items[i];
    ColumnIsExactly(if item.Alias? then item.arg else item, d.inner, table, column);
  }

  lemma {:induction false} ColumnIsExactly(col: Node, inner: Node, table: string, column: string)
    ensures ColumnIs(col, inner, table, column) <==>
      IsColumn(col) && ColumnName(col) == column && InnerRealTable(FindAll(inner, IsTable), col.table) == Some(table)
  {
    if IsColumn(col) {
      FirstFitExactly(FindAll(inner, IsTable), col.table, table);
    }
  }

  // ---------------------------------------------------------------- the tables of a star

  /** The first SELECT of the statement with this identity. */
  ghost predicate FirstSelect(selects: seq<Located>, id: nat, sel: Node) {
    exists i: nat :: SelectAt(selects, id, sel, i)
  }

  ghost predicate SelectAt(selects: seq<Located>, id: nat, sel: Node, i: nat) {
    && i < |selects| && selects[i].node == sel && sel.Select? && sel.id == id
    && forall j :: 0 <= j < i && selects[j].node.Select? ==> selects[j].node.id != id
  }

  lemma {:induction false} FirstSelectExactly(selects: seq<Located>, id: nat, sel: Node)
    ensures SelectById(selects, id) == Some(sel) <==> FirstSelect(selects, id, sel)
    decreases |selects|
  {
    if selects != [] {
      FirstSelectExactly(selects[1..], id, sel);
      assert forall j :: 0 < j < |selects| ==> selects[j] == selects[1..][j - 1];
      if !(selects[0].node.Select? && selects[0].node.id == id) {
        FirstSelectLater(selects, id, sel);
      } else if selects[0].node == sel {
        assert SelectAt(selects, id, sel, 0);
      }
    }
  }

  lemma {:induction false} FirstSelectLater(selects: seq<Located>, id: nat, sel: Node)
    requires selects != [] && !(selects[0].node.Select? && selects[0].node.id == id)
    ensures FirstSelect(selects, id, sel) <==> FirstSelect(selects[1..], id, sel)
  {
    var rest := selects[1..];
    if i: nat :| SelectAt(selects, id, sel, i) {
      assert forall j :: 0 <= j < i - 1 ==> rest[j] == selects[j + 1];
      assert SelectAt(rest, id, sel, i - 1);
    }
    if i: nat :| SelectAt(rest, id, sel, i) {
      assert forall j :: 0 < j < i + 1 ==> selects[j] == rest[j - 1];
      assert SelectAt(selects, id, sel, i + 1);
    }
  }

  /** `t` is a table reference in the SELECT around the star. */
  ghost predicate StarReads(stmt: Node, star: Located, t: Located) {
    t.node.Table? && exists id, sel ::
      Owner(star.up, id) && FirstSelect(FindAll(stmt, IsSelect), id, sel) && Inside(t, sel)
  }

  lemma {:induction false} StarReadsExactly(stmt: Node, star: Located, t: Located)
    ensures t in StarSources(stmt, star) <==> StarReads(stmt, star, t)
  {
    var selects := FindAll(stmt, IsSelect);
    if NearestSelect(star.up).Some? {
      var id := NearestSelect(star.up).value;
      OwnerExactly(star.up, id);
      if SelectById(selects, id).Some? {
        var sel := SelectById(selects, id).value;
        FirstSelectExactly(selects, id, sel);
        FoundIffInside(sel, IsTable, t);
      }
    }
    if id, sel :| Owner(star.up, id) && FirstSelect(selects, id, sel) && Inside(t, sel) {
      OwnerExactly(star.up, id);
      FirstSelectExactly(selects, id, sel);
    }
  }
}
