/** The exact verdict of `check_pii_columns`, spelled out on the references, stars, columns and joins. */
module PiiVerdict {
  import opened Syntax
  import opened Text
  import opened Traversal
  import opened Policy
  import opened Tables
  import opened ColumnAllowlist
  import opened Pii
  import opened PiiMeaning

  // ---------------------------------------------------------------- positions

  /** Both stand directly in the same SELECT, or the position stands in none. */
  ghost predicate InScope(t: Located, up: seq<Tag>) {
    forall sel :: Owner(up, sel) ==> Owner(t.up, sel)
  }

  lemma {:induction false} InScopeExactly(t: Located, up: seq<Tag>)
    ensures InScope(t, up) <==> NearestSelect(up).None? || NearestSelect(t.up) == NearestSelect(up)
  {
    forall sel: nat
      ensures Owner(up, sel) <==> NearestSelect(up) == Some(sel)
      ensures Owner(t.up, sel) <==> NearestSelect(t.up) == Some(sel)
    {
      OwnerExactly(up, sel);
      OwnerExactly(t.up, sel);
    }
    if NearestSelect(up).Some? {
      assert Owner(up, NearestSelect(up).value);
    }
  }

  // ---------------------------------------------------------------- classified references

  /** `t` is a reference of the statement whose own key, case folded, is `key`, and `key` has classified columns. */
  ghost predicate Classified(t: Located, key: string, tables: seq<Located>, configured: PiiConfig) {
    && t in tables && t.node.Table?
    && key in configured && configured[key] != {}
    && OwnKey(Lower(t.node.db), Lower(t.node.name), ClassifiedKeys(configured)) == Some(key)
  }

  lemma {:induction false} ClassifiedExactly(t: Located, key: string, cols: set<string>, tables: seq<Located>,
        configured: PiiConfig)
    ensures Entry(t, key, cols) in Mapped(tables, configured)
      <==> Classified(t, key, tables, configured) && cols == configured[key]
  {
    if t.node.Table? {
      MatchedPiiExactly(t.node, configured);
    }
  }

  /** The name or alias of the reference, case folded. */
  predicate Called(t: Node, q: string) {
    t.Table? && (Lower(t.name) == q || (t.alias != "" && Lower(t.alias) == q))
  }

  lemma {:induction false} CalledExactly(e: Entry, q: string)
    ensures NamedEntry(e, q) <==> Called(e.table.node, q)
  {
  }

  lemma {:induction false} ScopeMember(e: Entry, up: seq<Tag>, mapped: seq<Entry>)
    ensures e in ScopeTables(up, mapped) <==> e in mapped && InScope(e.table, up)
  {
    InScopeExactly(e.table, up);
  }

  // ---------------------------------------------------------------- stars and columns

  /** The star stands for the row of `t`: not below COUNT, in scope, and under its qualifier if it has one. */
  ghost predicate StarShows(star: Located, t: Located) {
    && !Counted(star.up) && InScope(t, star.up)
    && (star.up != [] && star.up[0].ColumnTag? && star.up[0].table != "" ==> Called(t.node, Lower(star.up[0].table)))
  }

  lemma {:induction false} StarMember(star: Located, e: Entry, mapped: seq<Entry>)
    ensures !UnderCount(star.up) && e in StarCandidates(star, mapped) <==> e in mapped && StarShows(star, e.table)
  {
    CountedExactly(star.up);
    ScopeMember(e, star.up, mapped);
  }

  /** The column may read `t`: in scope, and under its qualifier if it has one. */
  ghost predicate MayRead(col: Located, t: Located)
    requires col.node.Column?
  {
    InScope(t, col.up) && (col.node.table != "" ==> Called(t.node, Lower(col.node.table)))
  }

  lemma {:induction false} ColumnMember(col: Located, e: Entry, mapped: seq<Entry>)
    requires col.node.Column?
    ensures e in ColumnCandidates(col, mapped) <==> e in mapped && MayRead(col, e.table)
  {
    ScopeMember(e, col.up, mapped);
  }

  /** The name, case folded, is one of the columns, or unqualified the name of the reference: its whole row. */
  predicate Exposes(col: Node, t: Node, columns: set<string>)
    requires col.Column?
  {
    Lower(col.name) in columns || (col.table == "" && Called(t, Lower(col.name)))
  }

  // ---------------------------------------------------------------- joins

  /** `t` stands inside the source of join `i` of SELECT `s`. */
  ghost predicate JoinedBy(t: Located, s: Located, i: nat)
    requires s.node.Select? && i < |s.node.joins|
  {
    s.node.joins[i].Join? && t in Walk(Below(s.node.joins[i].arg, Below(s.node.joins[i], s)))
  }

  /** `t` is a source of `s` by join `k`: it stands in no join, or in one up to `k`. */
  ghost predicate SourceBy(t: Located, s: Located, k: nat)
    requires s.node.Select? && k < |s.node.joins|
  {
    && Owner(t.up, s.node.id)
    && ((exists i :: 0 <= i <= k && JoinedBy(t, s, i)) || !exists i :: 0 <= i < |s.node.joins| && JoinedBy(t, s, i))
  }

  /** A NATURAL join, or one USING a column of the set, case folded. */
  ghost predicate JoinCompares(j: Node, columns: set<string>) {
    j.Join? && (Upper(j.joinMethod) == "NATURAL" || exists c :: c in j.using && Lower(c) in columns)
  }

  lemma {:induction false} SourceByExactly(e: Entry, s: Located, k: nat, mapped: seq<Entry>)
    requires s.node.Select? && k < |s.node.joins|
    ensures var scoped := InSelect(mapped, s.node.id);
      ActiveBy(e, OutsideJoins(scoped, s), scoped, s, 0, k) <==> e in mapped && SourceBy(e.table, s, k)
  {
    OwnerExactly(e.table.up, s.node.id);
    forall i | 0 <= i < |s.node.joins|
      ensures IsWithin(e.table, s, i) <==> JoinedBy(e.table, s, i)
    {
    }
  }

  // ---------------------------------------------------------------- the verdict

  /** A classified row or column of `t` is visible through a star, a column or a join of the statement. */
  ghost predicate Exposed(stmt: Node, t: Located, columns: set<string>) {
    || (exists l :: Inside(l, stmt) && l.node.Star? && StarShows(l, t))
    || (exists l :: Inside(l, stmt) && l.node.Column? && MayRead(l, t) && Exposes(l.node, t.node, columns))
    || (exists s, k :: Inside(s, stmt) && s.node.Select? && 0 <= k < |s.node.joins|
          && SourceBy(t, s, k) && JoinCompares(s.node.joins[k], columns))
  }

  lemma {:induction false} StarsExactly(nodes: seq<Located>, mapped: seq<Entry>)
    ensures (forall l :: l in nodes && l.node.Star? && !UnderCount(l.up) ==> StarCandidates(l, mapped) == []) <==>
      forall l, e :: l in nodes && l.node.Star? && e in mapped ==> !StarShows(l, e.table)
  {
    forall l: Located, e
      ensures !UnderCount(l.up) && e in StarCandidates(l, mapped) <==> e in mapped && StarShows(l, e.table)
    {
      StarMember(l, e, mapped);
    }
    forall l: Located | StarCandidates(l, mapped) != []
      ensures StarCandidates(l, mapped)[0] in StarCandidates(l, mapped)
    {
    }
  }

  lemma {:induction false} ColumnExactly(l: Located, e: Entry, mapped: seq<Entry>)
    requires l.node.Column?
    ensures (e in ColumnCandidates(l, mapped) ==> ColumnQuiet(l.node, e)) <==>
      (e in mapped && MayRead(l, e.table) ==> !Exposes(l.node, e.table.node, e.columns))
  {
    ColumnMember(l, e, mapped);
    CalledExactly(e, Lower(l.node.name));
  }

  lemma {:induction false} ColumnsExactly(nodes: seq<Located>, mapped: seq<Entry>)
    ensures (forall l, e :: l in nodes && l.node.Column? && e in ColumnCandidates(l, mapped) ==> ColumnQuiet(l.node, e))
      <==> forall l, e :: l in nodes && l.node.Column? && e in mapped && MayRead(l, e.table) ==>
        !Exposes(l.node, e.table.node, e.columns)
  {
    forall l: Located, e | l.node.Column?
      ensures (e in ColumnCandidates(l, mapped) ==> ColumnQuiet(l.node, e)) <==>
        (e in mapped && MayRead(l, e.table) ==> !Exposes(l.node, e.table.node, e.columns))
    {
      ColumnExactly(l, e, mapped);
    }
  }

  lemma {:induction false} JoinsExactly(s: Located, first: seq<Entry>, scoped: seq<Entry>, mapped: seq<Entry>)
    requires s.node.Select?
    requires forall k, e :: 0 <= k < |s.node.joins| ==>
      (ActiveBy(e, first, scoped, s, 0, k) <==> e in mapped && SourceBy(e.table, s, k))
    ensures JoinsQuiet(first, scoped, s, 0) <==>
      forall k, e :: 0 <= k < |s.node.joins| && e in mapped && SourceBy(e.table, s, k) ==>
        !JoinCompares(s.node.joins[k], e.columns)
  {
  }

  lemma {:induction false} SelectExactly(s: Located, mapped: seq<Entry>)
    requires s.node.Select?
    ensures SelectQuiet(s, mapped) <==>
      forall k, e :: 0 <= k < |s.node.joins| && e in mapped && SourceBy(e.table, s, k) ==>
        !JoinCompares(s.node.joins[k], e.columns)
  {
    var scoped := InSelect(mapped, s.node.id);
    var first := OutsideJoins(scoped, s);
    forall k, e | 0 <= k < |s.node.joins|
      ensures ActiveBy(e, first, scoped, s, 0, k) <==> e in mapped && SourceBy(e.table, s, k)
    {
      SourceByExactly(e, s, k, mapped);
    }
    assert SelectQuiet(s, mapped) <==> JoinsQuiet(first, scoped, s, 0);
    JoinsExactly(s, first, scoped, mapped);
  }

  lemma {:induction false} QuietExactly(stmt: Node, mapped: seq<Entry>)
    ensures Quiet(Walk(Root(stmt)), mapped) <==> forall e :: e in mapped ==> !Exposed(stmt, e.table, e.columns)
  {
    var nodes := Walk(Root(stmt));
    StarsExactly(nodes, mapped);
    ColumnsExactly(nodes, mapped);
    forall s: Located | s.node.Select?
      ensures SelectQuiet(s, mapped) <==>
        forall k, e :: 0 <= k < |s.node.joins| && e in mapped && SourceBy(e.table, s, k) ==>
          !JoinCompares(s.node.joins[k], e.columns)
    {
      SelectExactly(s, mapped);
    }
  }

  /** The check reports exactly if some classified reference is exposed. */
  lemma {:induction false} PiiReportedExactly(stmt: Node, tables: seq<Located>, policy: GuardPolicy)
    ensures CheckPii(stmt, tables, policy) != [] <==>
      && policy.piiColumns.Some?
      && exists t, key :: Classified(t, key, tables, policy.piiColumns.value)
           && Exposed(stmt, t, policy.piiColumns.value[key])
  {
    if policy.piiColumns.Some? {
      var configured := policy.piiColumns.value;
      var mapped := Mapped(tables, configured);
      CheckPiiExact(stmt, tables, policy);
      QuietExactly(stmt, mapped);
      if e :| e in mapped && Exposed(stmt, e.table, e.columns) {
        ClassifiedExactly(e.table, e.key, e.columns, tables, configured);
      }
      if t, key :| Classified(t, key, tables, configured) && Exposed(stmt, t, configured[key]) {
        ClassifiedExactly(t, key, configured[key], tables, configured);
      }
    }
  }
}
