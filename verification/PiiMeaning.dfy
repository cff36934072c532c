/** What an empty PII report means: the result cannot depend on a classified column. */
module PiiMeaning {
  import opened Syntax
  import opened Text
  import opened Traversal
  import opened Semantics
  import opened Scoping
  import opened Origins
  import opened Noninterference
  import opened Policy
  import opened Tables
  import opened ColumnAllowlist
  import opened Pii
  import TableAllowlist

  // ---------------------------------------------------------------- an empty report

  ghost predicate Sane(r: Report) {
    r.flagged == {} <==> r.out == []
  }

  lemma {:induction false} FlagQuiet(r: Report, key: string, mark: string)
    requires Sane(r)
    ensures Sane(Flag(r, key, mark)) && Flag(r, key, mark).out != []
  {
    if (key, mark) !in r.flagged {
      assert (key, mark) in Flag(r, key, mark).flagged;
    }
  }

  lemma {:induction false} FlagAllQuiet(r: Report, entries: seq<Entry>, mark: string)
    requires Sane(r)
    ensures Sane(FlagAll(r, entries, mark))
    ensures FlagAll(r, entries, mark).out == [] <==> r.out == [] && entries == []
    decreases |entries|
  {
    if entries != [] {
      FlagQuiet(r, entries[0].key, mark);
      FlagAllQuiet(Flag(r, entries[0].key, mark), entries[1..], mark);
    }
  }

  lemma {:induction false} FlagUsingQuiet(r: Report, active: seq<Entry>, name: string)
    requires Sane(r)
    ensures Sane(FlagUsing(r, active, name))
    ensures FlagUsing(r, active, name).out == [] <==> r.out == [] && NameQuiet(active, name)
    decreases |active|
  {
    if active != [] {
      FlagQuiet(r, active[0].key, name);
      FlagUsingQuiet(if name in active[0].columns then Flag(r, active[0].key, name) else r, active[1..], name);
    }
  }

  ghost predicate NameQuiet(active: seq<Entry>, name: string) {
    forall e :: e in active ==> name !in e.columns
  }

  lemma {:induction false} FlagUsingsQuiet(r: Report, active: seq<Entry>, names: seq<string>)
    requires Sane(r)
    ensures Sane(FlagUsings(r, active, names))
    ensures FlagUsings(r, active, names).out == [] <==> r.out == [] && forall c ::
        c in names ==> NameQuiet(active, Lower(c))
    decreases |names|
  {
    if names != [] {
      FlagUsingQuiet(r, active, Lower(names[0]));
      FlagUsingsQuiet(FlagUsing(r, active, Lower(names[0])), active, names[1..]);
      assert names[0] in names && forall c :: c in names <==> c == names[0] || c in names[1..];
    }
  }

  /** Join `j` touches no classified column of `e`. */
  ghost predicate JoinQuiet(e: Entry, j: Node) {
    j.Join? ==> !IsNatural(j) && forall c :: c in j.using ==> Lower(c) !in e.columns
  }

  lemma {:induction false} FlagJoinQuiet(r: Report, active: seq<Entry>, j: Node)
    requires Sane(r)
    ensures Sane(FlagJoin(r, active, j))
    ensures FlagJoin(r, active, j).out == [] <==> r.out == [] && forall e :: e in active ==> JoinQuiet(e, j)
  {
    if j.Join? {
      var r1 := if IsNatural(j) then FlagAll(r, active, "NATURAL JOIN") else r;
      FlagAllQuiet(r, active, "NATURAL JOIN");
      FlagUsingsQuiet(r1, active, j.using);
      assert (forall e :: e in active ==> forall c :: c in j.using ==> Lower(c) !in e.columns)
        <==> forall c :: c in j.using ==> NameQuiet(active, Lower(c));
      if active != [] {
        assert active[0] in active;
      }
    }
  }

  /** `e` has joined in by join `k`. */
  ghost predicate ActiveBy(e: Entry, active: seq<Entry>, scoped: seq<Entry>, s: Located, i: nat, k: nat)
    requires s.node.Select? && k < |s.node.joins|
  {
    e in active || (e in scoped && exists x :: i <= x <= k && IsWithin(e.table, s, x))
  }

  /** From join `i` on, no join touches a classified column of the sources joined so far. */
  ghost predicate JoinsQuiet(active: seq<Entry>, scoped: seq<Entry>, s: Located, i: nat)
    requires s.node.Select?
  {
    forall k, e :: i <= k < |s.node.joins| && ActiveBy(e, active, scoped, s, i, k) ==> JoinQuiet(e, s.node.joins[k])
  }

  lemma {:induction false} JoinsQuietStep(active: seq<Entry>, scoped: seq<Entry>, s: Located, i: nat)
    requires s.node.Select? && i < |s.node.joins|
    ensures JoinsQuiet(active, scoped, s, i) <==>
      && (forall e :: e in Activate(active, scoped, s, i) ==> JoinQuiet(e, s.node.joins[i]))
      && JoinsQuiet(Activate(active, scoped, s, i), scoped, s, i + 1)
  {
    var now := Activate(active, scoped, s, i);
    forall k, e | i < k < |s.node.joins|
      ensures ActiveBy(e, active, scoped, s, i, k) <==> ActiveBy(e, now, scoped, s, i + 1, k)
    {
      LaterActive(e, active, scoped, s, i, k);
    }
    forall e
      ensures ActiveBy(e, active, scoped, s, i, i) <==> e in now
    {
    }
  }

  /** What is active by a later join was active, joins now, or joins in between. */
  lemma {:induction false} LaterActive(e: Entry, active: seq<Entry>, scoped: seq<Entry>, s: Located, i: nat, k: nat)
    requires s.node.Select? && i < k < |s.node.joins|
    ensures ActiveBy(e, active, scoped, s, i, k) <==> ActiveBy(e, Activate(active, scoped, s, i), scoped, s, i + 1, k)
  {
    if e !in active && e in scoped && ActiveBy(e, active, scoped, s, i, k) {
      var x :| i <= x <= k && IsWithin(e.table, s, x);
      assert x == i ==> e in Activate(active, scoped, s, i);
    }
  }

  lemma {:induction false} FlagJoinsQuiet(r: Report, active: seq<Entry>, scoped: seq<Entry>, s: Located, i: nat)
    requires Sane(r) && s.node.Select? && i <= |s.node.joins|
    ensures Sane(FlagJoins(r, active, scoped, s, i))
    ensures FlagJoins(r, active, scoped, s, i).out == [] <==> r.out == [] && JoinsQuiet(active, scoped, s, i)
    decreases |s.node.joins| - i
  {
    if i < |s.node.joins| {
      var now := Activate(active, scoped, s, i);
      FlagJoinQuiet(r, now, s.node.joins[i]);
      FlagJoinsQuiet(FlagJoin(r, now, s.node.joins[i]), now, scoped, s, i + 1);
      JoinsQuietStep(active, scoped, s, i);
    }
  }

  /** The joins of SELECT `s` touch no classified column of the sources joined so far. */
  ghost predicate SelectQuiet(s: Located, mapped: seq<Entry>) {
    s.node.Select? ==>
      var scoped := InSelect(mapped, s.node.id);
      JoinsQuiet(OutsideJoins(scoped, s), scoped, s, 0)
  }

  lemma {:induction false} FlagSelectQuiet(r: Report, s: Located, mapped: seq<Entry>)
    requires Sane(r) && s.node.Select?
    ensures var scoped := InSelect(mapped, s.node.id);
      var r1 := FlagJoins(r, OutsideJoins(scoped, s), scoped, s, 0);
      Sane(r1) && (r1.out == [] <==> r.out == [] && SelectQuiet(s, mapped))
  {
    var scoped := InSelect(mapped, s.node.id);
    FlagJoinsQuiet(r, OutsideJoins(scoped, s), scoped, s, 0);
  }

  ghost predicate SelectsQuiet(selects: seq<Located>, mapped: seq<Entry>) {
    forall s :: s in selects ==> SelectQuiet(s, mapped)
  }

  lemma {:induction false} FirstSelectQuiet(selects: seq<Located>, mapped: seq<Entry>)
    requires selects != []
    ensures SelectsQuiet(selects, mapped) <==> SelectQuiet(selects[0], mapped) && SelectsQuiet(selects[1..], mapped)
  {
    assert selects[0] in selects && forall s :: s in selects <==> s == selects[0] || s in selects[1..];
  }

  lemma {:induction false} FlagSelectsQuiet(r: Report, selects: seq<Located>, mapped: seq<Entry>)
    requires Sane(r)
    ensures Sane(FlagSelects(r, selects, mapped))
    ensures FlagSelects(r, selects, mapped).out == [] <==> r.out == [] && SelectsQuiet(selects, mapped)
    decreases |selects|
  {
    if selects != [] {
      var s := selects[0];
      FirstSelectQuiet(selects, mapped);
      if s.node.Select? {
        var scoped := InSelect(mapped, s.node.id);
        FlagSelectQuiet(r, s, mapped);
        FlagSelectsQuiet(FlagJoins(r, OutsideJoins(scoped, s), scoped, s, 0), selects[1..], mapped);
      } else {
        FlagSelectsQuiet(r, selects[1..], mapped);
      }
    }
  }

  lemma {:induction false} FlagStarsQuiet(r: Report, stars: seq<Located>, mapped: seq<Entry>)
    requires Sane(r)
    ensures Sane(FlagStars(r, stars, mapped))
    ensures FlagStars(r, stars, mapped).out == [] <==>
      r.out == [] && forall l :: l in stars && !UnderCount(l.up) ==> StarCandidates(l, mapped) == []
    decreases |stars|
  {
    if stars != [] {
      FlagAllQuiet(r, StarCandidates(stars[0], mapped), "*");
      FlagStarsQuiet(if UnderCount(stars[0].up) then r else FlagAll(r, StarCandidates(stars[0], mapped), "*"),
                     stars[1..], mapped);
    }
  }

  /** A column does not name a classified column, nor the whole row, of `e`. */
  ghost predicate ColumnQuiet(col: Node, e: Entry)
    requires col.Column?
  {
    !WholeRow(col, e) && Lower(col.name) !in e.columns
  }

  lemma {:induction false} FlagColumnQuiet(r: Report, entries: seq<Entry>, col: Node)
    requires Sane(r) && col.Column?
    ensures Sane(FlagColumn(r, entries, col))
    ensures FlagColumn(r, entries, col).out == [] <==> r.out == [] && forall e :: e in entries ==> ColumnQuiet(col, e)
    decreases |entries|
  {
    if entries != [] {
      var e := entries[0];
      assert e in entries && forall x :: x in entries <==> x == e || x in entries[1..];
      FlagQuiet(r, e.key, "*");
      FlagQuiet(r, e.key, Lower(col.name));
      FlagColumnQuiet(
        if WholeRow(col, e) then Flag(r, e.key, "*")
        else if Lower(col.name) in e.columns then Flag(r, e.key, Lower(col.name))
        else r,
        entries[1..], col);
    }
  }

  lemma {:induction false} FlagColumnsQuiet(r: Report, cols: seq<Located>, mapped: seq<Entry>)
    requires Sane(r)
    ensures Sane(FlagColumns(r, cols, mapped))
    ensures FlagColumns(r, cols, mapped).out == [] <==>
      r.out == [] && forall l, e :: l in cols && l.node.Column? && e in ColumnCandidates(l, mapped) ==>
          ColumnQuiet(l.node, e)
    decreases |cols|
  {
    if cols != [] {
      if cols[0].node.Column? {
        FlagColumnQuiet(r, ColumnCandidates(cols[0], mapped), cols[0].node);
        FlagColumnsQuiet(FlagColumn(r, ColumnCandidates(cols[0], mapped), cols[0].node), cols[1..], mapped);
      } else {
        FlagColumnsQuiet(r, cols[1..], mapped);
      }
    }
  }

  /** What an empty report says about the occurrences of a statement. */
  ghost predicate Quiet(nodes: seq<Located>, mapped: seq<Entry>) {
    && (forall s :: s in nodes && s.node.Select? ==> SelectQuiet(s, mapped))
    && (forall l :: l in nodes && l.node.Star? && !UnderCount(l.up) ==> StarCandidates(l, mapped) == [])
    && (forall l, e :: l in nodes && l.node.Column? && e in ColumnCandidates(l, mapped) ==> ColumnQuiet(l.node, e))
  }

  lemma {:induction false} ReportQuiet(stmt: Node, mapped: seq<Entry>)
    ensures PiiReport(FindAll(stmt, IsSelect), FindAll(stmt, IsStar), FindAll(stmt, IsColumn), mapped).out == [] <==>
      Quiet(Walk(Root(stmt)), mapped)
  {
    var selects, stars, cols := FindAll(stmt, IsSelect), FindAll(stmt, IsStar), FindAll(stmt, IsColumn);
    var r0 := Report({}, []);
    FlagSelectsQuiet(r0, selects, mapped);
    var r1 := FlagSelects(r0, selects, mapped);
    FlagStarsQuiet(r1, stars, mapped);
    FlagColumnsQuiet(FlagStars(r1, stars, mapped), cols, mapped);
    FoundAll(stmt, selects, stars, cols);
  }

  lemma {:induction false} FoundAll(stmt: Node, selects: seq<Located>, stars: seq<Located>, cols: seq<Located>)
    requires selects == FindAll(stmt, IsSelect) && stars == FindAll(stmt, IsStar) && cols == FindAll(stmt, IsColumn)
    ensures forall l :: l in selects <==> l in Walk(Root(stmt)) && l.node.Select?
    ensures forall l :: l in stars <==> l in Walk(Root(stmt)) && l.node.Star?
    ensures forall l :: l in cols <==> l in Walk(Root(stmt)) && IsColumn(l.node)
  {
    forall l
      ensures l in selects <==> l in Walk(Root(stmt)) && l.node.Select?
      ensures l in stars <==> l in Walk(Root(stmt)) && l.node.Star?
      ensures l in cols <==> l in Walk(Root(stmt)) && IsColumn(l.node)
    {
      FoundIffInside(stmt, IsSelect, l);
      FoundIffInside(stmt, IsStar, l);
      FoundIffInside(stmt, IsColumn, l);
    }
  }

  lemma {:induction false} NothingToFlag(nodes: seq<Located>)
    ensures Quiet(nodes, [])
  {
    forall s: Located | s.node.Select?
      ensures SelectQuiet(s, [])
    {
      assert InSelect([], s.node.id) == [];
    }
  }

  lemma {:induction false} NoKeyMatches(cands: seq<string>, configured: PiiConfig)
    requires configured == map[]
    ensures FirstClassified(cands, configured).None?
    decreases |cands|
  {
    if cands != [] {
      NoKeyMatches(cands[1..], configured);
    }
  }

  lemma {:induction false} UnconfiguredMapsNothing(tables: seq<Located>, configured: PiiConfig)
    requires configured == map[]
    ensures Mapped(tables, configured) == []
    decreases |tables|
  {
    if tables != [] {
      if tables[0].node.Table? {
        NoKeyMatches(KeyCandidates(tables[0].node), configured);
      }
      UnconfiguredMapsNothing(tables[1..], configured);
    }
  }

  /**
   * The check is exact: it is silent if and only if no star stands for a classified source, no column
   * names a classified column or the row of a classified source, and no join touches one.
   */
  lemma {:induction false} CheckPiiExact(stmt: Node, tables: seq<Located>, policy: GuardPolicy)
    requires policy.piiColumns.Some?
    ensures CheckPii(stmt, tables, policy) == [] <==> Quiet(Walk(Root(stmt)), Mapped(tables, policy.piiColumns.value))
  {
    var mapped := Mapped(tables, policy.piiColumns.value);
    if policy.piiColumns.value == map[] {
      UnconfiguredMapsNothing(tables, policy.piiColumns.value);
    }
    if mapped == [] {
      NothingToFlag(Walk(Root(stmt)));
    } else {
      ReportQuiet(stmt, mapped);
    }
  }

  // ---------------------------------------------------------------- one SELECT at a time

  /** SELECT `sel` has a classified base table among its own sources. */
  ghost predicate ReadsClassified(sel: nat, mapped: seq<Entry>) {
    exists e :: e in mapped && NearestSelect(e.table.up) == Some(sel)
  }

  /** Everything that stands directly in SELECT `sel`, or outside every SELECT, is quiet. */
  ghost predicate QuietAt(sel: Option<nat>, nodes: seq<Located>, mapped: seq<Entry>) {
    && (forall s :: s in nodes && s.node.Select? && sel == Some(s.node.id) ==> SelectQuiet(s, mapped))
    && (forall l :: l in nodes && l.node.Star? && NearestSelect(l.up) == sel && !UnderCount(l.up) ==>
        StarCandidates(l, mapped) == [])
    && (forall l, e ::
          l in nodes && l.node.Column? && NearestSelect(l.up) == sel && e in ColumnCandidates(l, mapped) ==>
            ColumnQuiet(l.node, e))
  }

  lemma {:induction false} QuietBySelect(nodes: seq<Located>, mapped: seq<Entry>)
    ensures Quiet(nodes, mapped) <==> forall sel :: QuietAt(sel, nodes, mapped)
  {
    if forall sel :: QuietAt(sel, nodes, mapped) {
      forall s | s in nodes && s.node.Select?
        ensures SelectQuiet(s, mapped)
      {
        assert QuietAt(Some(s.node.id), nodes, mapped);
      }
      forall l | l in nodes && l.node.Star? && !UnderCount(l.up)
        ensures StarCandidates(l, mapped) == []
      {
        assert QuietAt(NearestSelect(l.up), nodes, mapped);
      }
      forall l, e | l in nodes && l.node.Column? && e in ColumnCandidates(l, mapped)
        ensures ColumnQuiet(l.node, e)
      {
        assert QuietAt(NearestSelect(l.up), nodes, mapped);
      }
    }
  }

  lemma {:induction false} NoEntries(sel: nat, mapped: seq<Entry>)
    requires forall e :: e in mapped ==> NearestSelect(e.table.up) != Some(sel)
    ensures InSelect(mapped, sel) == []
    decreases |mapped|
  {
    if mapped != [] {
      assert mapped[0] in mapped;
      NoEntries(sel, mapped[1..]);
    }
  }

  /**
   * A SELECT that reads no classified base table directly is usable with any projection: `*`, `t.*`,
   * any column and any join over derived tables, WITH queries and unclassified tables is never reported.
   */
  lemma {:induction false} SafeProjectionUsable(sel: nat, nodes: seq<Located>, mapped: seq<Entry>)
    requires !ReadsClassified(sel, mapped)
    ensures QuietAt(Some(sel), nodes, mapped)
  {
    NoEntries(sel, mapped);
    forall s | s in nodes && s.node.Select? && s.node.id == sel
      ensures SelectQuiet(s, mapped)
    {
      assert OutsideJoins([], s) == [];
    }
  }

  /** So the check only depends on the SELECTs that read a classified base table directly. */
  lemma {:induction false} OnlyClassifiedSelectsMatter(stmt: Node, tables: seq<Located>, policy: GuardPolicy)
    requires policy.piiColumns.Some?
    ensures var nodes, mapped := Walk(Root(stmt)), Mapped(tables, policy.piiColumns.value);
      CheckPii(stmt, tables, policy) == [] <==>
        QuietAt(None, nodes, mapped) && forall sel :: ReadsClassified(sel, mapped) ==> QuietAt(Some(sel), nodes, mapped)
  {
    var nodes, mapped := Walk(Root(stmt)), Mapped(tables, policy.piiColumns.value);
    CheckPiiExact(stmt, tables, policy);
    QuietBySelect(nodes, mapped);
    if QuietAt(None, nodes, mapped) && forall sel ::
        ReadsClassified(sel, mapped) ==> QuietAt(Some(sel), nodes, mapped) {
      forall sel: Option<nat>
        ensures QuietAt(sel, nodes, mapped)
      {
        if sel.Some? && !ReadsClassified(sel.value, mapped) {
          SafeProjectionUsable(sel.value, nodes, mapped);
        }
      }
    }
  }

  // ---------------------------------------------------------------- the theorem

  /** The classification as a view of the database: of a classified table everything but its classified columns. */
  function PiiAccess(configured: PiiConfig): Access {
    (t: TableName) =>
      var key := OwnKey(Lower(t.db), Lower(t.name), ClassifiedKeys(configured));
      if key.Some? then Some(AllBut(configured[key.value])) else Some(All)
  }

  /** `e` belongs to a SELECT around the one a node stands in. */
  predicate Outer(e: Entry, up: seq<Tag>) {
    var sel := NearestSelect(e.table.up);
    sel.Some? && SelectTag(sel.value) in up && NearestSelect(up) != sel
  }

  /** The reference could mean a classified column, or the row, of `e`. */
  predicate CouldName(col: Node, e: Entry)
    requires IsColumn(col) && e.table.node.Table?
  {
    if col.StarColumn? then col.table == AliasOrName(e.table.node)
    else if col.table != "" then col.table == AliasOrName(e.table.node) && Lower(col.name) in e.columns
    else Lower(col.name) in e.columns || col.name == AliasOrName(e.table.node)
  }

  /**
   * The statements for which an empty report is a guarantee: no column alias list on a classified
   * table, a star inside COUNT only as its argument, and no reference from a nested SELECT that could
   * name a classified column of an enclosing one.
   */
  ghost predicate PiiReady(nodes: seq<Located>, mapped: seq<Entry>) {
    && (forall l :: l in nodes && l.node.StarColumn? ==> l.node.table != "" && l.node.arg.Star?)
    && (forall e :: e in mapped ==> e.table.node.Table? && e.table.node.columns == [])
    && (forall l :: l in nodes && l.node.Star? && l.up != [] && !l.up[0].CountTag? ==> !UnderCount(l.up))
    && (forall l, e :: l in nodes && IsColumn(l.node) && e in mapped && Outer(e, l.up) ==> !CouldName(l.node, e))
  }

  /** What the tree says about its SELECT, join and star nodes. */
  ghost predicate Linked(nodes: seq<Located>) {
    && (forall l :: l in nodes && l.node.StarColumn? ==> Below(l.node.arg, l) in nodes)
    && (forall s, t ::
          s in nodes && s.node.Select? && s.node.from.Some? && s.node.from.value.From?
            && t == FromSource(s) && t.node.Table? ==>
            !InSomeJoin(t, s))
    && (forall s, i: nat :: s in nodes && s.node.Select? && i < |s.node.joins| && s.node.joins[i].Join? ==>
        IsWithin(JoinSource(s, i), s, i))
  }

  ghost predicate Passed(whole: Whole, mapped: seq<Entry>, configured: PiiConfig) {
    && whole.outer == []
    && Linked(whole.nodes)
    && (forall t, e :: t in whole.bases && EntryOf(t, configured) == Some(e) ==> e in mapped)
    && PiiReady(whole.nodes, mapped)
    && Quiet(whole.nodes, mapped)
  }

  lemma {:induction false} SourceSelect(t: Located, s: Located, k: nat)
    requires s.node.Select? && SourceUpTo(t, s, k)
    ensures NearestSelect(t.up) == Some(s.node.id)
  {
    if i: nat :| i < k && i < |s.node.joins| && s.node.joins[i].Join? && t == JoinSource(s, i) {
      assert t.up[1..] == [SelectTag(s.node.id)] + s.up;
    }
    if s.node.from.Some? && s.node.from.value.From? && t == FromSource(s) {
      assert t.up[1..] == [SelectTag(s.node.id)] + s.up;
    }
  }

  /** A source of which something is hidden is a classified table of its SELECT. */
  lemma {:induction false} ClassifiedBind(binds: seq<Bind>, s: Located, n: nat, k: Bind, whole: Whole,
        mapped: seq<Entry>, configured: PiiConfig) returns (e: Entry)
    requires Passed(whole, mapped, configured)
    requires s.node.Select? && BindsUpTo(binds, s, n, whole) && k in binds
    requires VisOf(k, PiiAccess(configured)) != All
    ensures e in mapped && k.table == Some(e.table) && e.table.node.Table? && SourceUpTo(e.table, s, n)
    ensures VisOf(k, PiiAccess(configured)) == AllBut(e.columns) && k.alias == AliasOrName(e.table.node)
    ensures NearestSelect(e.table.up) == Some(s.node.id)
  {
    var t := k.table.value;
    MatchedPiiExactly(t.node, configured);
    e := EntryOf(t, configured).value;
    SourceSelect(t, s, n);
  }

  /** One reference against one classified source in scope. */
  lemma {:induction false} ColumnAgainst(col: Located, e: Entry, sel: nat, nodes: seq<Located>, mapped: seq<Entry>)
    requires Quiet(nodes, mapped) && PiiReady(nodes, mapped)
    requires col in nodes && col.node.Column? && e in mapped && e.table.node.Table?
    requires NearestSelect(e.table.up) == Some(sel) && SelectTag(sel) in col.up
    requires col.node.table == "" || col.node.table == AliasOrName(e.table.node)
    ensures Lower(col.node.name) !in e.columns
    ensures col.node.table == "" ==> col.node.name != AliasOrName(e.table.node)
  {
    if NearestSelect(col.up) == Some(sel) {
      assert e in ColumnCandidates(col, mapped);
      assert ColumnQuiet(col.node, e);
    } else {
      assert Outer(e, col.up);
    }
  }

  lemma {:induction false} ColumnIsOk(col: Located, sc: Scope, whole: Whole, mapped: seq<Entry>, configured: PiiConfig)
    requires Passed(whole, mapped, configured)
    requires col in whole.nodes && col.node.Column? && ScopeRooted(sc, whole) && sc.Local?
        && SelectTag(sc.sel) in col.up
    ensures ColumnOk(sc, col.node.table, col.node.name, PiiAccess(configured))
  {
    var s :| ScopeOf(sc, s, whole);
    forall k | k in sc.binds && (col.node.table == "" || k.alias == col.node.table)
      ensures Sees(VisOf(k, PiiAccess(configured)), col.node.name)
      ensures col.node.table == "" && k.alias == col.node.name ==> VisOf(k, PiiAccess(configured)).All?
    {
      if VisOf(k, PiiAccess(configured)) != All {
        var e := ClassifiedBind(sc.binds, s, |s.node.joins|, k, whole, mapped, configured);
        ColumnAgainst(col, e, sc.sel, whole.nodes, mapped);
      }
    }
  }

  lemma {:induction false} StarAgainst(star: Located, e: Entry, sel: nat, nodes: seq<Located>, mapped: seq<Entry>)
    requires Quiet(nodes, mapped) && PiiReady(nodes, mapped)
    requires star in nodes && star.node.Star? && star.up != [] && star.up[0] == SelectTag(sel)
    requires e in mapped
    ensures NearestSelect(e.table.up) != Some(sel)
  {
    assert StarCandidates(star, mapped) == [];
    assert e in InSelect(mapped, sel) <==> NearestSelect(e.table.up) == Some(sel);
  }

  lemma {:induction false} StarIsOk(star: Located, sc: Scope, whole: Whole, mapped: seq<Entry>, configured: PiiConfig)
    requires Passed(whole, mapped, configured)
    requires star in whole.nodes && star.node.Star? && sc.Local? && ScopeRooted(sc, whole)
    requires star.up != [] && star.up[0] == SelectTag(sc.sel)
    ensures AllVisible(sc.binds, PiiAccess(configured))
  {
    var s :| ScopeOf(sc, s, whole);
    forall k | k in sc.binds
      ensures VisOf(k, PiiAccess(configured)).All?
    {
      if VisOf(k, PiiAccess(configured)) != All {
        var e := ClassifiedBind(sc.binds, s, |s.node.joins|, k, whole, mapped, configured);
        StarAgainst(star, e, sc.sel, whole.nodes, mapped);
      }
    }
  }

  lemma {:induction false} LabelIsSource(t: Node)
    requires t.Table?
    ensures Lower(AliasOrName(t)) in SourceNames(t)
  {
  }

  /** `q.*` against one classified source called `q`. */
  lemma {:induction false} TableStarAgainst(col: Located, e: Entry, sel: nat, nodes: seq<Located>, mapped: seq<Entry>)
    requires Quiet(nodes, mapped) && PiiReady(nodes, mapped) && Linked(nodes)
    requires col in nodes && col.node.StarColumn? && e in mapped && e.table.node.Table?
    requires NearestSelect(e.table.up) == Some(sel) && SelectTag(sel) in col.up
    ensures col.node.table != AliasOrName(e.table.node)
  {
    var star := Below(col.node.arg, col);
    if NearestSelect(col.up) == Some(sel) {
      assert star in nodes && star.node.Star? && star.up[0] == ColumnTag(col.node.table);
      assert star.up[1..] == col.up;
      assert NearestSelect(star.up) == NearestSelect(col.up);
      var q := Lower(col.node.table);
      assert e in ScopeTables(star.up, mapped);
      assert NamedEntry(e, q) ==> e in WithName(ScopeTables(star.up, mapped), q);
      LabelIsSource(e.table.node);
      assert StarCandidates(star, mapped) == [];
    } else {
      assert Outer(e, col.up);
    }
  }

  lemma {:induction false} TableStarIsOk(col: Located, sc: Scope, whole: Whole, mapped: seq<Entry>,
        configured: PiiConfig)
    requires Passed(whole, mapped, configured)
    requires col in whole.nodes && col.node.StarColumn? && ScopeRooted(sc, whole) && sc.Local?
        && SelectTag(sc.sel) in col.up
    ensures TableStarOk(sc, col.node.table, PiiAccess(configured))
  {
    var s :| ScopeOf(sc, s, whole);
    forall k | k in sc.binds && k.alias == col.node.table
      ensures VisOf(k, PiiAccess(configured)).All?
    {
      if VisOf(k, PiiAccess(configured)) != All {
        var e := ClassifiedBind(sc.binds, s, |s.node.joins|, k, whole, mapped, configured);
        TableStarAgainst(col, e, sc.sel, whole.nodes, mapped);
      }
    }
  }

  /** A classified source has joined in when its join is examined. */
  lemma {:induction false} SourceActive(e: Entry, s: Located, k: nat, nodes: seq<Located>, mapped: seq<Entry>)
    requires Linked(nodes) && s in nodes && s.node.Select? && k < |s.node.joins|
    requires e in mapped && e.table.node.Table? && SourceUpTo(e.table, s, k + 1)
        && NearestSelect(e.table.up) == Some(s.node.id)
    ensures ActiveBy(e, OutsideJoins(InSelect(mapped, s.node.id), s), InSelect(mapped, s.node.id), s, 0, k)
  {
    var scoped := InSelect(mapped, s.node.id);
    assert e in scoped;
    if s.node.from.Some? && s.node.from.value.From? && e.table == FromSource(s) {
      assert !InSomeJoin(e.table, s);
    } else {
      var i: nat :| i < k + 1 && i < |s.node.joins| && s.node.joins[i].Join? && e.table == JoinSource(s, i);
      assert IsWithin(e.table, s, i);
    }
  }

  lemma {:induction false} JoinIsQuiet(join: Located, binds: seq<Bind>, s: Located, n: nat, k: Bind, whole: Whole,
        mapped: seq<Entry>, configured: PiiConfig)
    requires Passed(whole, mapped, configured) && JoinOf(join, binds, s, n, whole) && k in binds
    ensures VisOf(k, PiiAccess(configured)) == All
      || (!IsNatural(join.node) && forall c :: c in join.node.using ==> Sees(VisOf(k, PiiAccess(configured)), c))
  {
    if VisOf(k, PiiAccess(configured)) != All {
      var e := ClassifiedBind(binds, s, n + 1, k, whole, mapped, configured);
      SourceActive(e, s, n, whole.nodes, mapped);
      assert SelectQuiet(s, mapped);
      assert JoinQuiet(e, s.node.joins[n]);
    }
  }

  lemma {:induction false} NeedIsOk(need: Need, whole: Whole, mapped: seq<Entry>, configured: PiiConfig)
    requires Passed(whole, mapped, configured) && Rooted(need, whole)
    ensures Ok(need, PiiAccess(configured))
  {
    match need
    case NeedTable(t) => TableIsOk(t, whole, mapped, configured);
    case NeedColumn(col, scopes) =>
      forall sc | sc in scopes
        ensures ColumnOk(sc, col.node.table, col.node.name, PiiAccess(configured))
      {
        assert ScopeRooted(sc, whole);
        ColumnIsOk(col, sc, whole, mapped, configured);
      }
    case NeedStar(star, sc) => StarIsOk(star, sc, whole, mapped, configured);
    case NeedTableStar(col, scopes) =>
      forall sc | sc in scopes
        ensures TableStarOk(sc, col.node.table, PiiAccess(configured))
      {
        assert ScopeRooted(sc, whole);
        TableStarIsOk(col, sc, whole, mapped, configured);
      }
    case NeedUsing(join, c, binds) =>
      var s, n: nat :| JoinOf(join, binds, s, n, whole);
      forall k | k in binds
        ensures Sees(VisOf(k, PiiAccess(configured)), c)
      {
        JoinIsQuiet(join, binds, s, n, k, whole, mapped, configured);
      }
    case NeedNatural(join, binds) =>
      var s, n: nat :| JoinOf(join, binds, s, n, whole);
      forall k | k in binds
        ensures VisOf(k, PiiAccess(configured)).All?
      {
        JoinIsQuiet(join, binds, s, n, k, whole, mapped, configured);
      }
  }

  lemma {:induction false} TableIsOk(t: Located, whole: Whole, mapped: seq<Entry>, configured: PiiConfig)
    requires Passed(whole, mapped, configured) && t in whole.bases && t.node.Table?
    ensures Ok(NeedTable(t), PiiAccess(configured))
  {
    MatchedPiiExactly(t.node, configured);
    if MatchedPii(t.node, configured).Some? {
      assert EntryOf(t, configured).value in mapped;
    }
  }

  // ---------------------------------------------------------------- facts of the tree

  lemma {:induction false} StarLinked(whole: Whole, l: Located)
    requires Faithful(whole) && l in whole.nodes && l.node.StarColumn?
    ensures Below(l.node.arg, l) in whole.nodes
  {
    KidInside(l, l.node.arg, whole.node);
  }

  lemma {:induction false} WalkHasSource(f: Located, src: Node)
    requires src in Kids(f.node)
    ensures Below(src, f) in Walk(f)
  {
    KidsAreSubterms(f.node);
    WalkAllContainsRoot(f, Kids(f.node), src);
  }

  /** Child positions: the FROM clause and the i-th join of a SELECT. */
  function FromAt(n: Node): nat
    requires n.Select?
  {
    |n.ctes| + |n.items| + |OptList(n.into)|
  }

  lemma {:induction false} KidsOfSelect(n: Node)
    requires n.Select? && n.from.Some?
    ensures Kids(n) == (n.ctes + n.items + OptList(n.into)) + [n.from.value] + n.joins
      + (OptList(n.where) + OptList(n.having) + n.locks + OptList(n.limit))
  {
  }

  lemma {:induction false} PositionsIn(a: seq<Node>, f: Node, joins: seq<Node>, z: seq<Node>, i: nat)
    requires i < |joins|
    ensures |a| + 1 + i < |a + [f] + joins + z|
    ensures (a + [f] + joins + z)[|a|] == f && (a + [f] + joins + z)[|a| + 1 + i] == joins[i]
  {
  }

  lemma {:induction false} KidPositions(n: Node, i: nat)
    requires n.Select? && n.from.Some? && i < |n.joins|
    ensures FromAt(n) + 1 + i < |Kids(n)|
    ensures Kids(n)[FromAt(n)] == n.from.value && Kids(n)[FromAt(n) + 1 + i] == n.joins[i]
  {
    KidsOfSelect(n);
    PositionsIn(n.ctes + n.items + OptList(n.into), n.from.value, n.joins,
                OptList(n.where) + OptList(n.having) + n.locks + OptList(n.limit), i);
  }

  /** What lies below the source of a join lies below the join. */
  lemma {:induction false} WithinBranch(t: Located, s: Located, i: nat)
    requires s.node.Select? && i < |s.node.joins| && IsWithin(t, s, i)
    ensures t in Walk(Below(s.node.joins[i], s))
  {
    var j := s.node.joins[i];
    var inner, outer := Below(j.arg, Below(j, s)), Below(j, s);
    assert j.arg in Kids(j);
    WalkHasSource(outer, j.arg);
    WalkWithin(outer, inner);
    assert t in multiset(Walk(inner));
    assert t in multiset(Walk(outer));
  }

  lemma {:induction false} FromBranch(s: Located)
    requires s.node.Select? && s.node.from.Some? && s.node.from.value.From?
    ensures FromSource(s) in Walk(Below(s.node.from.value, s))
  {
    var f := s.node.from.value;
    assert f.arg in Kids(f);
    WalkHasSource(Below(f, s), f.arg);
  }

  /** FROM and a join share no table occurrence. */
  lemma {:induction false} KidsApart(root: Node, s: Located, a: Node, b: Node, i: nat, j: nat, t: Located)
    requires UniqueIds(root) && Inside(s, root) && t.node.Table?
    requires i < j < |Kids(s.node)| && Kids(s.node)[i] == a && Kids(s.node)[j] == b
    ensures !(t in Walk(Below(a, s)) && t in Walk(Below(b, s)))
  {
    OneBranch(root, s, i, j, t);
  }

  lemma {:induction false} FromJoinApart(root: Node, s: Located, i: nat, t: Located)
    requires UniqueIds(root) && Inside(s, root)
    requires s.node.Select? && s.node.from.Some? && i < |s.node.joins| && t.node.Table?
    ensures !(t in Walk(Below(s.node.from.value, s)) && t in Walk(Below(s.node.joins[i], s)))
  {
    KidPositions(s.node, i);
    KidsApart(root, s, s.node.from.value, s.node.joins[i], FromAt(s.node), FromAt(s.node) + 1 + i, t);
  }

  /** The FROM source of a SELECT is not below any of its joins. */
  lemma {:induction false} FromOutsideJoins(whole: Whole, s: Located, i: nat)
    requires Faithful(whole) && UniqueIds(whole.node) && s in whole.nodes
    requires s.node.Select? && s.node.from.Some? && s.node.from.value.From? && FromSource(s).node.Table?
    requires i < |s.node.joins| && s.node.joins[i].Join?
    ensures !IsWithin(FromSource(s), s, i)
  {
    FromJoinApart(whole.node, s, i, FromSource(s));
    FromBranch(s);
    if IsWithin(FromSource(s), s, i) {
      WithinBranch(FromSource(s), s, i);
    }
  }

  lemma {:induction false} JoinSourceWithin(s: Located, i: nat)
    requires s.node.Select? && i < |s.node.joins| && s.node.joins[i].Join?
    ensures IsWithin(JoinSource(s, i), s, i)
  {
    RootInside(s.node.joins[i].arg);
    assert Walk(JoinSource(s, i))[0] == JoinSource(s, i);
  }

  lemma {:induction false} TreeLinked(whole: Whole)
    requires Faithful(whole) && UniqueIds(whole.node)
    ensures Linked(whole.nodes)
  {
    forall l | l in whole.nodes && l.node.StarColumn?
      ensures Below(l.node.arg, l) in whole.nodes
    {
      StarLinked(whole, l);
    }
    forall s, t | s in whole.nodes && s.node.Select? && s.node.from.Some? && s.node.from.value.From?
        && t == FromSource(s) && t.node.Table?
      ensures !InSomeJoin(t, s)
    {
      forall i | 0 <= i < |s.node.joins|
        ensures !IsWithin(t, s, i)
      {
        if s.node.joins[i].Join? {
          FromOutsideJoins(whole, s, i);
        }
      }
    }
    forall s, i: nat | s in whole.nodes && s.node.Select? && i < |s.node.joins| && s.node.joins[i].Join?
      ensures IsWithin(JoinSource(s, i), s, i)
    {
      JoinSourceWithin(s, i);
    }
  }

  lemma {:induction false} PassedMakesOk(whole: Whole, mapped: seq<Entry>, configured: PiiConfig)
    requires Faithful(whole) && Passed(whole, mapped, configured)
    ensures AllOk(Reads(whole), PiiAccess(configured))
  {
    ReadsAreRooted(whole);
    forall need | need in Reads(whole)
      ensures Ok(need, PiiAccess(configured))
    {
      NeedIsOk(need, whole, mapped, configured);
    }
  }

  lemma {:induction false} NoEntry(tables: seq<Located>, configured: PiiConfig, t: Located)
    requires t in tables && Mapped(tables, configured) == []
    ensures EntryOf(t, configured).None?
    decreases |tables|
  {
    if t != tables[0] {
      NoEntry(tables[1..], configured, t);
    }
  }

  /** Nothing classified: everything the statement reads is visible. */
  lemma {:induction false} NothingClassified(whole: Whole, tables: seq<Located>, configured: PiiConfig)
    requires Mapped(tables, configured) == [] && forall t :: t in whole.bases ==> t in tables
    ensures forall t :: t in whole.bases && t.node.Table? ==> PiiAccess(configured)(RefOf(t.node)) == Some(All)
  {
    forall t | t in whole.bases && t.node.Table?
      ensures PiiAccess(configured)(RefOf(t.node)) == Some(All)
    {
      NoEntry(tables, configured, t);
      MatchedPiiExactly(t.node, configured);
    }
  }

  /** An empty report makes every read of the statement visible. */
  lemma {:induction false} CheckMakesOk(whole: Whole, tables: seq<Located>, policy: GuardPolicy)
    requires Faithful(whole) && whole.outer == [] && UniqueIds(whole.node)
    requires policy.piiColumns.Some? && forall t :: t in whole.bases ==> t in tables
    requires PiiReady(whole.nodes, Mapped(tables, policy.piiColumns.value))
    requires CheckPii(whole.node, tables, policy) == []
    ensures AllOk(Reads(whole), PiiAccess(policy.piiColumns.value))
  {
    var configured := policy.piiColumns.value;
    var mapped := Mapped(tables, configured);
    assert forall e :: e in mapped ==> e.key in configured;
    assert mapped != [] ==> mapped[0].key in configured;
    if mapped == [] {
      NothingClassified(whole, tables, configured);
      TableAllowlist.TablesMakeOk(whole, PiiAccess(configured));
    } else {
      TreeLinked(whole);
      ReportQuiet(whole.node, mapped);
      PassedMakesOk(whole, mapped, configured);
    }
  }

  /**
   * PII noninterference. If the PII report of a ready statement is empty, the statement returns the
   * same relation on any two databases that differ only in classified columns.
   */
  lemma {:induction false} PiiNoninterference(stmt: Node, scopes: Option<seq<seq<ScopeSource>>>, policy: GuardPolicy,
        d1: Database, d2: Database, calls: Calls)
    requires policy.piiColumns.Some?
    requires UniqueIds(stmt) && Resolved(stmt, scopes)
    requires PiiReady(Walk(Root(stmt)), Mapped(RealTables(stmt, scopes), policy.piiColumns.value))
    requires CheckPii(stmt, RealTables(stmt, scopes), policy) == []
    requires SameDatabase(d1, d2, PiiAccess(policy.piiColumns.value))
    ensures EvalQuery(stmt, TableAllowlist.TopContext(d1, calls))
        == EvalQuery(stmt, TableAllowlist.TopContext(d2, calls))
  {
    TablesFound(stmt, scopes);
    CheckMakesOk(TopLevel(stmt), RealTables(stmt, scopes), policy);
    TableAllowlist.VisibleReadsDecide(stmt, PiiAccess(policy.piiColumns.value), d1, d2, calls);
  }
}
