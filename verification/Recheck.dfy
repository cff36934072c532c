/** Checking a rewritten statement again: every check is blind to a literal top-level bound. */
module Recheck {
  import opened Syntax
  import opened Text
  import opened Traversal
  import opened Semantics
  import opened Origins
  import opened Policy
  import opened Tables
  import opened Limiting
  import opened Rewriting
  import opened Pipeline
  import opened PipelineMeaning
  import StatementType
  import TableAllowlist
  import ColumnAllowlist
  import Pii
  import Cartesian
  import Tautology
  import Inference

  /** `m` is the query `n` with another literal bound, or none. */
  ghost predicate Rebound(n: Node, m: Node) {
    Limitable(n) && Limitable(m) && m == WithLimit(n, m.limit) && JunkBound(n.limit) && JunkBound(m.limit)
  }

  /** Searches for content find the same nodes. */
  lemma {:induction false} SameFound(n: Node, m: Node, p: Node -> bool)
    requires Rebound(n, m) && SkipsJunk(p) && !p(n) && !p(m)
    ensures FindAll(m, p) == FindAll(n, p)
  {
    FindAllSame(n, m.limit, p);
  }

  /** A search for SELECTs finds the same nodes below the root. */
  lemma {:induction false} SameSelects(n: Node, m: Node, p: Node -> bool)
    requires Rebound(n, m) && SkipsJunk(p)
    ensures FindAll(n, p) == (if p(n) then [Root(n)] else []) + FindBelow(n, p)
    ensures FindAll(m, p) == (if p(m) then [Root(m)] else []) + FindBelow(n, p)
  {
    FindBelowSame(n, m.limit, p);
    FindSplit(n, p);
    FindSplit(m, p);
  }

  // ---------------------------------------------------------------- the statement gate

  lemma {:induction false} SameKinds(ks: seq<StatementType.Kind>, n: Node, m: Node, policy: GuardPolicy)
    requires Rebound(n, m)
    ensures StatementType.KindViolations(ks, m, policy) == StatementType.KindViolations(ks, n, policy)
    decreases |ks|
  {
    if ks != [] {
      SameFound(n, m, StatementType.OfKind(ks[0]));
      SameKinds(ks[1..], n, m, policy);
    }
  }

  lemma {:induction false} SameInto(n: Node, m: Node, policy: GuardPolicy)
    requires Rebound(n, m)
    ensures StatementType.IntoViolations(FindAll(m, IsSelect), policy)
      == StatementType.IntoViolations(FindAll(n, IsSelect), policy)
  {
    SameSelects(n, m, IsSelect);
    var rest := FindBelow(n, IsSelect);
    assert ([Root(n)] + rest)[1..] == rest && ([Root(m)] + rest)[1..] == rest;
  }

  lemma {:induction false} SameGateSearches(n: Node, m: Node)
    requires Rebound(n, m)
    ensures FindAll(m, StatementType.IsLock) == FindAll(n, StatementType.IsLock)
    ensures FindAll(m, StatementType.IsWhen) == FindAll(n, StatementType.IsWhen)
    ensures FindAll(m, StatementType.IsOnConflict) == FindAll(n, StatementType.IsOnConflict)
  {
    SameFound(n, m, StatementType.IsLock);
    SameFound(n, m, StatementType.IsWhen);
    SameFound(n, m, StatementType.IsOnConflict);
  }

  lemma {:induction false} SameMerge(n: Node, m: Node)
    requires Rebound(n, m)
    ensures Has(m, StatementType.OfKind(StatementType.MergeKind))
        == Has(n, StatementType.OfKind(StatementType.MergeKind))
  {
    SameFound(n, m, StatementType.OfKind(StatementType.MergeKind));
  }

  lemma {:induction false} SameGate(n: Node, m: Node, policy: GuardPolicy)
    requires Rebound(n, m)
    ensures StatementType.CheckStatementType(m, policy) == StatementType.CheckStatementType(n, policy)
  {
    SameKinds(StatementType.MUTATIONS, n, m, policy);
    KnownQuery(n);
    KnownQuery(m);
    SameInto(n, m, policy);
    SameGateSearches(n, m);
    SameMerge(n, m);
  }

  // ---------------------------------------------------------------- tables

  lemma {:induction false} SameCteAliases(n: Node, m: Node)
    requires Rebound(n, m)
    ensures CteAliases(m) == CteAliases(n)
  {
    SameFound(n, m, IsNamedCte);
  }

  lemma {:induction false} SameTables(n: Node, m: Node, fe: Frontend)
    requires Rebound(n, m)
    ensures StatementTables(m, fe) == StatementTables(n, fe)
  {
    SameFound(n, m, IsContent);
    SameFound(n, m, IsTable);
    SameCteAliases(n, m);
    LexicalTablesRewritten(n, m.limit);
    assert Resolve(m, fe) == Resolve(n, fe);
  }

  // ---------------------------------------------------------------- the column allowlist

  lemma {:induction false} SameBooks(n: Node, m: Node, tables: seq<Located>, allowed: Allowlist)
    requires Rebound(n, m)
    ensures ColumnAllowlist.BooksOf(m, tables, allowed) == ColumnAllowlist.BooksOf(n, tables, allowed)
  {
    SameCteAliases(n, m);
    SameFound(n, m, ColumnAllowlist.IsLateral);
    SameFound(n, m, ColumnAllowlist.IsSubquery);
  }

  lemma {:induction false} FirstById(s: Located, rest: seq<Located>, id: nat)
    ensures ColumnAllowlist.SelectById([s] + rest, id) ==
      if s.node.Select? && s.node.id == id then Some(s.node) else ColumnAllowlist.SelectById(rest, id)
  {
    assert ([s] + rest)[1..] == rest;
  }

  /** The SELECT of a given identity is the same one, or the root on both sides. */
  lemma {:induction false} SameById(n: Node, m: Node, id: nat)
    requires Rebound(n, m)
    ensures var a, b := ColumnAllowlist.SelectById(FindAll(n, IsSelect), id),
        ColumnAllowlist.SelectById(FindAll(m, IsSelect), id);
      a == b || (a == Some(n) && b == Some(m))
  {
    SameSelects(n, m, IsSelect);
    var rest := FindBelow(n, IsSelect);
    FirstById(Root(n), rest, id);
    FirstById(Root(m), rest, id);
    assert [] + rest == rest;
  }

  lemma {:induction false} SameStarSources(n: Node, m: Node, star: Located)
    requires Rebound(n, m)
    ensures ColumnAllowlist.StarSources(m, star) == ColumnAllowlist.StarSources(n, star)
  {
    SameFound(n, m, IsTable);
    if NearestSelect(star.up).Some? {
      SameById(n, m, NearestSelect(star.up).value);
    }
  }

  lemma {:induction false} SameStars(n: Node, m: Node, stars: seq<Located>, b: ColumnAllowlist.Books)
    requires Rebound(n, m)
    ensures ColumnAllowlist.AnyStarHit(m, stars, b) == ColumnAllowlist.AnyStarHit(n, stars, b)
    decreases |stars|
  {
    if stars != [] {
      SameStarSources(n, m, stars[0]);
      assert ColumnAllowlist.StarHit(m, stars[0], b) == ColumnAllowlist.StarHit(n, stars[0], b);
      SameStars(n, m, stars[1..], b);
    }
  }

  /** The report over the same searches and books. */
  lemma {:induction false} SameReport(n: Node, m: Node, stars: seq<Located>, joins: seq<Located>, cols: seq<Located>,
        b: ColumnAllowlist.Books)
    requires Rebound(n, m)
    ensures ColumnAllowlist.ColumnReport(m, stars, joins, cols, b)
        == ColumnAllowlist.ColumnReport(n, stars, joins, cols, b)
  {
    SameStars(n, m, stars, b);
  }

  lemma {:induction false} ColumnVerdict(stmt: Node, tables: seq<Located>, policy: GuardPolicy,
        b: ColumnAllowlist.Books, out: seq<Violation>)
    requires policy.allowedTables.Some? && b == ColumnAllowlist.BooksOf(stmt, tables, policy.allowedTables.value)
    requires out == ColumnAllowlist.ColumnReport(stmt, FindAll(stmt, ColumnAllowlist.IsStar), FindAll(stmt, IsJoin),
                                                 FindAll(stmt, IsColumn), b)
    ensures ColumnAllowlist.CheckColumns(stmt, tables, policy) ==
      if ColumnAllowlist.Restricted(policy.allowedTables.value) == map[] || b.byName == map[] then [] else out
  {
  }

  lemma {:induction false} SameColumnSearches(n: Node, m: Node)
    requires Rebound(n, m)
    ensures FindAll(m, ColumnAllowlist.IsStar) == FindAll(n, ColumnAllowlist.IsStar)
    ensures FindAll(m, IsJoin) == FindAll(n, IsJoin)
    ensures FindAll(m, IsColumn) == FindAll(n, IsColumn)
  {
    SameFound(n, m, ColumnAllowlist.IsStar);
    SameFound(n, m, IsJoin);
    SameFound(n, m, IsColumn);
  }

  lemma {:induction false} SameColumns(n: Node, m: Node, tables: seq<Located>, policy: GuardPolicy)
    requires Rebound(n, m)
    ensures ColumnAllowlist.CheckColumns(m, tables, policy) == ColumnAllowlist.CheckColumns(n, tables, policy)
  {
    if policy.allowedTables.Some? {
      var b := ColumnAllowlist.BooksOf(n, tables, policy.allowedTables.value);
      SameBooks(n, m, tables, policy.allowedTables.value);
      SameColumnSearches(n, m);
      var stars, joins, cols := FindAll(n, ColumnAllowlist.IsStar), FindAll(n, IsJoin), FindAll(n, IsColumn);
      SameReport(n, m, stars, joins, cols, b);
      var out := ColumnAllowlist.ColumnReport(n, stars, joins, cols, b);
      ColumnVerdict(n, tables, policy, b, out);
      ColumnVerdict(m, tables, policy, b, out);
    }
  }

  // ---------------------------------------------------------------- PII columns

  /** Two occurrences of a SELECT that differ in the bound only. */
  ghost predicate SameSelect(s: Located, t: Located) {
    s.node.Select? && t.node.Select? && s.node.joins == t.node.joins && s.node.id == t.node.id && s.up == t.up
  }

  lemma {:induction false} SameWithin(e: Located, s: Located, t: Located, i: nat)
    requires SameSelect(s, t) && i < |s.node.joins|
    ensures Pii.IsWithin(e, s, i) == Pii.IsWithin(e, t, i)
  {
    assert Below(s.node.joins[i], s) == Below(t.node.joins[i], t);
  }

  lemma {:induction false} SameOutside(scoped: seq<Pii.Entry>, s: Located, t: Located)
    requires SameSelect(s, t)
    ensures Pii.OutsideJoins(scoped, s) == Pii.OutsideJoins(scoped, t)
    decreases |scoped|
  {
    if scoped != [] {
      forall i | 0 <= i < |s.node.joins|
        ensures Pii.IsWithin(scoped[0].table, s, i) == Pii.IsWithin(scoped[0].table, t, i)
      {
        SameWithin(scoped[0].table, s, t, i);
      }
      SameOutside(scoped[1..], s, t);
    }
  }

  lemma {:induction false} SameActive(active: seq<Pii.Entry>, scoped: seq<Pii.Entry>, s: Located, t: Located, i: nat)
    requires SameSelect(s, t) && i < |s.node.joins|
    ensures Pii.Activate(active, scoped, s, i) == Pii.Activate(active, scoped, t, i)
    decreases |scoped|
  {
    if scoped != [] {
      SameWithin(scoped[0].table, s, t, i);
      var next := if scoped[0] !in active && Pii.IsWithin(scoped[0].table, s, i) then active + [scoped[0]] else active;
      SameActive(next, scoped[1..], s, t, i);
    }
  }

  lemma {:induction false} SameJoinFlags(r: Pii.Report, active: seq<Pii.Entry>, scoped: seq<Pii.Entry>, s: Located,
        t: Located, i: nat)
    requires SameSelect(s, t) && i <= |s.node.joins|
    ensures Pii.FlagJoins(r, active, scoped, s, i) == Pii.FlagJoins(r, active, scoped, t, i)
    decreases |s.node.joins| - i
  {
    if i < |s.node.joins| {
      SameActive(active, scoped, s, t, i);
      var now := Pii.Activate(active, scoped, s, i);
      SameJoinFlags(Pii.FlagJoin(r, now, s.node.joins[i]), now, scoped, s, t, i + 1);
    }
  }

  lemma {:induction false} SameFirstSelect(r: Pii.Report, s: Located, t: Located, rest: seq<Located>,
        mapped: seq<Pii.Entry>)
    requires SameSelect(s, t)
    ensures Pii.FlagSelects(r, [s] + rest, mapped) == Pii.FlagSelects(r, [t] + rest, mapped)
  {
    var scoped := Pii.InSelect(mapped, s.node.id);
    SameOutside(scoped, s, t);
    SameJoinFlags(r, Pii.OutsideJoins(scoped, s), scoped, s, t, 0);
    assert ([s] + rest)[1..] == rest && ([t] + rest)[1..] == rest;
  }

  lemma {:induction false} SamePiiReport(n: Node, m: Node, mapped: seq<Pii.Entry>)
    requires Rebound(n, m)
    ensures Pii.PiiReport(FindAll(m, IsSelect), FindAll(m, ColumnAllowlist.IsStar), FindAll(m, IsColumn), mapped)
      == Pii.PiiReport(FindAll(n, IsSelect), FindAll(n, ColumnAllowlist.IsStar), FindAll(n, IsColumn), mapped)
  {
    SameSelects(n, m, IsSelect);
    SameFound(n, m, ColumnAllowlist.IsStar);
    SameFound(n, m, IsColumn);
    if n.Select? {
      SameFirstSelect(Pii.Report({}, []), Root(m), Root(n), FindBelow(n, IsSelect), mapped);
    }
  }

  /** The verdict is the report over the three searches. */
  lemma {:induction false} PiiVerdict(stmt: Node, tables: seq<Located>, policy: GuardPolicy, r: Pii.Report)
    requires policy.piiColumns.Some?
    requires r == Pii.PiiReport(FindAll(stmt, IsSelect), FindAll(stmt, ColumnAllowlist.IsStar),
                                FindAll(stmt, IsColumn), Pii.Mapped(tables, policy.piiColumns.value))
    ensures Pii.CheckPii(stmt, tables, policy) ==
      if policy.piiColumns.value == map[] || Pii.Mapped(tables, policy.piiColumns.value) == [] then [] else r.out
  {
  }

  lemma {:induction false} SamePii(n: Node, m: Node, tables: seq<Located>, policy: GuardPolicy)
    requires Rebound(n, m)
    ensures Pii.CheckPii(m, tables, policy) == Pii.CheckPii(n, tables, policy)
  {
    if policy.piiColumns.Some? {
      var mapped := Pii.Mapped(tables, policy.piiColumns.value);
      var r := Pii.PiiReport(FindAll(n, IsSelect), FindAll(n, ColumnAllowlist.IsStar), FindAll(n, IsColumn), mapped);
      SamePiiReport(n, m, mapped);
      PiiVerdict(n, tables, policy, r);
      PiiVerdict(m, tables, policy, r);
    }
  }

  // ---------------------------------------------------------------- products, tautologies, probes

  lemma {:induction false} SameCartesian(n: Node, m: Node, policy: GuardPolicy)
    requires Rebound(n, m)
    ensures Cartesian.CheckCartesian(m, policy) == Cartesian.CheckCartesian(n, policy)
  {
    if n.Select? {
      assert Cartesian.TopSelects(n) == [n] && Cartesian.TopSelects(m) == [m];
      assert [n][1..] == [] && [m][1..] == [];
    }
  }

  lemma {:induction false} SameRoots(n: Node, m: Node)
    requires Rebound(n, m)
    ensures Tautology.PredicateRoots(m) == Tautology.PredicateRoots(n)
  {
    SameFound(n, m, Tautology.IsFilter);
    SameFound(n, m, IsJoin);
  }

  lemma {:induction false} SamePredicates(n: Node, m: Node, policy: GuardPolicy)
    requires Rebound(n, m)
    ensures Tautology.CheckTautology(m, policy) == Tautology.CheckTautology(n, policy)
    ensures Inference.CheckInference(m, policy) == Inference.CheckInference(n, policy)
  {
    SameRoots(n, m);
    SameFound(n, m, Inference.IsCmp);
  }

  /** The reports that depend on the table references. */
  lemma {:induction false} SameTableReports(n: Node, m: Node, policy: GuardPolicy, fe: Frontend)
    requires Rebound(n, m)
    ensures Pii.CheckPii(m, StatementTables(m, fe), policy) == Pii.CheckPii(n, StatementTables(n, fe), policy)
    ensures TableAllowlist.CheckTables(StatementTables(m, fe), policy)
        == TableAllowlist.CheckTables(StatementTables(n, fe), policy)
    ensures ColumnAllowlist.CheckColumns(m, StatementTables(m, fe), policy)
        == ColumnAllowlist.CheckColumns(n, StatementTables(n, fe), policy)
  {
    SameTables(n, m, fe);
    SamePii(n, m, StatementTables(n, fe), policy);
    SameColumns(n, m, StatementTables(n, fe), policy);
  }

  lemma {:induction false} SameContent(n: Node, m: Node)
    requires Rebound(n, m)
    ensures FindAll(m, IsContent) == FindAll(n, IsContent)
  {
    SameFound(n, m, IsContent);
  }

  /** Every check reports the same on a query whatever its literal bound. */
  lemma {:induction false} FindingsIgnoreBound(n: Node, m: Node, policy: GuardPolicy, fe: Frontend)
    requires Rebound(n, m)
    ensures Findings(m, policy, fe) == Findings(n, policy, fe)
  {
    SameGate(n, m, policy);
    SameContent(n, m);
    SameTableReports(n, m, policy, fe);
    SameCartesian(n, m, policy);
    SamePredicates(n, m, policy);
  }

  // ---------------------------------------------------------------- the fixpoint

  /** No bound, or an integer bound: what the rewrite then does is inject or cap. */
  predicate NoBoundOrInteger(stmt: Node) {
    Limitable(stmt) && (stmt.limit.Some? ==> LiteralLimit(stmt.limit).Some?)
  }

  lemma {:induction false} RewriteRebounds(stmt: Node, policy: GuardPolicy)
    requires Accepted(policy) && NoBoundOrInteger(stmt)
    ensures Rebound(stmt, Forwarded(stmt, policy))
  {
    if ApplyLimit(stmt, policy).1 != [] {
      var k := RewriteShape(stmt, policy);
    } else {
      SameLimit(stmt);
    }
  }

  lemma {:induction false} PassesUnchanged(found: seq<Violation>, text: string, out: Node, dialect: string,
        policy: GuardPolicy, fe: Frontend)
    requires !AnyStops(found, policy) && ApplyLimit(out, policy) == (out, [])
    ensures Conclude(found, text, out, dialect, policy, fe) == GuardResult(Pass, Some(text), text, found)
  {
  }

  lemma {:induction false} TransformMeans(found: seq<Violation>, sql: string, stmt: Node, dialect: string,
        policy: GuardPolicy, fe: Frontend)
    requires Conclude(found, sql, stmt, dialect, policy, fe).verdict.Transform?
    ensures !AnyStops(found, policy)
    ensures Conclude(found, sql, stmt, dialect, policy, fe).violations == found + ApplyLimit(stmt, policy).1
  {
  }

  /**
   * The rewrite is a fixpoint of the guard: on the rewritten tree the checks report exactly what they
   * reported before, and the rewrite has nothing left to do.
   */
  lemma {:induction false} RewrittenTreePasses(sql: string, text: string, stmt: Node, dialect: string, again: string,
        policy: GuardPolicy, fe: Frontend)
    requires Accepted(policy) && NoBoundOrInteger(stmt)
    requires Decide(sql, stmt, dialect, policy, fe).verdict.Transform?
    ensures Decide(text, Forwarded(stmt, policy), again, policy, fe) ==
      GuardResult(Pass, Some(text), text, Findings(stmt, policy, fe))
    ensures Decide(sql, stmt, dialect, policy, fe).violations == Findings(stmt, policy, fe) + ApplyLimit(stmt, policy).1
  {
    RewriteRebounds(stmt, policy);
    FindingsIgnoreBound(stmt, Forwarded(stmt, policy), policy, fe);
    ApplyLimitIdempotent(stmt, policy);
    TransformMeans(Findings(stmt, policy, fe), sql, stmt, dialect, policy, fe);
    PassesUnchanged(Findings(stmt, policy, fe), text, Forwarded(stmt, policy), again, policy, fe);
  }

  /**
   * The same for texts: if the guard reads the rendered text back as the rewritten tree, checking it
   * again passes it unchanged, with the same non-limit violations.
   */
  lemma {:induction false} RecheckPasses(sql: string, policy: GuardPolicy, fe: Frontend, stmt: Node, dialect: string,
        again: string)
    requires Accepted(policy) && Check(sql, policy, fe).verdict.Transform?
    requires TakeIn(sql, policy, fe) == Single(stmt, dialect) && NoBoundOrInteger(stmt)
    requires Check(sql, policy, fe).sql.Some?
    requires TakeIn(Check(sql, policy, fe).sql.value, policy, fe) == Single(Forwarded(stmt, policy), again)
    ensures var text := Check(sql, policy, fe).sql.value;
      Check(text, policy, fe) == GuardResult(Pass, Some(text), text, Findings(stmt, policy, fe))
  {
    RewrittenTreePasses(sql, Check(sql, policy, fe).sql.value, stmt, dialect, again, policy, fe);
  }
}
