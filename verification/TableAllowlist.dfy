/** The table allowlist: `check_tables`, and what passing it means. */
module TableAllowlist {
  import opened Sequences
  import opened Syntax
  import opened Text
  import opened Traversal
  import opened Semantics
  import opened Scoping
  import opened Origins
  import opened Noninterference
  import opened Policy
  import opened Tables

  /** `_match_table`. */
  function MatchTable(t: Node, allowed: Allowlist): Option<string>
    requires t.Table?
  {
    FirstKey(KeyCandidates(t), allowed.Keys)
  }

  method FindMatch(t: Node, allowed: Allowlist) returns (key: Option<string>)
    requires t.Table?
    ensures key == MatchTable(t, allowed)
  {
    var cands := KeyCandidates(t);
    var i := 0;
    while i < |cands|
      invariant 0 <= i <= |cands|
      invariant FirstKey(cands[i..], allowed.Keys) == MatchTable(t, allowed)
    {
      assert cands[i..][0] == cands[i] && cands[i..][1..] == cands[i + 1..];
      if cands[i] in allowed {
        return Some(cands[i]);
      }
      i := i + 1;
    }
    return None;
  }

  /** A reference matches exactly under its own key. */
  lemma {:induction false} MatchTableExactly(t: Node, allowed: Allowlist)
    requires t.Table?
    ensures MatchTable(t, allowed) == OwnKey(t.db, t.name, allowed.Keys)
  {
    CandidatesExactly(t, allowed.Keys);
  }

  function TableLabel(t: Node): string
    requires t.Table?
  {
    (if t.db != "" then t.db + "." else "") + t.name
  }

  const TABLE_NOT_ALLOWED := Violation("table_not_allowed", High, BlockIt)

  /** The violations of `check_tables` over the remaining references, `seen` holding the labels so far. */
  function TableViolations(ts: seq<Located>, allowed: Allowlist, seen: set<string>): seq<Violation> {
    if ts == [] then []
    else if !ts[0].node.Table? || TableLabel(ts[0].node) in seen then TableViolations(ts[1..], allowed, seen)
    else (if MatchTable(ts[0].node, allowed).None? then [TABLE_NOT_ALLOWED] else [])
         + TableViolations(ts[1..], allowed, seen + {TableLabel(ts[0].node)})
  }

  function CheckTables(tables: seq<Located>, policy: GuardPolicy): seq<Violation> {
    if policy.allowedTables.None? then [] else TableViolations(tables, policy.allowedTables.value, {})
  }

  /** One step of the loop. */
  lemma {:induction false} NextTable(ts: seq<Located>, i: nat, allowed: Allowlist, seen: set<string>)
    requires i < |ts|
    ensures var t := ts[i].node;
      TableViolations(ts[i..], allowed, seen) ==
        if !t.Table? || TableLabel(t) in seen then TableViolations(ts[i + 1..], allowed, seen)
        else (if MatchTable(t, allowed).None? then [TABLE_NOT_ALLOWED] else [])
             + TableViolations(ts[i + 1..], allowed, seen + {TableLabel(t)})
  {
    assert ts[i..][0] == ts[i] && ts[i..][1..] == ts[i + 1..];
  }

  method JudgeTable(t: Node, allowed: Allowlist) returns (found: seq<Violation>)
    requires t.Table?
    ensures found == if MatchTable(t, allowed).None? then [TABLE_NOT_ALLOWED] else []
  {
    var key := FindMatch(t, allowed);
    found := if key.None? then [TABLE_NOT_ALLOWED] else [];
  }

  method RunCheckTables(tables: seq<Located>, policy: GuardPolicy) returns (violations: seq<Violation>)
    ensures violations == CheckTables(tables, policy)
  {
    violations := [];
    if policy.allowedTables.None? {
      return;
    }
    var allowed := policy.allowedTables.value;
    ghost var whole := TableViolations(tables, allowed, {});
    var seen: set<string> := {};
    var i := 0;
    while i < |tables|
      invariant 0 <= i <= |tables|
      invariant violations + TableViolations(tables[i..], allowed, seen) == whole
    {
      var t := tables[i].node;
      NextTable(tables, i, allowed, seen);
      if t.Table? && TableLabel(t) !in seen {
        var found := JudgeTable(t, allowed);
        seen := seen + {TableLabel(t)};
        AppendNext(violations, found, TableViolations(tables[i + 1..], allowed, seen));
        violations := violations + found;
      }
      i := i + 1;
    }
  }

  // ---------------------------------------------------------------- the verdict, exactly

  /** A reference whose label occurs earlier is never looked at. */
  ghost predicate Shadowed(ts: seq<Located>, i: nat)
    requires i < |ts| && forall k :: 0 <= k < |ts| ==> ts[k].node.Table?
  {
    exists k :: 0 <= k < i && TableLabel(ts[k].node) == TableLabel(ts[i].node)
  }

  /** No violation: every reference matches the allowlist, except those an earlier label hides. */
  lemma {:induction false} CheckTablesExact(ts: seq<Located>, allowed: Allowlist, seen: set<string>)
    requires forall k :: 0 <= k < |ts| ==> ts[k].node.Table?
    ensures TableViolations(ts, allowed, seen) == [] <==>
      forall i :: 0 <= i < |ts| ==>
        TableLabel(ts[i].node) in seen || Shadowed(ts, i) || MatchTable(ts[i].node, allowed).Some?
  {
    if ts != [] {
      var name, rest := TableLabel(ts[0].node), ts[1..];
      var seen' := seen + {name};
      CheckTablesExact(rest, allowed, seen');
      if name in seen {
        assert seen' == seen;
      }
      forall i | 0 <= i < |rest|
        ensures (TableLabel(rest[i].node) in seen' || Shadowed(rest, i)) <==>
            (TableLabel(ts[i + 1].node) in seen || Shadowed(ts, i + 1))
      {
        if k :| 0 <= k < i && TableLabel(rest[k].node) == TableLabel(rest[i].node) {
          assert ts[k + 1] == rest[k];
        }
        if k :| 0 <= k < i + 1 && TableLabel(ts[k].node) == TableLabel(ts[i + 1].node) {
          if k > 0 {
            assert rest[k - 1] == ts[k];
          }
        }
      }
      assert forall i :: 0 < i < |ts| ==> ts[i] == rest[i - 1];
      assert !Shadowed(ts, 0);
    }
  }

  predicate Undotted(s: string) {
    '.' !in s
  }

  /** Names without dots: the label then determines the reference. */
  predicate PlainNames(ts: seq<Located>) {
    forall k :: 0 <= k < |ts| ==> ts[k].node.Table? && Undotted(ts[k].node.db) && Undotted(ts[k].node.name)
  }

  lemma {:induction false} LabelInjective(a: Node, b: Node)
    requires a.Table? && b.Table? && TableLabel(a) == TableLabel(b)
    requires Undotted(a.db) && Undotted(a.name) && Undotted(b.db) && Undotted(b.name)
    ensures a.db == b.db && a.name == b.name
  {
    var la, lb := TableLabel(a), TableLabel(b);
    assert a.db == "" ==> la == a.name;
    assert b.db == "" ==> lb == b.name;
    assert a.db != "" ==> la[|a.db|] == '.' && la[..|a.db|] == a.db && la[|a.db| + 1..] == a.name;
    assert b.db != "" ==> lb[|b.db|] == '.' && lb[..|b.db|] == b.db && lb[|b.db| + 1..] == b.name;
    assert a.db == "" <==> b.db == "";
    assert |a.db| == |b.db|;
  }

  /** The label of a reference tells which table it names. */
  predicate LabelsTell(ts: seq<Located>) {
    && (forall k :: 0 <= k < |ts| ==> ts[k].node.Table?)
    && forall j, k :: 0 <= j < |ts| && 0 <= k < |ts| && TableLabel(ts[j].node) == TableLabel(ts[k].node) ==>
         ts[j].node.db == ts[k].node.db && ts[j].node.name == ts[k].node.name
  }

  /** Names without dots have labels that tell. */
  lemma {:induction false} PlainLabelsTell(ts: seq<Located>)
    requires PlainNames(ts)
    ensures LabelsTell(ts)
  {
    forall j, k | 0 <= j < |ts| && 0 <= k < |ts| && TableLabel(ts[j].node) == TableLabel(ts[k].node)
      ensures ts[j].node.db == ts[k].node.db && ts[j].node.name == ts[k].node.name
    {
      LabelInjective(ts[j].node, ts[k].node);
    }
  }

  /** Where labels tell, the check passes exactly when every reference matches. */
  lemma {:induction false} CheckTablesPasses(tables: seq<Located>, policy: GuardPolicy)
    requires policy.allowedTables.Some? && LabelsTell(tables)
    ensures CheckTables(tables, policy) == [] <==>
      forall t :: t in tables ==> MatchTable(t.node, policy.allowedTables.value).Some?
  {
    var allowed := policy.allowedTables.value;
    CheckTablesExact(tables, allowed, {});
    if CheckTables(tables, policy) == [] {
      forall i | 0 <= i < |tables|
        ensures MatchTable(tables[i].node, allowed).Some?
      {
        AllMatched(tables, allowed, i);
      }
    }
  }

  /** Where labels tell, the check passes exactly when every reference is listed under its own key. */
  lemma {:induction false} TablesPassExactly(tables: seq<Located>, policy: GuardPolicy)
    requires LabelsTell(tables)
    ensures CheckTables(tables, policy) == [] <==>
      policy.allowedTables.Some? ==>
        forall t :: t in tables ==> OwnKey(t.node.db, t.node.name, policy.allowedTables.value.Keys).Some?
  {
    if policy.allowedTables.Some? {
      CheckTablesPasses(tables, policy);
      forall t | t in tables
        ensures MatchTable(t.node, policy.allowedTables.value)
          == OwnKey(t.node.db, t.node.name, policy.allowedTables.value.Keys)
      {
        MatchTableExactly(t.node, policy.allowedTables.value);
      }
    }
  }

  /** Whatever the check reports is HIGH and blocks. */
  lemma {:induction false} TableReports(ts: seq<Located>, allowed: Allowlist, seen: set<string>, v: Violation)
    requires v in TableViolations(ts, allowed, seen)
    ensures v == Violation("table_not_allowed", High, BlockIt)
    decreases |ts|
  {
    if !ts[0].node.Table? || TableLabel(ts[0].node) in seen {
      TableReports(ts[1..], allowed, seen, v);
    } else if v in TableViolations(ts[1..], allowed, seen + {TableLabel(ts[0].node)}) {
      TableReports(ts[1..], allowed, seen + {TableLabel(ts[0].node)}, v);
    }
  }

  lemma {:induction false} MatchedOrShadowed(tables: seq<Located>, allowed: Allowlist, i: nat)
    requires i < |tables| && (forall k :: 0 <= k < |tables| ==> tables[k].node.Table?)
    requires TableViolations(tables, allowed, {}) == []
    ensures MatchTable(tables[i].node, allowed).Some? || Shadowed(tables, i)
  {
    CheckTablesExact(tables, allowed, {});
    assert TableLabel(tables[i].node) !in {};
  }

  lemma {:induction false} AllMatched(tables: seq<Located>, allowed: Allowlist, i: nat)
    requires i < |tables| && LabelsTell(tables) && TableViolations(tables, allowed, {}) == []
    ensures MatchTable(tables[i].node, allowed).Some?
    decreases i
  {
    MatchedOrShadowed(tables, allowed, i);
    if Shadowed(tables, i) {
      var k :| 0 <= k < i && TableLabel(tables[k].node) == TableLabel(tables[i].node);
      AllMatched(tables, allowed, k);
      assert KeyCandidates(tables[k].node) == KeyCandidates(tables[i].node);
    }
  }

  lemma {:induction false} PublicByName(t: Node)
    requires t.Table? && t.db == "public"
    ensures t.name in KeyCandidates(t)
  {
    assert Lower("public") == "public";
    assert KeyCandidates(t)[2] == t.name;
  }

  /** A label hides every later reference with the same label. */
  lemma {:induction false} LabelHides(a: Located, b: Located, allowed: Allowlist)
    requires a.node.Table? && b.node.Table? && TableLabel(a.node) == TableLabel(b.node)
    requires MatchTable(a.node, allowed).Some?
    ensures TableViolations([a, b], allowed, {}) == []
  {
    var seen := {} + {TableLabel(a.node)};
    assert [a, b][1..] == [b];
    assert TableViolations([b], allowed, seen) == [];
  }

  /** A dotted name can hide a reference that matches nothing: `public.x`, then a table called "public.x". */
  lemma {:induction false} DottedNameIsHidden(allowed: Allowlist, a: Located, b: Located)
    requires allowed == map["x" := None]
    requires a.node == Table(0, "public", "x", "", []) && b.node == Table(1, "", "public.x", "", [])
    ensures CheckTables([a, b], DEFAULTS.(allowedTables := Some(allowed))) == []
    ensures MatchTable(b.node, allowed).None?
  {
    PublicByName(a.node);
    assert TableLabel(a.node) == TableLabel(b.node);
    LabelHides(a, b, allowed);
    assert |"public.x"| == 8 && |"x"| == 1;
  }

  // ---------------------------------------------------------------- noninterference

  /** The allowlist as a view of the database: tables whose own key is listed in full, nothing else. */
  function TableAccess(policy: GuardPolicy): Access {
    (t: TableName) =>
      if policy.allowedTables.None? || OwnKey(t.db, t.name, policy.allowedTables.value.Keys).Some? then Some(All)
      else None
  }

  lemma {:induction false} AccessOfMatched(t: Node, policy: GuardPolicy)
    requires t.Table?
    requires policy.allowedTables.None? || MatchTable(t, policy.allowedTables.value).Some?
    ensures TableAccess(policy)(RefOf(t)) == Some(All)
  {
    if policy.allowedTables.Some? {
      MatchTableExactly(t, policy.allowedTables.value);
    }
  }

  /** The scopes of a top-level statement only hold base tables of the statement. */
  lemma {:induction false} BindsVisible(binds: seq<Bind>, s: Located, k: nat, whole: Whole, acc: Access)
    requires s.node.Select? && BindsUpTo(binds, s, k, whole)
    requires forall t :: t in whole.bases && t.node.Table? ==> acc(RefOf(t.node)) == Some(All)
    ensures AllVisible(binds, acc)
  {
  }

  lemma {:induction false} ScopesVisible(scopes: seq<Scope>, whole: Whole, acc: Access)
    requires ScopesRooted(scopes, whole)
    requires forall t :: t in whole.bases && t.node.Table? ==> acc(RefOf(t.node)) == Some(All)
    requires whole.outer == []
    ensures forall sc :: sc in scopes ==> sc.Local? && AllVisible(sc.binds, acc)
  {
    forall sc | sc in scopes
      ensures sc.Local? && AllVisible(sc.binds, acc)
    {
      assert ScopeRooted(sc, whole);
      var s :| ScopeOf(sc, s, whole);
      BindsVisible(sc.binds, s, |s.node.joins|, whole, acc);
    }
  }

  /** Every read of a statement is visible once all its base tables are. */
  lemma {:induction false} TablesMakeOk(whole: Whole, acc: Access)
    requires forall t :: t in whole.bases && t.node.Table? ==> acc(RefOf(t.node)) == Some(All)
    requires Faithful(whole) && whole.outer == []
    ensures AllOk(Reads(whole), acc)
  {
    ReadsAreRooted(whole);
    forall need | need in Reads(whole)
      ensures Ok(need, acc)
    {
      assert Rooted(need, whole);
      match need
      case NeedTable(t) =>
      case NeedColumn(col, scopes) => ScopesVisible(scopes, whole, acc);
      case NeedStar(_, scope) => ScopesVisible([scope], whole, acc);
      case NeedTableStar(col, scopes) => ScopesVisible(scopes, whole, acc);
      case NeedUsing(join, _, binds) =>
        var s, k: nat :| JoinOf(join, binds, s, k, whole);
        BindsVisible(binds, s, k + 1, whole, acc);
      case NeedNatural(join, binds) =>
        var s, k: nat :| JoinOf(join, binds, s, k, whole);
        BindsVisible(binds, s, k + 1, whole, acc);
    }
  }

  /** A context of a top-level statement: no rows and no WITH names around it. */
  ghost function TopContext(db: Database, calls: Calls): Context {
    Context(db, map[], [], [], calls)
  }

  /** If the table check passes, the allowlist shows every base table of the statement. */
  lemma {:induction false} PassingTablesVisible(stmt: Node, scopes: Option<seq<seq<ScopeSource>>>, policy: GuardPolicy)
    requires UniqueIds(stmt) && Resolved(stmt, scopes)
    requires LabelsTell(RealTables(stmt, scopes))
    requires CheckTables(RealTables(stmt, scopes), policy) == []
    ensures forall t :: t in LexicalTables(stmt) && t.node.Table? ==> TableAccess(policy)(RefOf(t.node)) == Some(All)
  {
    TablesFound(stmt, scopes);
    if policy.allowedTables.Some? {
      CheckTablesPasses(RealTables(stmt, scopes), policy);
    }
    forall t | t in LexicalTables(stmt) && t.node.Table?
      ensures TableAccess(policy)(RefOf(t.node)) == Some(All)
    {
      AccessOfMatched(t.node, policy);
    }
  }

  /** A statement all of whose reads are visible depends on nothing else. */
  lemma {:induction false} VisibleReadsDecide(stmt: Node, acc: Access, d1: Database, d2: Database, calls: Calls)
    requires AllOk(Reads(TopLevel(stmt)), acc) && SameDatabase(d1, d2, acc)
    ensures EvalQuery(stmt, TopContext(d1, calls)) == EvalQuery(stmt, TopContext(d2, calls))
  {
    QuerySame(stmt, TopContext(d1, calls), TopContext(d2, calls), Place([], {}, []), acc);
  }

  /** A statement all of whose base tables are visible depends on nothing else. */
  lemma {:induction false} VisibleTablesDecide(stmt: Node, acc: Access, d1: Database, d2: Database, calls: Calls)
    requires forall t :: t in LexicalTables(stmt) && t.node.Table? ==> acc(RefOf(t.node)) == Some(All)
    requires SameDatabase(d1, d2, acc)
    ensures EvalQuery(stmt, TopContext(d1, calls)) == EvalQuery(stmt, TopContext(d2, calls))
  {
    TablesMakeOk(TopLevel(stmt), acc);
    VisibleReadsDecide(stmt, acc, d1, d2, calls);
  }

  /**
   * Table noninterference. If the table check passes, the statement returns the same relation on any
   * two databases that agree on the tables the allowlist matches, however its WITH clauses nest and
   * reuse table names.
   */
  lemma {:induction false} TableNoninterference(stmt: Node, scopes: Option<seq<seq<ScopeSource>>>,
        policy: GuardPolicy, d1: Database, d2: Database, calls: Calls)
    requires UniqueIds(stmt) && Resolved(stmt, scopes)
    requires LabelsTell(RealTables(stmt, scopes))
    requires CheckTables(RealTables(stmt, scopes), policy) == []
    requires SameDatabase(d1, d2, TableAccess(policy))
    ensures EvalQuery(stmt, TopContext(d1, calls)) == EvalQuery(stmt, TopContext(d2, calls))
  {
    PassingTablesVisible(stmt, scopes, policy);
    VisibleTablesDecide(stmt, TableAccess(policy), d1, d2, calls);
  }
}
