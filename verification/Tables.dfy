/** Which table references of a statement mean base tables, and the keys they match. */
module Tables {
  import opened Syntax
  import opened Text
  import opened Traversal
  import opened Scoping
  import opened Origins

  /** A source as the scope resolver reports it. */
  datatype ScopeSource = Physical(table: Located) | Virtual

  predicate IsNamedCte(n: Node) { n.Cte? && n.alias != "" }

  /** `cte_aliases`: the WITH names anywhere in the statement. */
  function CteAliases(stmt: Node): set<string> {
    set l | l in FindAll(stmt, IsNamedCte) && l.node.Cte? :: l.node.alias
  }

  function IdOf(t: Located): nat {
    if t.node.Table? then t.node.id else 0
  }

  /** The first occurrence of every node not yet in `seen`. */
  function FirstSeen(ts: seq<Located>, seen: set<nat>): seq<Located> {
    if ts == [] then []
    else if IdOf(ts[0]) in seen then FirstSeen(ts[1..], seen)
    else [ts[0]] + FirstSeen(ts[1..], seen + {IdOf(ts[0])})
  }

  function PhysicalOf(scope: seq<ScopeSource>): seq<Located> {
    if scope == [] then []
    else (if scope[0].Physical? then [scope[0].table] else []) + PhysicalOf(scope[1..])
  }

  function AllPhysical(scopes: seq<seq<ScopeSource>>): seq<Located> {
    if scopes == [] then [] else PhysicalOf(scopes[0]) + AllPhysical(scopes[1..])
  }

  lemma {:induction false} FirstSeenSplit(a: seq<Located>, b: seq<Located>, seen: set<nat>)
    ensures FirstSeen(a + b, seen) == FirstSeen(a, seen) + FirstSeen(b, seen + SeenIds(a))
  {
    if a == [] {
      assert a + b == b && seen + SeenIds(a) == seen;
    } else {
      assert (a + b)[1..] == a[1..] + b;
      var seen' := seen + {IdOf(a[0])};
      assert seen' + SeenIds(a[1..]) == seen + SeenIds(a) by {
        assert a == [a[0]] + a[1..];
      }
      if IdOf(a[0]) in seen {
        assert seen' == seen;
      }
      FirstSeenSplit(a[1..], b, seen');
    }
  }

  function SeenIds(ts: seq<Located>): set<nat> {
    set t | t in ts :: IdOf(t)
  }

  /** One turn of the loops: a node not seen before is appended. */
  lemma {:induction false} SeenStep(nodes: seq<Located>, t: Located, rest: seq<Located>, seen: set<nat>)
    ensures nodes + FirstSeen([t] + rest, seen) == (if IdOf(t) in seen then nodes else nodes + [t])
        + FirstSeen(rest, seen + {IdOf(t)})
    ensures seen + SeenIds([t] + rest) == seen + {IdOf(t)} + SeenIds(rest)
  {
    assert ([t] + rest)[1..] == rest;
    if IdOf(t) in seen {
      assert seen + {IdOf(t)} == seen;
    } else {
      assert nodes + ([t] + FirstSeen(rest, seen + {IdOf(t)})) == nodes + [t] + FirstSeen(rest, seen + {IdOf(t)});
    }
  }

  /** The body of the loops. */
  method AddNode(t: Located, nodes0: seq<Located>, seen0: set<nat>) returns (nodes: seq<Located>, seen: set<nat>)
    ensures nodes == if IdOf(t) in seen0 then nodes0 else nodes0 + [t]
    ensures seen == seen0 + {IdOf(t)}
  {
    nodes, seen := nodes0, seen0;
    if IdOf(t) !in seen {
      seen := seen + {IdOf(t)};
      nodes := nodes + [t];
    }
  }

  lemma {:induction false} NextSource(scope: seq<ScopeSource>, i: nat)
    requires i < |scope|
    ensures PhysicalOf(scope[i..])
        == if scope[i].Physical? then [scope[i].table] + PhysicalOf(scope[i + 1..]) else PhysicalOf(scope[i + 1..])
  {
    assert scope[i..][0] == scope[i] && scope[i..][1..] == scope[i + 1..];
  }

  /** The sources of one scope. */
  method AddPhysical(scope: seq<ScopeSource>, nodes0: seq<Located>, seen0: set<nat>)
    returns (nodes: seq<Located>, seen: set<nat>)
    ensures nodes == nodes0 + FirstSeen(PhysicalOf(scope), seen0)
    ensures seen == seen0 + SeenIds(PhysicalOf(scope))
  {
    nodes, seen := nodes0, seen0;
    var i := 0;
    while i < |scope|
      invariant 0 <= i <= |scope|
      invariant nodes + FirstSeen(PhysicalOf(scope[i..]), seen) == nodes0 + FirstSeen(PhysicalOf(scope), seen0)
      invariant seen + SeenIds(PhysicalOf(scope[i..])) == seen0 + SeenIds(PhysicalOf(scope))
    {
      var source := scope[i];
      NextSource(scope, i);
      if source.Physical? {
        SeenStep(nodes, source.table, PhysicalOf(scope[i + 1..]), seen);
        nodes, seen := AddNode(source.table, nodes, seen);
      }
      i := i + 1;
    }
  }

  /** One scope after another. */
  lemma {:induction false} ScopeStep(nodes: seq<Located>, scopes: seq<seq<ScopeSource>>, seen: set<nat>)
    requires scopes != []
    ensures nodes + FirstSeen(AllPhysical(scopes), seen) ==
      nodes + FirstSeen(PhysicalOf(scopes[0]), seen)
          + FirstSeen(AllPhysical(scopes[1..]), seen + SeenIds(PhysicalOf(scopes[0])))
  {
    FirstSeenSplit(PhysicalOf(scopes[0]), AllPhysical(scopes[1..]), seen);
  }

  /** `_scope_physical_tables`: the physical sources of every scope, each node once. */
  method ScopePhysicalTables(scopes: seq<seq<ScopeSource>>) returns (nodes: seq<Located>)
    ensures nodes == FirstSeen(AllPhysical(scopes), {})
  {
    nodes := [];
    var seen: set<nat> := {};
    var i := 0;
    while i < |scopes|
      invariant 0 <= i <= |scopes|
      invariant nodes + FirstSeen(AllPhysical(scopes[i..]), seen) == FirstSeen(AllPhysical(scopes), {})
    {
      ScopeStep(nodes, scopes[i..], seen);
      assert scopes[i..][0] == scopes[i] && scopes[i..][1..] == scopes[i + 1..];
      nodes, seen := AddPhysical(scopes[i], nodes, seen);
      i := i + 1;
    }
  }

  /** The references the statement-wide pass accepts: qualified, or not named like any WITH query. */
  function GlobalTables(ts: seq<Located>, ctes: set<string>): seq<Located> {
    if ts == [] then []
    else (if ts[0].node.Table? && (ts[0].node.name !in ctes || ts[0].node.db != "") then [ts[0]] else [])
         + GlobalTables(ts[1..], ctes)
  }

  function Scoped(scopes: Option<seq<seq<ScopeSource>>>): seq<Located> {
    if scopes.Some? then FirstSeen(AllPhysical(scopes.value), {}) else []
  }

  /** `real_tables`, given what the scope resolver returned (`None`: it raised). */
  function RealTables(stmt: Node, scopes: Option<seq<seq<ScopeSource>>>): seq<Located> {
    FirstSeen(Scoped(scopes) + GlobalTables(FindAll(stmt, IsTable), CteAliases(stmt)), {})
  }

  /** The first loop of `real_tables`: what the resolver found. */
  method AddScoped(scoped: seq<Located>) returns (nodes: seq<Located>, seen: set<nat>)
    ensures nodes == FirstSeen(scoped, {}) && seen == SeenIds(scoped)
  {
    nodes, seen := [], {};
    var i := 0;
    while i < |scoped|
      invariant 0 <= i <= |scoped|
      invariant nodes + FirstSeen(scoped[i..], seen) == FirstSeen(scoped, {})
      invariant seen + SeenIds(scoped[i..]) == SeenIds(scoped)
    {
      assert scoped[i..] == [scoped[i]] + scoped[i + 1..];
      SeenStep(nodes, scoped[i], scoped[i + 1..], seen);
      nodes, seen := AddNode(scoped[i], nodes, seen);
      i := i + 1;
    }
  }

  /** The second loop of `real_tables`: the statement-wide pass over what is not yet seen. */
  method AddGlobal(all: seq<Located>, ctes: set<string>, scoped: seq<Located>, already: set<nat>)
    returns (nodes: seq<Located>)
    ensures nodes == scoped + FirstSeen(GlobalTables(all, ctes), already)
  {
    nodes := scoped;
    var seen := already;
    var i := 0;
    while i < |all|
      invariant 0 <= i <= |all|
      invariant nodes + FirstSeen(GlobalTables(all[i..], ctes), seen) == scoped
          + FirstSeen(GlobalTables(all, ctes), already)
    {
      var t := all[i];
      assert all[i..][0] == t && all[i..][1..] == all[i + 1..];
      ghost var rest := GlobalTables(all[i + 1..], ctes);
      assert ([t] + rest)[1..] == rest && [] + rest == rest;
      if t.node.Table? && (t.node.name !in ctes || t.node.db != "") && IdOf(t) !in seen {
        seen := seen + {IdOf(t)};
        nodes := nodes + [t];
      }
      i := i + 1;
    }
  }

  method FindRealTables(stmt: Node, scopes: Option<seq<seq<ScopeSource>>>) returns (nodes: seq<Located>)
    ensures nodes == RealTables(stmt, scopes)
  {
    var scoped: seq<Located> := [];
    if scopes.Some? {
      scoped := ScopePhysicalTables(scopes.value);
    }
    var seen;
    nodes, seen := AddScoped(scoped);
    nodes := AddGlobal(FindAll(stmt, IsTable), CteAliases(stmt), nodes, seen);
    FirstSeenSplit(scoped, GlobalTables(FindAll(stmt, IsTable), CteAliases(stmt)), {});
    assert {} + SeenIds(scoped) == SeenIds(scoped);
  }

  // ---------------------------------------------------------------- exactness

  /** The resolver reports exactly the references that lexical scoping binds to base tables. */
  ghost predicate CorrectScopes(stmt: Node, scopes: Option<seq<seq<ScopeSource>>>) {
    && scopes.Some?
    && forall t :: t in AllPhysical(scopes.value) <==> t in LexicalTables(stmt)
  }

  lemma {:induction false} FirstSeenMembers(ts: seq<Located>, seen: set<nat>, stmt: Node)
    requires UniqueIds(stmt) && forall t :: t in ts ==> Inside(t, stmt) && t.node.Table?
    ensures forall t :: t in FirstSeen(ts, seen) <==> t in ts && IdOf(t) !in seen
    ensures forall i, j :: 0 <= i < j < |FirstSeen(ts, seen)| ==>
        IdOf(FirstSeen(ts, seen)[i]) != IdOf(FirstSeen(ts, seen)[j])
  {
    if ts != [] {
      var rest := FirstSeen(ts[1..], seen + {IdOf(ts[0])});
      FirstSeenMembers(ts[1..], seen, stmt);
      FirstSeenMembers(ts[1..], seen + {IdOf(ts[0])}, stmt);
      forall t | t in ts && IdOf(t) !in seen && t != ts[0] && IdOf(ts[0]) !in seen
        ensures t in rest
      {
        assert Inside(t, stmt) && Inside(ts[0], stmt);
      }
      if IdOf(ts[0]) !in seen {
        assert FirstSeen(ts, seen) == [ts[0]] + rest;
        forall i, j | 0 <= i < j < |FirstSeen(ts, seen)|
          ensures IdOf(FirstSeen(ts, seen)[i]) != IdOf(FirstSeen(ts, seen)[j])
        {
          if i == 0 {
            assert rest[j - 1] in rest;
          }
        }
      }
    }
  }

  lemma {:induction false} GlobalMembers(ts: seq<Located>, ctes: set<string>)
    ensures forall t :: t in GlobalTables(ts, ctes) <==>
        t in ts && t.node.Table? && (t.node.name !in ctes || t.node.db != "")
    decreases |ts|
  {
    if ts != [] {
      GlobalMembers(ts[1..], ctes);
    }
  }

  /** What lexical scoping finds are table occurrences. */
  lemma {:induction false} LexInside(l: Located, ctes: set<string>, stmt: Node)
    requires Inside(l, stmt)
    ensures forall t :: t in LexTables(l, ctes) ==> Inside(t, stmt) && t.node.Table?
    decreases l.node, 1
  {
    if !l.node.Table? {
      KidsAreSubterms(l.node);
      PartsAreSubterms(l.node);
      CtesAreSubterms(l.node);
      LexCtesInside(l, CtesOf(l.node), ctes, stmt);
      LexPartsInside(l, Parts(l.node), ctes + CteNames(CtesOf(l.node)), stmt);
    }
  }

  lemma {:induction false} LexCtesInside(l: Located, ks: seq<Node>, ctes: set<string>, stmt: Node)
    requires Inside(l, stmt) && Subterms(ks, l.node) && forall k :: k in ks ==> k in Kids(l.node)
    ensures forall t :: t in LexCtes(l, ks, ctes) ==> Inside(t, stmt) && t.node.Table?
    decreases l.node, 0, |ks|
  {
    if ks != [] {
      KidInside(l, ks[0], stmt);
      LexInside(Below(ks[0], l), ctes, stmt);
      LexCtesInside(l, ks[1..], ctes + (if ks[0].Cte? then {ks[0].alias} else {}), stmt);
    }
  }

  lemma {:induction false} LexPartsInside(l: Located, ks: seq<Node>, ctes: set<string>, stmt: Node)
    requires Inside(l, stmt) && Subterms(ks, l.node) && forall k :: k in ks ==> k in Kids(l.node)
    ensures forall t :: t in LexParts(l, ks, ctes) ==> Inside(t, stmt) && t.node.Table?
    decreases l.node, 0, |ks|
  {
    if ks != [] {
      KidInside(l, ks[0], stmt);
      LexInside(Below(ks[0], l), ctes, stmt);
      LexPartsInside(l, ks[1..], ctes, stmt);
    }
  }

  /** Every WITH name under `l` is in `names`. */
  ghost predicate CtesWithin(ls: seq<Located>, names: set<string>) {
    forall l :: l in ls && l.node.Cte? && l.node.alias != "" ==> l.node.alias in names
  }

  ghost predicate GloballyBase(t: Located, names: set<string>) {
    t.node.Table? && (t.node.db != "" || t.node.name !in names)
  }

  /** A reference no WITH name can capture is a base table wherever it stands. */
  lemma {:induction false} GlobalIsBase(l: Located, ctes: set<string>, names: set<string>, t: Located)
    requires t in Walk(l) && GloballyBase(t, names)
    requires CtesWithin(Walk(l), names) && ctes <= names + {""}
    ensures t in LexTables(l, ctes)
    decreases l.node, 1
  {
    KidsAreSubterms(l.node);
    PartsAreSubterms(l.node);
    CtesAreSubterms(l.node);
    if t == l {
      assert IsBase(l.node, ctes);
    } else {
      var cs, ps := CtesOf(l.node), Parts(l.node);
      WalkAllAppend(l, cs, ps);
      CteNamesWithin(l, cs, names);
      if l.node.Table? {
        assert false;
      } else if t in WalkAll(l, cs) {
        GlobalInCtes(l, cs, ctes, names, t);
      } else {
        GlobalInParts(l, ps, ctes + CteNames(cs), names, t);
      }
    }
  }

  lemma {:induction false} CteNamesWithin(l: Located, ks: seq<Node>, names: set<string>)
    requires Subterms(ks, l.node) && CtesWithin(WalkAll(l, ks), names)
    ensures CteNames(ks) <= names + {""}
  {
    if ks != [] {
      assert Below(ks[0], l) in WalkAll(l, ks) by {
        assert Walk(Below(ks[0], l))[0] == Below(ks[0], l);
      }
      CteNamesWithin(l, ks[1..], names);
    }
  }

  lemma {:induction false} GlobalInCtes(l: Located, ks: seq<Node>, ctes: set<string>, names: set<string>, t: Located)
    requires Subterms(ks, l.node) && t in WalkAll(l, ks) && GloballyBase(t, names)
    requires CtesWithin(WalkAll(l, ks), names) && ctes <= names + {""}
    ensures t in LexCtes(l, ks, ctes)
    decreases l.node, 0, |ks|
  {
    var k := ks[0];
    if t in Walk(Below(k, l)) {
      GlobalIsBase(Below(k, l), ctes, names, t);
    } else {
      assert Walk(Below(k, l))[0] == Below(k, l);
      assert Below(k, l) in WalkAll(l, ks);
      GlobalInCtes(l, ks[1..], ctes + (if k.Cte? then {k.alias} else {}), names, t);
    }
  }

  lemma {:induction false} GlobalInParts(l: Located, ks: seq<Node>, ctes: set<string>, names: set<string>, t: Located)
    requires Subterms(ks, l.node) && t in WalkAll(l, ks) && GloballyBase(t, names)
    requires CtesWithin(WalkAll(l, ks), names) && ctes <= names + {""}
    ensures t in LexParts(l, ks, ctes)
    decreases l.node, 0, |ks|
  {
    if t in Walk(Below(ks[0], l)) {
      GlobalIsBase(Below(ks[0], l), ctes, names, t);
    } else {
      GlobalInParts(l, ks[1..], ctes, names, t);
    }
  }

  /** An unqualified reference named like one of the WITH names. */
  predicate Namesake(t: Located, names: set<string>) {
    t.node.Table? && t.node.db == "" && t.node.name in names
  }

  /** The statement-wide pass reports base tables only, and all but the unqualified namesakes of a WITH query. */
  lemma {:induction false} GlobalPassExact(stmt: Node)
    ensures forall t :: t in GlobalTables(FindAll(stmt, IsTable), CteAliases(stmt)) <==>
      t in LexicalTables(stmt) && !Namesake(t, CteAliases(stmt))
    ensures forall t :: t in LexicalTables(stmt) ==> Inside(t, stmt) && t.node.Table?
  {
    var names := CteAliases(stmt);
    RootInside(stmt);
    LexInside(Root(stmt), {}, stmt);
    GlobalMembers(FindAll(stmt, IsTable), names);
    forall l | l in Walk(Root(stmt)) && l.node.Cte? && l.node.alias != ""
      ensures l.node.alias in names
    {
      FoundIffInside(stmt, IsNamedCte, l);
    }
    forall t
      ensures t in GlobalTables(FindAll(stmt, IsTable), names) <==>
        t in LexicalTables(stmt) && !Namesake(t, names)
    {
      FoundIffInside(stmt, IsTable, t);
      if t in GlobalTables(FindAll(stmt, IsTable), names) {
        GlobalIsBase(Root(stmt), {}, names, t);
      }
    }
  }

  lemma {:induction false} ScopedMembers(stmt: Node, scopes: Option<seq<seq<ScopeSource>>>)
    requires UniqueIds(stmt) && (scopes.None? || CorrectScopes(stmt, scopes))
    ensures scopes.None? ==> Scoped(scopes) == []
    ensures scopes.Some? ==> forall t :: t in Scoped(scopes) <==> t in LexicalTables(stmt)
    ensures forall t :: t in Scoped(scopes) ==> Inside(t, stmt) && t.node.Table?
  {
    GlobalPassExact(stmt);
    if scopes.Some? {
      FirstSeenMembers(AllPhysical(scopes.value), {}, stmt);
    }
  }

  lemma {:induction false} UnionMembers(a: seq<Located>, b: seq<Located>, stmt: Node)
    requires UniqueIds(stmt) && forall t :: t in a || t in b ==> Inside(t, stmt) && t.node.Table?
    ensures forall t :: t in FirstSeen(a + b, {}) <==> t in a || t in b
    ensures forall i, j :: 0 <= i < j < |FirstSeen(a + b, {})| ==>
        IdOf(FirstSeen(a + b, {})[i]) != IdOf(FirstSeen(a + b, {})[j])
  {
    FirstSeenMembers(a + b, {}, stmt);
  }

  /**
   * With a correct resolver, `real_tables` reports precisely the references bound to base tables,
   * each node once. When the resolver raises, the statement-wide pass alone still reports only base
   * tables and misses exactly the unqualified references named like some WITH query.
   */
  lemma {:induction false} RealTablesExact(stmt: Node, scopes: Option<seq<seq<ScopeSource>>>)
    requires UniqueIds(stmt)
    requires scopes.None? || CorrectScopes(stmt, scopes)
    ensures scopes.Some? ==> forall t :: t in RealTables(stmt, scopes) <==> t in LexicalTables(stmt)
    ensures scopes.None? ==> forall t :: t in RealTables(stmt, scopes) <==>
      t in LexicalTables(stmt) && !Namesake(t, CteAliases(stmt))
    ensures forall i, j :: 0 <= i < j < |RealTables(stmt, scopes)| ==>
        IdOf(RealTables(stmt, scopes)[i]) != IdOf(RealTables(stmt, scopes)[j])
  {
    GlobalPassExact(stmt);
    ScopedMembers(stmt, scopes);
    UnionMembers(Scoped(scopes), GlobalTables(FindAll(stmt, IsTable), CteAliases(stmt)), stmt);
  }

  /** The resolver is correct, or it raises and no base-table reference is named like a WITH query. */
  ghost predicate Resolved(stmt: Node, scopes: Option<seq<seq<ScopeSource>>>) {
    || CorrectScopes(stmt, scopes)
    || (scopes.None? && forall t :: t in LexicalTables(stmt) ==> !Namesake(t, CteAliases(stmt)))
  }

  /** Then `real_tables` finds precisely the base-table references. */
  lemma {:induction false} TablesFound(stmt: Node, scopes: Option<seq<seq<ScopeSource>>>)
    requires UniqueIds(stmt) && Resolved(stmt, scopes)
    ensures forall t :: t in RealTables(stmt, scopes) <==> t in LexicalTables(stmt)
  {
    RealTablesExact(stmt, scopes);
  }

  // ---------------------------------------------------------------- allowlist keys

  /** `table_key_candidates`. */
  function KeyCandidates(t: Node): seq<string>
    requires t.Table?
  {
    if t.db == "" then [t.name]
    else if Lower(t.db) == "public" then [t.db + "." + t.name, "public." + t.name, t.name]
    else [t.db + "." + t.name]
  }

  /** The first candidate among `keys`. */
  function FirstKey(cands: seq<string>, keys: set<string>): (r: Option<string>)
    ensures r.Some? ==> r.value in keys && r.value in cands
    ensures r.None? <==> forall k :: k in cands ==> k !in keys
  {
    if cands == [] then None
    else if cands[0] in keys then Some(cands[0])
    else FirstKey(cands[1..], keys)
  }

  /**
   * The key under which a policy lists a table: the bare name of a table without schema; for the schema
   * `public`, however written, the name with that schema, with `public`, or bare, in this order; for
   * any other schema the name with that schema only.
   */
  function OwnKey(db: string, name: string, keys: set<string>): Option<string> {
    if db == "" then
      if name in keys then Some(name) else None
    else if db + "." + name in keys then Some(db + "." + name)
    else if Lower(db) == "public" then
      if "public." + name in keys then Some("public." + name)
      else if name in keys then Some(name)
      else None
    else None
  }

  lemma {:induction false} FirstOfOne(a: string, keys: set<string>)
    ensures FirstKey([a], keys) == if a in keys then Some(a) else None
  {
    assert [a][1..] == [];
  }

  lemma {:induction false} FirstOfThree(a: string, b: string, c: string, keys: set<string>)
    ensures FirstKey([a, b, c], keys) ==
      if a in keys then Some(a) else if b in keys then Some(b) else if c in keys then Some(c) else None
  {
    assert [a, b, c][1..] == [b, c] && [b, c][1..] == [c];
    FirstOfOne(c, keys);
  }

  /** The loops over candidate keys find exactly that key. */
  lemma {:induction false} CandidatesExactly(t: Node, keys: set<string>)
    requires t.Table?
    ensures FirstKey(KeyCandidates(t), keys) == OwnKey(t.db, t.name, keys)
  {
    if t.db == "" {
      FirstOfOne(t.name, keys);
    } else if Lower(t.db) == "public" {
      FirstOfThree(t.db + "." + t.name, "public." + t.name, t.name, keys);
    } else {
      FirstOfOne(t.db + "." + t.name, keys);
    }
  }
}
