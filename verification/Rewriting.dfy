/** Changing the top-level bound of a statement: what every walk over the tree sees of it. */
module Rewriting {
  import opened Syntax
  import opened Traversal
  import opened Semantics
  import opened Scoping
  import opened Origins
  import opened Limiting

  // ---------------------------------------------------------------- bounds that hold no content

  /** A literal bound, and the number in it. */
  predicate Junk(n: Node) {
    n.Number? || ((n.Limit? || n.Fetch?) && (n.count.None? || n.count.value.Number?))
  }

  predicate JunkBound(limit: Option<Node>) {
    limit.Some? ==> Junk(limit.value)
  }

  /** The clauses of a query other than WITH and the bound. */
  function Clauses(n: Node): seq<Node>
    requires Limitable(n)
  {
    if n.Select? then n.items + OptList(n.into) + OptList(n.from) + n.joins + OptList(n.where) + OptList(n.having)
        + n.locks
    else [n.left, n.right]
  }

  /** The children of a query other than its bound. */
  function Common(n: Node): seq<Node>
    requires Limitable(n)
  {
    CtesOf(n) + Clauses(n)
  }

  lemma {:induction false} KidsOfQuery(n: Node)
    requires Limitable(n)
    ensures Kids(n) == Common(n) + OptList(n.limit)
  {
    assert Parts(n) == Clauses(n) + OptList(n.limit);
  }

  lemma {:induction false} CommonIsShared(n: Node, limit: Option<Node>)
    requires Limitable(n)
    ensures Common(WithLimit(n, limit)) == Common(n)
    ensures TagOf(WithLimit(n, limit)) == TagOf(n)
    ensures Kids(WithLimit(n, limit)) == Common(n) + OptList(limit)
  {
    KidsOfQuery(WithLimit(n, limit));
  }

  // ---------------------------------------------------------------- breadth-first search

  /** A queue without its literal bounds and numbers. */
  function Clean(q: seq<Located>): seq<Located> {
    if q == [] then [] else (if Junk(q[0].node) then [] else [q[0]]) + Clean(q[1..])
  }

  lemma {:induction false} CleanAppend(a: seq<Located>, b: seq<Located>)
    ensures Clean(a + b) == Clean(a) + Clean(b)
    decreases |a|
  {
    if a == [] {
      assert a + b == b;
    } else {
      assert (a + b)[1..] == a[1..] + b;
      CleanAppend(a[1..], b);
    }
  }

  lemma {:induction false} CleanJunk(q: seq<Located>)
    requires forall l :: l in q ==> Junk(l.node)
    ensures Clean(q) == []
    decreases |q|
  {
    if q != [] {
      CleanJunk(q[1..]);
    }
  }

  lemma {:induction false} JunkSpread(l: Located)
    requires Junk(l.node)
    ensures Clean(Spread(l)) == []
  {
    assert forall k :: k in Kids(l.node) ==> Junk(k);
    CleanJunk(Spread(l));
  }

  /** The nodes `p` accepts carry content. */
  ghost predicate SkipsJunk(p: Node -> bool) {
    forall n :: Junk(n) ==> !p(n)
  }

  /** Serving a junk node first changes nothing. */
  lemma {:induction false} JunkStep(q: seq<Located>, p: Node -> bool)
    requires q != [] && Junk(q[0].node) && SkipsJunk(p)
    ensures QueueSize(q[1..] + Spread(q[0])) < QueueSize(q)
    ensures Filter(Bfs(q), p) == Filter(Bfs(q[1..] + Spread(q[0])), p)
    ensures Clean(q[1..] + Spread(q[0])) == Clean(q)
  {
    SpreadShrinks(q[0], q[1..]);
    var rest := Bfs(q[1..] + Spread(q[0]));
    assert Bfs(q) == [q[0]] + rest;
    assert ([q[0]] + rest)[1..] == rest;
    CleanAppend(q[1..], Spread(q[0]));
    JunkSpread(q[0]);
  }

  /** Serving the same node first on both sides. */
  lemma {:induction false} ContentStep(q1: seq<Located>, q2: seq<Located>, p: Node -> bool)
    requires q1 != [] && q2 != [] && q1[0] == q2[0] && Clean(q1[1..]) == Clean(q2[1..])
    requires Filter(Bfs(q1[1..] + Spread(q1[0])), p) == Filter(Bfs(q2[1..] + Spread(q2[0])), p)
    ensures Filter(Bfs(q1), p) == Filter(Bfs(q2), p)
  {
    var r1, r2 := Bfs(q1[1..] + Spread(q1[0])), Bfs(q2[1..] + Spread(q2[0]));
    SpreadShrinks(q1[0], q1[1..]);
    SpreadShrinks(q2[0], q2[1..]);
    assert Bfs(q1) == [q1[0]] + r1 && Bfs(q2) == [q2[0]] + r2;
    assert ([q1[0]] + r1)[1..] == r1 && ([q2[0]] + r2)[1..] == r2;
  }

  /** Queues that differ only in junk yield the same content in the same order. */
  lemma {:induction false} BfsSkipsJunk(q1: seq<Located>, q2: seq<Located>, p: Node -> bool)
    requires SkipsJunk(p) && Clean(q1) == Clean(q2)
    ensures Filter(Bfs(q1), p) == Filter(Bfs(q2), p)
    decreases QueueSize(q1) + QueueSize(q2)
  {
    if q1 != [] && Junk(q1[0].node) {
      JunkStep(q1, p);
      BfsSkipsJunk(q1[1..] + Spread(q1[0]), q2, p);
    } else if q2 != [] && Junk(q2[0].node) {
      JunkStep(q2, p);
      BfsSkipsJunk(q1, q2[1..] + Spread(q2[0]), p);
    } else if q1 != [] {
      assert Clean(q1)[0] == q1[0] && Clean(q1)[1..] == Clean(q1[1..]);
      assert q2 != [] && Clean(q2)[0] == q2[0] && Clean(q2)[1..] == Clean(q2[1..]);
      CleanAppend(q1[1..], Spread(q1[0]));
      CleanAppend(q2[1..], Spread(q2[0]));
      SpreadShrinks(q1[0], q1[1..]);
      SpreadShrinks(q2[0], q2[1..]);
      BfsSkipsJunk(q1[1..] + Spread(q1[0]), q2[1..] + Spread(q2[0]), p);
      ContentStep(q1, q2, p);
    }
  }

  /** What `find_all` yields below the root. */
  function FindBelow(n: Node, p: Node -> bool): seq<Located> {
    Filter(Bfs(Spread(Root(n))), p)
  }

  lemma {:induction false} FindSplit(n: Node, p: Node -> bool)
    ensures FindAll(n, p) == (if p(n) then [Root(n)] else []) + FindBelow(n, p)
  {
    var rest := Bfs(Spread(Root(n)));
    SpreadShrinks(Root(n), []);
    assert [Root(n)][1..] + Spread(Root(n)) == Spread(Root(n));
    assert Bfs([Root(n)]) == [Root(n)] + rest;
    assert ([Root(n)] + rest)[1..] == rest;
  }

  lemma {:induction false} BelowAllAppend(a: seq<Node>, b: seq<Node>, l: Located)
    ensures BelowAll(a + b, l) == BelowAll(a, l) + BelowAll(b, l)
  {
  }

  lemma {:induction false} CleanSpread(l: Located, common: seq<Node>, limit: Option<Node>)
    requires Kids(l.node) == common + OptList(limit) && JunkBound(limit)
    ensures Clean(Spread(l)) == Clean(BelowAll(common, l))
  {
    BelowAllAppend(common, OptList(limit), l);
    CleanAppend(BelowAll(common, l), BelowAll(OptList(limit), l));
    CleanJunk(BelowAll(OptList(limit), l));
  }

  lemma {:induction false} CleanKids(n: Node, limit: Option<Node>)
    requires Limitable(n) && JunkBound(n.limit) && JunkBound(limit)
    ensures Clean(Spread(Root(WithLimit(n, limit)))) == Clean(Spread(Root(n)))
  {
    KidsOfQuery(n);
    CommonIsShared(n, limit);
    CleanSpread(Root(n), Common(n), n.limit);
    CleanSpread(Root(WithLimit(n, limit)), Common(n), limit);
    BelowAllSame(Common(n), Root(n), Root(WithLimit(n, limit)));
  }

  lemma {:induction false} BelowAllSame(ks: seq<Node>, l: Located, m: Located)
    requires TagOf(l.node) == TagOf(m.node) && l.up == m.up
    ensures BelowAll(ks, l) == BelowAll(ks, m)
  {
  }

  /** A literal bound is invisible to every search for content below the root. */
  lemma {:induction false} FindBelowSame(n: Node, limit: Option<Node>, p: Node -> bool)
    requires Limitable(n) && JunkBound(n.limit) && JunkBound(limit) && SkipsJunk(p)
    ensures FindBelow(WithLimit(n, limit), p) == FindBelow(n, p)
  {
    CleanKids(n, limit);
    BfsSkipsJunk(Spread(Root(WithLimit(n, limit))), Spread(Root(n)), p);
  }

  /** A search that skips queries and literal bounds finds the same nodes in the same order. */
  lemma {:induction false} FindAllSame(n: Node, limit: Option<Node>, p: Node -> bool)
    requires Limitable(n) && JunkBound(n.limit) && JunkBound(limit) && SkipsJunk(p)
    requires !p(n) && !p(WithLimit(n, limit))
    ensures FindAll(WithLimit(n, limit), p) == FindAll(n, p)
  {
    FindBelowSame(n, limit, p);
    FindSplit(n, p);
    FindSplit(WithLimit(n, limit), p);
  }

  // ---------------------------------------------------------------- lexical scoping

  lemma {:induction false} LexPartsSame(l: Located, m: Located, ks: seq<Node>, ctes: set<string>)
    requires Subterms(ks, l.node) && Subterms(ks, m.node) && TagOf(l.node) == TagOf(m.node) && l.up == m.up
    ensures LexParts(l, ks, ctes) == LexParts(m, ks, ctes)
    decreases |ks|
  {
    if ks != [] {
      assert Below(ks[0], l) == Below(ks[0], m);
      LexPartsSame(l, m, ks[1..], ctes);
    }
  }

  lemma {:induction false} LexCtesSame(l: Located, m: Located, ks: seq<Node>, ctes: set<string>)
    requires Subterms(ks, l.node) && Subterms(ks, m.node) && TagOf(l.node) == TagOf(m.node) && l.up == m.up
    ensures LexCtes(l, ks, ctes) == LexCtes(m, ks, ctes)
    decreases |ks|
  {
    if ks != [] {
      assert Below(ks[0], l) == Below(ks[0], m);
      LexCtesSame(l, m, ks[1..], ctes + (if ks[0].Cte? then {ks[0].alias} else {}));
    }
  }

  lemma {:induction false} LexPartsAppend(l: Located, a: seq<Node>, b: seq<Node>, ctes: set<string>)
    requires Subterms(a, l.node) && Subterms(b, l.node) && Subterms(a + b, l.node)
    ensures LexParts(l, a + b, ctes) == LexParts(l, a, ctes) + LexParts(l, b, ctes)
    decreases |a|
  {
    if a == [] {
      assert a + b == b;
    } else {
      assert (a + b)[1..] == a[1..] + b;
      LexPartsAppend(l, a[1..], b, ctes);
    }
  }

  lemma {:induction false} PartsOfQuery(n: Node)
    requires Limitable(n)
    ensures Parts(n) == Clauses(n) + OptList(n.limit)
    ensures Subterms(Clauses(n), n) && Subterms(OptList(n.limit), n) && Subterms(CtesOf(n), n)
  {
    PartsAreSubterms(n);
    CtesAreSubterms(n);
    forall i | 0 <= i < |Clauses(n)|
      ensures Clauses(n)[i] < n
    {
      assert Parts(n)[i] == Clauses(n)[i];
    }
  }

  /** The base tables of a query: those of its clauses, then those of its bound. */
  lemma {:induction false} LexOfQuery(n: Node)
    requires Limitable(n)
    ensures Subterms(Clauses(n), n) && Subterms(OptList(n.limit), n) && Subterms(CtesOf(n), n)
    ensures LexicalTables(n) ==
      LexCtes(Root(n), CtesOf(n), {}) + LexParts(Root(n), Clauses(n), {} + CteNames(CtesOf(n)))
      + LexParts(Root(n), OptList(n.limit), {} + CteNames(CtesOf(n)))
  {
    PartsOfQuery(n);
    PartsAreSubterms(n);
    LexPartsAppend(Root(n), Clauses(n), OptList(n.limit), {} + CteNames(CtesOf(n)));
  }

  lemma {:induction false} JunkHasNoTables(l: Located, limit: Option<Node>, ctes: set<string>)
    requires JunkBound(limit) && Subterms(OptList(limit), l.node)
    ensures LexParts(l, OptList(limit), ctes) == []
  {
    if limit.Some? {
      var at := Below(limit.value, l);
      JunkLex(at, ctes);
      assert OptList(limit)[1..] == [];
    }
  }

  lemma {:induction false} JunkLex(l: Located, ctes: set<string>)
    requires Junk(l.node)
    ensures LexTables(l, ctes) == []
    decreases l.node
  {
    KidsAreSubterms(l.node);
    PartsAreSubterms(l.node);
    CtesAreSubterms(l.node);
    var ks, names := Parts(l.node), ctes + CteNames(CtesOf(l.node));
    assert CtesOf(l.node) == [];
    if ks == [] {
      assert LexParts(l, ks, names) == [];
    } else {
      JunkLex(Below(ks[0], l), names);
      assert ks[1..] == [];
      assert LexParts(l, ks, names) == LexTables(Below(ks[0], l), names) + LexParts(l, [], names);
    }
  }

  lemma {:induction false} LexOfRewritten(n: Node, limit: Option<Node>)
    requires Limitable(n) && JunkBound(limit)
    ensures Subterms(Clauses(n), n) && Subterms(OptList(n.limit), n) && Subterms(CtesOf(n), n)
    ensures LexicalTables(WithLimit(n, limit)) ==
      LexCtes(Root(n), CtesOf(n), {}) + LexParts(Root(n), Clauses(n), {} + CteNames(CtesOf(n)))
  {
    var m, names := WithLimit(n, limit), {} + CteNames(CtesOf(n));
    PartsOfQuery(n);
    LexOfQuery(m);
    assert CtesOf(m) == CtesOf(n) && Clauses(m) == Clauses(n) && m.limit == limit;
    LexCtesSame(Root(m), Root(n), CtesOf(n), {});
    LexPartsSame(Root(m), Root(n), Clauses(n), names);
    JunkHasNoTables(Root(m), limit, names);
  }

  /** A rewrite to a literal bound adds no base table, and keeps all unless the old bound held some. */
  lemma {:induction false} LexicalTablesRewritten(n: Node, limit: Option<Node>)
    requires Limitable(n) && JunkBound(limit)
    ensures forall t :: t in LexicalTables(WithLimit(n, limit)) ==> t in LexicalTables(n)
    ensures JunkBound(n.limit) ==> LexicalTables(WithLimit(n, limit)) == LexicalTables(n)
  {
    LexOfRewritten(n, limit);
    LexOfQuery(n);
    if JunkBound(n.limit) {
      JunkHasNoTables(Root(n), n.limit, {} + CteNames(CtesOf(n)));
    }
  }

  // ---------------------------------------------------------------- occurrences

  lemma {:induction false} WalkAllSame(l: Located, m: Located, ks: seq<Node>)
    requires Subterms(ks, l.node) && Subterms(ks, m.node) && TagOf(l.node) == TagOf(m.node) && l.up == m.up
    ensures WalkAll(l, ks) == WalkAll(m, ks)
    decreases |ks|
  {
    if ks != [] {
      assert Below(ks[0], l) == Below(ks[0], m);
      WalkAllSame(l, m, ks[1..]);
    }
  }

  lemma {:induction false} WalkSplit(l: Located, a: seq<Node>, b: seq<Node>)
    requires Kids(l.node) == a + b
    ensures Subterms(a, l.node) && Subterms(b, l.node)
    ensures Walk(l) == [l] + (WalkAll(l, a) + WalkAll(l, b))
  {
    KidsAreSubterms(l.node);
    forall i | 0 <= i < |a|
      ensures a[i] < l.node
    {
      assert Kids(l.node)[i] == a[i];
    }
    forall i | 0 <= i < |b|
      ensures b[i] < l.node
    {
      assert Kids(l.node)[|a| + i] == b[i];
    }
    WalkAllAppend(l, a, b);
  }

  lemma {:induction false} WalkOfQuery(n: Node)
    requires Limitable(n)
    ensures Subterms(Common(n), n) && Subterms(OptList(n.limit), n)
    ensures Walk(Root(n)) == [Root(n)] + (WalkAll(Root(n), Common(n)) + WalkAll(Root(n), OptList(n.limit)))
  {
    KidsOfQuery(n);
    WalkSplit(Root(n), Common(n), OptList(n.limit));
  }

  lemma {:induction false} JunkWalk(l: Located)
    requires Junk(l.node)
    ensures forall k :: k in Walk(l) ==> Junk(k.node)
    decreases l.node
  {
    KidsAreSubterms(l.node);
    if Kids(l.node) != [] {
      JunkWalk(Below(Kids(l.node)[0], l));
      assert Kids(l.node)[1..] == [];
      assert WalkAll(l, Kids(l.node)) == Walk(Below(Kids(l.node)[0], l)) + [];
    }
  }

  /** A node of the rewritten tree is its root, part of the literal bound, or a node of the original. */
  lemma {:induction false} InsideRewritten(n: Node, limit: Option<Node>, l: Located)
    requires Limitable(n) && JunkBound(limit) && Inside(l, WithLimit(n, limit))
    ensures l == Root(WithLimit(n, limit)) || Junk(l.node) || Inside(l, n)
  {
    var m := WithLimit(n, limit);
    WalkOfQuery(n);
    WalkOfQuery(m);
    CommonIsShared(n, limit);
    WalkAllSame(Root(m), Root(n), Common(n));
    if limit.Some? {
      JunkWalk(Below(limit.value, Root(m)));
      assert OptList(limit)[1..] == [];
      assert WalkAll(Root(m), OptList(limit)) == Walk(Below(limit.value, Root(m))) + [];
    }
  }
}
