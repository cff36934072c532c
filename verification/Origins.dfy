/**
 * The lexical resolver, and where the needs of a query come from: every column, star, join and base
 * table a query reads is an occurrence in its tree, with the sources of the right SELECT in scope.
 */
module Origins {
  import opened Syntax
  import opened Traversal
  import opened Semantics
  import opened Scoping

  // ---------------------------------------------------------------- the lexical resolver

  /** The table references under `l` that mean base tables, given the WITH names in scope. */
  function LexTables(l: Located, ctes: set<string>): seq<Located>
    decreases l.node, 1
  {
    if l.node.Table? then (if IsBase(l.node, ctes) then [l] else [])
    else
      KidsAreSubterms(l.node);
      PartsAreSubterms(l.node);
      CtesAreSubterms(l.node);
      LexCtes(l, CtesOf(l.node), ctes) + LexParts(l, Parts(l.node), ctes + CteNames(CtesOf(l.node)))
  }

  /** A WITH query sees the names bound before it. */
  function LexCtes(l: Located, ks: seq<Node>, ctes: set<string>): seq<Located>
    requires Subterms(ks, l.node)
    decreases l.node, 0, |ks|
  {
    if ks == [] then []
    else LexTables(Below(ks[0], l), ctes)
         + LexCtes(l, ks[1..], ctes + (if ks[0].Cte? then {ks[0].alias} else {}))
  }

  function LexParts(l: Located, ks: seq<Node>, ctes: set<string>): seq<Located>
    requires Subterms(ks, l.node)
    decreases l.node, 0, |ks|
  {
    if ks == [] then [] else LexTables(Below(ks[0], l), ctes) + LexParts(l, ks[1..], ctes)
  }

  /** The base-table references of a statement. */
  function LexicalTables(stmt: Node): seq<Located> {
    LexTables(Root(stmt), {})
  }

  /**
   * A query with the scopes and WITH names around it, its occurrences `nodes` and its base-table
   * references `bases`.
   */
  datatype Whole = Whole(node: Node, outer: seq<Scope>, ctes: set<string>, nodes: seq<Located>, bases: seq<Located>)

  function WholeOf(n: Node, outer: seq<Scope>, ctes: set<string>): Whole {
    Whole(n, outer, ctes, Walk(Root(n)), LexTables(Root(n), ctes))
  }

  function TopLevel(stmt: Node): Whole {
    WholeOf(stmt, [], {})
  }

  ghost predicate Faithful(root: Whole) {
    root == WholeOf(root.node, root.outer, root.ctes)
  }

  /** Everything a query reads. */
  ghost function Reads(root: Whole): set<Need> {
    NeedsQuery(root.node, Place(root.outer, root.ctes, []))
  }

  lemma {:induction false} CtesAreSubterms(n: Node)
    ensures Subterms(CtesOf(n), n)
  {
    KidsAreSubterms(n);
    forall i | 0 <= i < |CtesOf(n)|
      ensures CtesOf(n)[i] < n
    {
      assert Kids(n)[i] == CtesOf(n)[i];
    }
  }

  /** Under `l`, the WITH names `ctes` are those in scope. */
  ghost predicate Tracked(l: Located, ctes: set<string>, root: Whole) {
    forall t :: t in LexTables(l, ctes) ==> t in root.bases
  }

  lemma {:induction false} LexPartsContain(l: Located, ks: seq<Node>, ctes: set<string>, k: Node, t: Located)
    requires Subterms(ks, l.node) && k in ks && t in LexTables(Below(k, l), ctes)
    ensures t in LexParts(l, ks, ctes)
  {
    if k != ks[0] {
      LexPartsContain(l, ks[1..], ctes, k, t);
    }
  }

  lemma {:induction false} PartTracked(l: Located, ctes: set<string>, k: Node, root: Whole)
    requires Tracked(l, ctes, root) && k in Parts(l.node)
    ensures Tracked(Below(k, l), ctes + CteNames(CtesOf(l.node)), root)
  {
    PartsAreSubterms(l.node);
    CtesAreSubterms(l.node);
    var names := ctes + CteNames(CtesOf(l.node));
    forall t | t in LexTables(Below(k, l), names)
      ensures t in root.bases
    {
      LexPartsContain(l, Parts(l.node), names, k, t);
      assert t in LexTables(l, ctes);
    }
  }

  // ---------------------------------------------------------------- rooted needs

  function FromSource(s: Located): Located
    requires s.node.Select? && s.node.from.Some? && s.node.from.value.From?
  {
    Below(s.node.from.value.arg, Below(s.node.from.value, s))
  }

  function JoinSource(s: Located, i: nat): Located
    requires s.node.Select? && i < |s.node.joins| && s.node.joins[i].Join?
  {
    Below(s.node.joins[i].arg, Below(s.node.joins[i], s))
  }

  /** `t` is the FROM source of `s` or the source of one of its first `k` joins. */
  ghost predicate SourceUpTo(t: Located, s: Located, k: nat)
    requires s.node.Select?
  {
    || (s.node.from.Some? && s.node.from.value.From? && t == FromSource(s))
    || exists i: nat :: i < k && i < |s.node.joins| && s.node.joins[i].Join? && t == JoinSource(s, i)
  }

  ghost predicate BindsUpTo(binds: seq<Bind>, s: Located, k: nat, root: Whole)
    requires s.node.Select?
  {
    forall b :: b in binds && b.table.Some? ==>
      && b.table.value.node.Table?
      && SourceUpTo(b.table.value, s, k)
      && b.table.value in root.bases
      && b.alias == AliasOrName(b.table.value.node)
  }

  ghost predicate ScopeOf(sc: Scope, s: Located, root: Whole) {
    && sc.Local?
    && s.node.Select?
    && s in root.nodes
    && s.node.id == sc.sel
    && BindsUpTo(sc.binds, s, |s.node.joins|, root)
  }

  ghost predicate ScopeRooted(sc: Scope, root: Whole) {
    sc in root.outer || exists s :: ScopeOf(sc, s, root)
  }

  ghost predicate ScopesRooted(scopes: seq<Scope>, root: Whole) {
    forall sc :: sc in scopes ==> ScopeRooted(sc, root)
  }

  /** The SELECTs whose sources are in scope enclose the place. */
  ghost predicate Enclosing(scopes: seq<Scope>, up: seq<Tag>, root: Whole) {
    forall sc :: sc in scopes ==> sc in root.outer || (sc.Local? && SelectTag(sc.sel) in up)
  }

  /** `join` is the k-th join of SELECT `s`, and `binds` are its sources up to there. */
  ghost predicate JoinOf(join: Located, binds: seq<Bind>, s: Located, k: nat, root: Whole) {
    && s.node.Select?
    && s in root.nodes
    && k < |s.node.joins|
    && s.node.joins[k].Join?
    && join == Below(s.node.joins[k], s)
    && BindsUpTo(binds, s, k + 1, root)
  }

  ghost predicate Rooted(need: Need, root: Whole) {
    match need
    case NeedTable(t) => t.node.Table? && t in root.nodes && t in root.bases
    case NeedColumn(col, scopes) =>
      col.node.Column? && col in root.nodes && ScopesRooted(scopes, root) && Enclosing(scopes, col.up, root)
    case NeedStar(star, scope) =>
      && star.node.Star?
      && star in root.nodes
      && scope.Local?
      && ScopeRooted(scope, root)
      && star.up != [] && star.up[0] == SelectTag(scope.sel)
    case NeedTableStar(col, scopes) =>
      col.node.StarColumn? && col in root.nodes && ScopesRooted(scopes, root) && Enclosing(scopes, col.up, root)
    case NeedUsing(join, name, binds) =>
      && join.node.Join?
      && name in join.node.using
      && !IsNatural(join.node)
      && exists s, k: nat :: JoinOf(join, binds, s, k, root)
    case NeedNatural(join, binds) =>
      && join.node.Join?
      && IsNatural(join.node)
      && exists s, k: nat :: JoinOf(join, binds, s, k, root)
  }

  ghost predicate AllRooted(needs: set<Need>, root: Whole) {
    forall need :: need in needs ==> Rooted(need, root)
  }

  // ---------------------------------------------------------------- places

  /** Node `n` stands at place `p` of the tree of `root`. */
  ghost predicate Here(n: Node, p: Place, root: Whole) {
    && Faithful(root)
    && Located(n, p.up) in root.nodes
    && Tracked(Located(n, p.up), p.ctes, root)
    && ScopesRooted(p.scopes, root)
    && Enclosing(p.scopes, p.up, root)
  }

  lemma {:induction false} PartHere(n: Node, p: Place, k: Node, root: Whole)
    requires Here(n, p, root) && k in Parts(n)
    ensures Here(k, Body(n, p), root)
    ensures CtesOf(n) == [] ==> Here(k, Down(n, p), root)
  {
    var l := Located(n, p.up);
    assert k in Kids(n);
    KidInside(l, k, root.node);
    PartTracked(l, p.ctes, k, root);
    assert Below(k, l) == Located(k, Body(n, p).up);
    if CtesOf(n) == [] {
      assert p.ctes + CteNames(CtesOf(n)) == p.ctes;
    }
  }

  lemma {:induction false} PartsHere(n: Node, p: Place, root: Whole)
    requires Here(n, p, root)
    ensures forall k :: k in Parts(n) ==> Here(k, Body(n, p), root)
    ensures CtesOf(n) == [] ==> forall k :: k in Parts(n) ==> Here(k, Down(n, p), root)
  {
    forall k | k in Parts(n)
      ensures Here(k, Body(n, p), root) && (CtesOf(n) == [] ==> Here(k, Down(n, p), root))
    {
      PartHere(n, p, k, root);
    }
  }

  /** The remaining WITH list `ks` of the node at `l`, with `ctes` bound so far. */
  ghost predicate CtesHere(l: Located, ks: seq<Node>, ctes: set<string>, root: Whole) {
    && Faithful(root)
    && l in root.nodes
    && (forall k :: k in ks ==> k in CtesOf(l.node))
    && Subterms(ks, l.node)
    && (forall t :: t in LexCtes(l, ks, ctes) ==> t in root.bases)
  }

  lemma {:induction false} CtesHereAt(n: Node, p: Place, root: Whole)
    requires Here(n, p, root)
    ensures CtesHere(Located(n, p.up), CtesOf(n), p.ctes, root)
  {
    CtesAreSubterms(n);
    var l := Located(n, p.up);
    if !n.Table? {
      forall t | t in LexCtes(l, CtesOf(n), p.ctes)
        ensures t in root.bases
      {
        assert t in LexTables(l, p.ctes);
      }
    }
  }

  // ---------------------------------------------------------------- expressions

  lemma {:induction false} ExprRooted(n: Node, p: Place, root: Whole)
    requires Here(n, p, root)
    ensures AllRooted(NeedsExpr(n, p), root)
    decreases n, 0
  {
    PartsHere(n, p, root);
    var d := Down(n, p);
    if n.Column? {
    } else if n.Paren? || n.Alias? || n.Not? || n.Is? || n.Neg? || n.Cast? || (n.Aggregate? && !n.arg.Star?) {
      assert n.arg in Parts(n);
      ExprRooted(n.arg, d, root);
    } else if n.And? || n.Or? || n.Cmp? || n.Like? || n.Arith? {
      assert n.left in Parts(n) && n.right in Parts(n);
      ExprRooted(n.left, d, root);
      ExprRooted(n.right, d, root);
    } else if n.In? {
      InRooted(n, p, root);
    } else if n.Between? {
      assert n.arg in Parts(n) && n.low in Parts(n) && n.high in Parts(n);
      ExprRooted(n.arg, d, root);
      ExprRooted(n.low, d, root);
      ExprRooted(n.high, d, root);
    } else if n.Exists? || n.Subquery? {
      assert n.arg in Parts(n);
      QueryRooted(n.arg, d, root);
    } else if n.Func? {
      ListRooted(n.items, d, root);
    } else {
      assert NeedsExpr(n, p) == {};
    }
  }

  lemma {:induction false} InRooted(n: Node, p: Place, root: Whole)
    requires n.In? && Here(n, p, root)
    ensures AllRooted(NeedsExpr(n, p), root)
    decreases n, -1
  {
    PartsHere(n, p, root);
    assert n.arg in Parts(n);
    ExprRooted(n.arg, Down(n, p), root);
    if n.query.Some? {
      assert n.query.value in OptList(n.query);
      assert n.query.value in Parts(n);
      QueryRooted(n.query.value, Down(n, p), root);
    } else {
      assert forall k :: k in n.items ==> k in Parts(n);
      ListRooted(n.items, Down(n, p), root);
    }
  }

  lemma {:induction false} ListRooted(ns: seq<Node>, p: Place, root: Whole)
    requires forall k :: k in ns ==> Here(k, p, root)
    ensures AllRooted(NeedsList(ns, p), root)
    decreases ns, 0
  {
    if ns != [] {
      ExprRooted(ns[0], p, root);
      ListRooted(ns[1..], p, root);
    }
  }

  // ---------------------------------------------------------------- sources and joins

  lemma {:induction false} SourceRooted(n: Node, p: Place, root: Whole)
    requires Here(n, p, root)
    ensures AllRooted(NeedsSource(n, p), root)
    decreases n, 21
  {
    if n.Table? {
      if IsBase(n, p.ctes) {
        assert Located(n, p.up) in LexTables(Located(n, p.up), p.ctes);
      }
    } else if n.Subquery? || n.Lateral? {
      assert n.arg in Parts(n);
      PartHere(n, p, n.arg, root);
      QueryRooted(n.arg, Down(n, p), root);
    } else if n.Values? {
      QueryRooted(n, p, root);
    }
  }

  /** `p` is the place of the clauses of the SELECT at `s`. */
  ghost predicate InBody(s: Located, p: Place, root: Whole) {
    && s.node.Select?
    && s in root.nodes
    && p.up == [SelectTag(s.node.id)] + s.up
    && ScopesRooted(p.scopes, root)
    && Enclosing(p.scopes, p.up, root)
  }

  lemma {:induction false} BindRooted(src: Node, p: Place, s: Located, k: nat, root: Whole)
    requires Here(src, p, root) && s.node.Select? && SourceUpTo(Located(src, p.up), s, k)
    ensures BindsUpTo([BindOf(src, p)], s, k, root)
  {
    if IsBase(src, p.ctes) {
      assert Located(src, p.up) in LexTables(Located(src, p.up), p.ctes);
    }
  }

  lemma {:induction false} InnerRooted(binds: seq<Bind>, s: Located, k: nat, p: Place, root: Whole)
    requires s.node.Select? && s in root.nodes && k <= |s.node.joins| && BindsUpTo(binds, s, k, root)
        && ScopesRooted(p.scopes, root)
    requires Enclosing(p.scopes, p.up, root) && SelectTag(s.node.id) in p.up
    ensures ScopesRooted(Inner(Local(s.node.id, binds), p).scopes, root)
    ensures Enclosing(Inner(Local(s.node.id, binds), p).scopes, p.up, root)
  {
    assert BindsUpTo(binds, s, |s.node.joins|, root);
    assert ScopeOf(Local(s.node.id, binds), s, root);
  }

  /** The k-th join of `s`, over the sources `binds` before it. */
  lemma {:induction false} JoinSourceRooted(s: Located, k: nat, binds: seq<Bind>, p: Place, root: Whole)
    requires InBody(s, p, root) && k < |s.node.joins| && s.node.joins[k].Join?
    requires Here(s.node.joins[k], p, root) && BindsUpTo(binds, s, k, root)
    ensures var j, d := s.node.joins[k], Down(s.node.joins[k], p);
      AllRooted(NeedsSource(j.arg, if j.arg.Lateral? then Inner(Local(s.node.id, binds), d) else d), root)
    decreases s.node.joins[k], 5
  {
    var j, d := s.node.joins[k], Down(s.node.joins[k], p);
    assert j.arg in Parts(j);
    PartHere(j, p, j.arg, root);
    InnerRooted(binds, s, k, d, root);
    SourceRooted(j.arg, if j.arg.Lateral? then Inner(Local(s.node.id, binds), d) else d, root);
  }

  lemma {:induction false} JoinOnRooted(s: Located, k: nat, all: seq<Bind>, p: Place, root: Whole)
    requires InBody(s, p, root) && k < |s.node.joins| && s.node.joins[k].Join? && s.node.joins[k].on.Some?
    requires Here(s.node.joins[k], p, root) && BindsUpTo(all, s, k + 1, root)
    ensures AllRooted(NeedsExpr(s.node.joins[k].on.value, Inner(Local(s.node.id, all), Down(s.node.joins[k], p))), root)
    decreases s.node.joins[k], 5
  {
    var j, d := s.node.joins[k], Down(s.node.joins[k], p);
    assert j.on.value in OptList(j.on);
    assert j.on.value in Parts(j);
    PartHere(j, p, j.on.value, root);
    InnerRooted(all, s, k + 1, d, root);
    ExprRooted(j.on.value, Inner(Local(s.node.id, all), d), root);
  }

  lemma {:induction false} JoinBindRooted(s: Located, k: nat, binds: seq<Bind>, p: Place, root: Whole)
    requires InBody(s, p, root) && k < |s.node.joins| && s.node.joins[k].Join?
    requires Here(s.node.joins[k], p, root) && BindsUpTo(binds, s, k, root)
    ensures BindsUpTo(binds + [BindOf(s.node.joins[k].arg, Down(s.node.joins[k], p))], s, k + 1, root)
  {
    var j, d := s.node.joins[k], Down(s.node.joins[k], p);
    assert j.arg in Parts(j);
    PartHere(j, p, j.arg, root);
    assert Located(j.arg, d.up) == JoinSource(s, k);
    BindRooted(j.arg, d, s, k + 1, root);
  }

  lemma {:induction false} JoinRooted(s: Located, k: nat, binds: seq<Bind>, p: Place, root: Whole)
    requires InBody(s, p, root) && k < |s.node.joins| && s.node.joins[k].Join?
    requires Here(s.node.joins[k], p, root) && BindsUpTo(binds, s, k, root)
    ensures AllRooted(NeedsJoin(s.node.joins[k], s.node.id, binds, p), root)
    ensures BindsUpTo(binds + [BindOf(s.node.joins[k].arg, Down(s.node.joins[k], p))], s, k + 1, root)
    decreases s.node.joins[k], 6
  {
    var j := s.node.joins[k];
    var all := binds + [BindOf(j.arg, Down(j, p))];
    JoinBindRooted(s, k, binds, p, root);
    JoinSourceRooted(s, k, binds, p, root);
    assert JoinOf(Located(j, p.up), all, s, k, root);
    if j.on.Some? {
      JoinOnRooted(s, k, all, p, root);
    }
  }

  lemma {:induction false} JoinsRooted(s: Located, k: nat, binds: seq<Bind>, p: Place, root: Whole)
    requires InBody(s, p, root) && k <= |s.node.joins|
    requires forall i :: k <= i < |s.node.joins| ==> Here(s.node.joins[i], p, root)
    requires BindsUpTo(binds, s, k, root)
    ensures AllRooted(NeedsJoins(s.node.joins[k..], s.node.id, binds, p), root)
    ensures BindsUpTo(JoinBinds(s.node.joins[k..], binds, p), s, |s.node.joins|, root)
    decreases s.node, 8, |s.node.joins| - k
  {
    var joins := s.node.joins;
    if k < |joins| {
      assert joins[k..][0] == joins[k] && joins[k..][1..] == joins[k + 1..];
      if joins[k].Join? {
        JoinRooted(s, k, binds, p, root);
        JoinsRooted(s, k + 1, binds + [BindOf(joins[k].arg, Down(joins[k], p))], p, root);
      } else {
        assert BindsUpTo(binds, s, k + 1, root);
        JoinsRooted(s, k + 1, binds, p, root);
      }
    }
  }

  lemma {:induction false} FromHere(f: Node, p: Place, root: Whole)
    requires f.From? && Here(f, p, root)
    ensures Here(f.arg, Down(f, p), root)
  {
    assert f.arg in Parts(f);
    PartHere(f, p, f.arg, root);
  }

  lemma {:induction false} FirstRooted(s: Located, p: Place, root: Whole)
    requires InBody(s, p, root)
    requires s.node.from.Some? ==> Here(s.node.from.value, p, root)
    ensures AllRooted(NeedsFirst(s.node.from, p), root)
    ensures BindsUpTo(FirstBinds(s.node.from, p), s, 0, root)
    decreases s.node, 8
  {
    if s.node.from.Some? && s.node.from.value.From? {
      var f, d := s.node.from.value, Down(s.node.from.value, p);
      FromHere(f, p, root);
      SourceRooted(f.arg, d, root);
      assert Located(f.arg, d.up) == FromSource(s);
      BindRooted(f.arg, d, s, 0, root);
      assert FirstBinds(s.node.from, p) == [BindOf(f.arg, d)];
    } else {
      assert FirstBinds(s.node.from, p) == [];
    }
  }

  lemma {:induction false} FilterRooted(clause: Option<Node>, p: Place, root: Whole)
    requires clause.Some? ==> Here(clause.value, p, root)
    ensures AllRooted(NeedsFilter(clause, p), root)
    decreases clause, 7
  {
    if clause.Some? && (clause.value.Where? || clause.value.Having?) {
      assert clause.value.arg in Parts(clause.value);
      PartHere(clause.value, p, clause.value.arg, root);
      ExprRooted(clause.value.arg, Down(clause.value, p), root);
    }
  }

  // ---------------------------------------------------------------- queries

  lemma {:induction false} ItemsRooted(items: seq<Node>, p: Place, sel: nat, root: Whole)
    requires p.scopes != [] && p.scopes[0].Local? && p.scopes[0].sel == sel
    requires p.up != [] && p.up[0] == SelectTag(sel)
    requires ScopesRooted(p.scopes, root) && forall k :: k in items ==> Here(k, p, root)
    ensures AllRooted(NeedsItems(items, p), root)
    decreases items, 7
  {
    if items != [] {
      assert Here(items[0], p, root);
      if items[0].Star? {
        assert Rooted(NeedStar(Located(items[0], p.up), p.scopes[0]), root);
      } else if items[0].StarColumn? {
        assert Rooted(NeedTableStar(Located(items[0], p.up), p.scopes), root);
      } else {
        ExprRooted(items[0], p, root);
      }
      ItemsRooted(items[1..], p, sel, root);
    }
  }

  lemma {:induction false} TuplesRooted(items: seq<Node>, p: Place, root: Whole)
    requires forall k :: k in items ==> Here(k, p, root)
    ensures AllRooted(NeedsTuples(items, p), root)
    decreases items, 9
  {
    if items != [] {
      if items[0].Tuple? {
        PartsHere(items[0], p, root);
        ListRooted(items[0].items, Down(items[0], p), root);
      } else {
        ExprRooted(items[0], p, root);
      }
      TuplesRooted(items[1..], p, root);
    }
  }

  /** The next WITH query stands at its place, and the rest of the list after it. */
  lemma {:induction false} CteHere(l: Located, ks: seq<Node>, p: Place, root: Whole)
    requires ks != [] && CtesHere(l, ks, p.ctes, root) && ScopesRooted(p.scopes, root)
        && Enclosing(p.scopes, p.up, root)
    requires p.up == [TagOf(l.node)] + l.up
    ensures Here(ks[0], p, root)
    ensures CtesHere(l, ks[1..], p.ctes + (if ks[0].Cte? then {ks[0].alias} else {}), root)
  {
    var k := ks[0];
    assert k in Kids(l.node);
    KidInside(l, k, root.node);
    assert LexCtes(l, ks, p.ctes) == LexTables(Below(k, l), p.ctes)
      + LexCtes(l, ks[1..], p.ctes + (if k.Cte? then {k.alias} else {}));
    assert Below(k, l) == Located(k, p.up);
  }

  lemma {:induction false} CtesRooted(l: Located, ks: seq<Node>, p: Place, root: Whole)
    requires CtesHere(l, ks, p.ctes, root) && ScopesRooted(p.scopes, root) && Enclosing(p.scopes, p.up, root)
    requires p.up == [TagOf(l.node)] + l.up
    ensures AllRooted(NeedsCtes(ks, p), root)
    decreases ks, 10
  {
    if ks != [] {
      var k := ks[0];
      CteHere(l, ks, p, root);
      if k.Cte? {
        assert k.arg in Parts(k);
        PartHere(k, p, k.arg, root);
        QueryRooted(k.arg, Down(k, p), root);
        CtesRooted(l, ks[1..], p.(ctes := p.ctes + {k.alias}), root);
      } else {
        assert p.ctes + {} == p.ctes;
        CtesRooted(l, ks[1..], p, root);
      }
    }
  }

  lemma {:induction false} BoundRooted(limit: Option<Node>, p: Place, root: Whole)
    requires limit.Some? ==> Here(limit.value, p, root)
    ensures AllRooted(NeedsBound(limit, p), root)
    decreases limit, 10
  {
    if limit.Some? {
      PartsHere(limit.value, p, root);
      match limit.value
      case Limit(Some(e)) =>
        assert e in Parts(limit.value);
        ExprRooted(e, Down(limit.value, p).(scopes := []), root);
      case Fetch(Some(e)) =>
        assert e in Parts(limit.value);
        ExprRooted(e, Down(limit.value, p).(scopes := []), root);
      case _ =>
    }
  }

  lemma {:induction false} SelectParts(n: Node)
    requires n.Select?
    ensures forall k :: k in n.items || k in n.joins ==> k in Parts(n)
    ensures n.from.Some? ==> n.from.value in Parts(n)
    ensures n.where.Some? ==> n.where.value in Parts(n)
    ensures n.having.Some? ==> n.having.value in Parts(n)
    ensures n.limit.Some? ==> n.limit.value in Parts(n)
  {
    assert n.from.Some? ==> n.from.value in OptList(n.from);
    assert n.where.Some? ==> n.where.value in OptList(n.where);
    assert n.having.Some? ==> n.having.value in OptList(n.having);
    assert n.limit.Some? ==> n.limit.value in OptList(n.limit);
  }

  lemma {:induction false} SelectRooted(n: Node, p: Place, root: Whole)
    requires n.Select? && Here(n, p, root)
    ensures AllRooted(NeedsSelect(n, p), root)
    decreases n, 9
  {
    var s, b := Located(n, p.up), Body(n, p);
    PartsHere(n, p, root);
    SelectParts(n);
    FirstRooted(s, b, root);
    JoinsRooted(s, 0, FirstBinds(n.from, b), b, root);
    assert n.joins[0..] == n.joins;
    InnerRooted(OwnBinds(n, p), s, |n.joins|, b, root);
    var inner := Inner(Local(n.id, OwnBinds(n, p)), b);
    FilterRooted(n.where, inner, root);
    FilterRooted(n.having, inner, root);
    ItemsRooted(n.items, inner, n.id, root);
  }

  lemma {:induction false} QueryRooted(n: Node, p: Place, root: Whole)
    requires Here(n, p, root)
    ensures AllRooted(NeedsQuery(n, p), root)
    decreases n, 20
  {
    PartsHere(n, p, root);
    if n.Select? {
      CtesHereAt(n, p, root);
      CtesRooted(Located(n, p.up), n.ctes, Down(n, p), root);
      SelectRooted(n, p, root);
      SelectParts(n);
      BoundRooted(n.limit, Body(n, p), root);
    } else if n.SetOp? {
      CtesHereAt(n, p, root);
      CtesRooted(Located(n, p.up), n.ctes, Down(n, p), root);
      assert n.left in Parts(n) && n.right in Parts(n);
      assert n.limit.Some? ==> n.limit.value in OptList(n.limit);
      QueryRooted(n.left, Body(n, p), root);
      QueryRooted(n.right, Body(n, p), root);
      BoundRooted(n.limit, Body(n, p), root);
    } else if n.Subquery? || n.Paren? {
      assert n.arg in Parts(n);
      QueryRooted(n.arg, Down(n, p), root);
    } else if n.Values? {
      TuplesRooted(n.items, Down(n, p), root);
    } else {
      assert NeedsQuery(n, p) == {};
    }
  }

  /** Everything a query reads is an occurrence in its tree, bound by its own SELECT lists or from outside. */
  lemma {:induction false} ReadsAreRooted(root: Whole)
    requires Faithful(root)
    ensures AllRooted(Reads(root), root)
  {
    RootInside(root.node);
    assert Here(root.node, Place(root.outer, root.ctes, []), root);
    QueryRooted(root.node, Place(root.outer, root.ctes, []), root);
  }
}
