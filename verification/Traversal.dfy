/**
 * Walking a statement tree. `FindAll` is the parser's breadth-first `find_all`; `Walk` is the
 * plain structural listing of the same nodes, which the proofs use.
 */
module Traversal {
  import opened Syntax

  /** What the checks look at in an ancestor of a node. */
  datatype Tag = SelectTag(id: nat) | CountTag | ColumnTag(table: string) | OtherTag

  /** A node with its ancestors' tags, nearest first. */
  datatype Located = Located(node: Node, up: seq<Tag>)

  function TagOf(n: Node): Tag {
    match n
    case Select(id, _, _, _, _, _, _, _, _, _) => SelectTag(id)
    case Aggregate(CountFn, _) => CountTag
    case Column(t, _) => ColumnTag(t)
    case StarColumn(t, _) => ColumnTag(t)
    case _ => OtherTag
  }

  function Below(k: Node, l: Located): Located {
    Located(k, [TagOf(l.node)] + l.up)
  }

  function BelowAll(ks: seq<Node>, l: Located): (r: seq<Located>)
    ensures |r| == |ks|
    ensures forall i :: 0 <= i < |ks| ==> r[i] == Below(ks[i], l)
  {
    if ks == [] then [] else [Below(ks[0], l)] + BelowAll(ks[1..], l)
  }

  /** The children of a located node, located. */
  function Spread(l: Located): seq<Located> {
    BelowAll(Kids(l.node), l)
  }

  ghost predicate Subterms(ks: seq<Node>, n: Node) {
    forall i :: 0 <= i < |ks| ==> ks[i] < n
  }

  lemma {:induction false} JoinedSubterms(a: seq<Node>, b: seq<Node>, n: Node)
    requires Subterms(a, n) && Subterms(b, n)
    ensures Subterms(a + b, n)
  {
  }

  lemma {:induction false} SelectPartsSmaller(n: Node)
    requires n.Select?
    ensures Subterms(Parts(n), n)
  {
    var s1 := n.items + OptList(n.into);
    JoinedSubterms(n.items, OptList(n.into), n);
    var s2 := s1 + OptList(n.from);
    JoinedSubterms(s1, OptList(n.from), n);
    var s3 := s2 + n.joins;
    JoinedSubterms(s2, n.joins, n);
    var s4 := s3 + OptList(n.where);
    JoinedSubterms(s3, OptList(n.where), n);
    var s5 := s4 + OptList(n.having);
    JoinedSubterms(s4, OptList(n.having), n);
    JoinedSubterms(s5, n.locks, n);
    JoinedSubterms(s5 + n.locks, OptList(n.limit), n);
  }

  lemma {:induction false} WritePartsSmaller(n: Node)
    requires n.Insert? || n.Update? || n.Delete? || n.Merge? || n.In? || n.Subquery?
    ensures Subterms(Parts(n), n)
  {
    if n.In? {
      JoinedSubterms([n.arg], n.items, n);
      JoinedSubterms([n.arg] + n.items, OptList(n.query), n);
    } else if n.Subquery? {
      JoinedSubterms([n.arg], n.locks, n);
    } else if n.Update? {
      JoinedSubterms([n.arg], n.items, n);
      JoinedSubterms([n.arg] + n.items, OptList(n.where), n);
    } else if n.Merge? {
      JoinedSubterms([n.arg], OptList(n.source), n);
      JoinedSubterms([n.arg] + OptList(n.source), OptList(n.on), n);
      JoinedSubterms([n.arg] + OptList(n.source) + OptList(n.on), n.whens, n);
    }
  }

  lemma {:induction false} PartsAreSubterms(n: Node)
    ensures Subterms(Parts(n), n)
  {
    if n.Select? {
      SelectPartsSmaller(n);
    } else if n.Insert? || n.Update? || n.Delete? || n.Merge? || n.In? || n.Subquery? {
      WritePartsSmaller(n);
    } else {
      OtherPartsSmaller(n);
    }
  }

  lemma {:induction false} OtherPartsSmaller(n: Node)
    requires !n.Select? && !(n.Insert? || n.Update? || n.Delete? || n.Merge? || n.In? || n.Subquery?)
    ensures Subterms(Parts(n), n)
  {
  }

  lemma {:induction false} KidsAreSubterms(n: Node)
    ensures Subterms(Kids(n), n)
  {
    PartsAreSubterms(n);
    assert Subterms(CtesOf(n), n) by {
      match n
      case _ =>
    }
  }

  // ---------------------------------------------------------------- sizes

  function Size(n: Node): (s: nat)
    ensures s >= 1
    decreases n
  {
    KidsAreSubterms(n);
    1 + SizeAll(n, Kids(n))
  }

  function SizeAll(n: Node, ks: seq<Node>): nat
    requires Subterms(ks, n)
    decreases n, |ks|
  {
    if ks == [] then 0 else Size(ks[0]) + SizeAll(n, ks[1..])
  }

  function QueueSize(q: seq<Located>): nat {
    if q == [] then 0 else Size(q[0].node) + QueueSize(q[1..])
  }

  lemma {:induction false} QueueSizeAppend(a: seq<Located>, b: seq<Located>)
    ensures QueueSize(a + b) == QueueSize(a) + QueueSize(b)
  {
    if a == [] {
      assert a + b == b;
    } else {
      assert (a + b)[1..] == a[1..] + b;
      QueueSizeAppend(a[1..], b);
    }
  }

  lemma {:induction false} QueueSizeBelow(n: Node, ks: seq<Node>, l: Located)
    requires Subterms(ks, n)
    ensures QueueSize(BelowAll(ks, l)) == SizeAll(n, ks)
  {
    if ks != [] {
      QueueSizeBelow(n, ks[1..], l);
    }
  }

  lemma {:induction false} SpreadShrinks(l: Located, rest: seq<Located>)
    ensures QueueSize(rest + Spread(l)) < Size(l.node) + QueueSize(rest)
  {
    KidsAreSubterms(l.node);
    QueueSizeBelow(l.node, Kids(l.node), l);
    QueueSizeAppend(rest, Spread(l));
  }

  // ---------------------------------------------------------------- breadth-first order

  /** The breadth-first order in which `find_all` yields nodes. */
  function Bfs(queue: seq<Located>): seq<Located>
    decreases QueueSize(queue)
  {
    if queue == [] then []
    else
      SpreadShrinks(queue[0], queue[1..]);
      [queue[0]] + Bfs(queue[1..] + Spread(queue[0]))
  }

  function Filter(ls: seq<Located>, p: Node -> bool): (r: seq<Located>)
    ensures forall l :: l in r <==> l in ls && p(l.node)
  {
    if ls == [] then []
    else if p(ls[0].node) then [ls[0]] + Filter(ls[1..], p)
    else Filter(ls[1..], p)
  }

  function Root(n: Node): Located {
    Located(n, [])
  }

  /** `n.find_all(p)`. */
  function FindAll(n: Node, p: Node -> bool): seq<Located> {
    Filter(Bfs([Root(n)]), p)
  }

  /** `n.find(p) is not None`. */
  predicate Has(n: Node, p: Node -> bool) {
    FindAll(n, p) != []
  }

  // ---------------------------------------------------------------- structural order

  function Walk(l: Located): seq<Located>
    decreases l.node, 1
  {
    KidsAreSubterms(l.node);
    [l] + WalkAll(l, Kids(l.node))
  }

  function WalkAll(l: Located, ks: seq<Node>): seq<Located>
    requires Subterms(ks, l.node)
    decreases l.node, 0, |ks|
  {
    if ks == [] then [] else Walk(Below(ks[0], l)) + WalkAll(l, ks[1..])
  }

  lemma {:induction false} WalkAllAppend(l: Located, a: seq<Node>, b: seq<Node>)
    requires Subterms(a, l.node) && Subterms(b, l.node) && Subterms(a + b, l.node)
    ensures WalkAll(l, a + b) == WalkAll(l, a) + WalkAll(l, b)
    decreases |a|
  {
    if a == [] {
      assert a + b == b;
    } else {
      assert (a + b)[1..] == a[1..] + b;
      WalkAllAppend(l, a[1..], b);
    }
  }

  function WalkQueue(q: seq<Located>): seq<Located> {
    if q == [] then [] else Walk(q[0]) + WalkQueue(q[1..])
  }

  lemma {:induction false} WalkQueueAppend(a: seq<Located>, b: seq<Located>)
    ensures WalkQueue(a + b) == WalkQueue(a) + WalkQueue(b)
  {
    if a == [] {
      assert a + b == b;
    } else {
      assert (a + b)[1..] == a[1..] + b;
      WalkQueueAppend(a[1..], b);
    }
  }

  lemma {:induction false} WalkQueueBelow(l: Located, ks: seq<Node>)
    requires Subterms(ks, l.node)
    ensures WalkQueue(BelowAll(ks, l)) == WalkAll(l, ks)
  {
    if ks != [] {
      WalkQueueBelow(l, ks[1..]);
    }
  }

  /** Breadth-first search visits every occurrence of every node exactly once. */
  lemma {:induction false} BfsIsPermutation(q: seq<Located>)
    ensures multiset(Bfs(q)) == multiset(WalkQueue(q))
    decreases QueueSize(q)
  {
    if q != [] {
      var l, rest := q[0], q[1..];
      SpreadShrinks(l, rest);
      BfsIsPermutation(rest + Spread(l));
      WalkQueueAppend(rest, Spread(l));
      KidsAreSubterms(l.node);
      WalkQueueBelow(l, Kids(l.node));
      assert WalkQueue(q) == [l] + WalkAll(l, Kids(l.node)) + WalkQueue(rest);
    }
  }

  /** `l` occurs in the tree of `root`. */
  ghost predicate Inside(l: Located, root: Node) {
    l in Walk(Root(root))
  }

  lemma {:induction false} FoundIffInside(root: Node, p: Node -> bool, l: Located)
    ensures l in FindAll(root, p) <==> Inside(l, root) && p(l.node)
  {
    BfsIsPermutation([Root(root)]);
    assert WalkQueue([Root(root)]) == Walk(Root(root)) + [];
    assert l in Bfs([Root(root)]) <==> l in multiset(Bfs([Root(root)]));
    assert l in Walk(Root(root)) <==> l in multiset(Walk(Root(root)));
  }

  lemma {:induction false} HasIffInside(root: Node, p: Node -> bool)
    ensures Has(root, p) <==> exists l :: Inside(l, root) && p(l.node)
  {
    if Has(root, p) {
      FoundIffInside(root, p, FindAll(root, p)[0]);
    }
    if l :| Inside(l, root) && p(l.node) {
      FoundIffInside(root, p, l);
    }
  }

  lemma {:induction false} RootInside(root: Node)
    ensures Inside(Root(root), root)
  {
  }

  lemma {:induction false} WalkContainsKid(r: Located, l: Located, k: Node)
    requires l in Walk(r) && k in Kids(l.node)
    ensures Below(k, l) in Walk(r)
    decreases r.node, 1
  {
    KidsAreSubterms(r.node);
    if l == r {
      WalkAllContainsRoot(r, Kids(r.node), k);
    } else {
      WalkAllContainsKid(r, Kids(r.node), l, k);
    }
  }

  lemma {:induction false} WalkAllContainsRoot(r: Located, ks: seq<Node>, k: Node)
    requires Subterms(ks, r.node) && k in ks
    ensures Below(k, r) in WalkAll(r, ks)
    decreases |ks|
  {
    if k != ks[0] {
      WalkAllContainsRoot(r, ks[1..], k);
    } else {
      KidsAreSubterms(k);
      assert Walk(Below(k, r))[0] == Below(k, r);
    }
  }

  lemma {:induction false} WalkAllContainsKid(r: Located, ks: seq<Node>, l: Located, k: Node)
    requires Subterms(ks, r.node) && l in WalkAll(r, ks) && k in Kids(l.node)
    ensures Below(k, l) in WalkAll(r, ks)
    decreases r.node, 0, |ks|
  {
    if l in Walk(Below(ks[0], r)) {
      WalkContainsKid(Below(ks[0], r), l, k);
    } else {
      WalkAllContainsKid(r, ks[1..], l, k);
    }
  }

  /** A child of an occurrence is an occurrence. */
  lemma {:induction false} KidInside(l: Located, k: Node, root: Node)
    requires Inside(l, root) && k in Kids(l.node)
    ensures Inside(Below(k, l), root)
  {
    WalkContainsKid(Root(root), l, k);
  }

  /** The walk of an occurrence is part of the walk of the tree. */
  lemma {:induction false} WalkWithin(r: Located, l: Located)
    requires l in Walk(r)
    ensures multiset(Walk(l)) <= multiset(Walk(r))
    decreases r.node, 1
  {
    if l != r {
      KidsAreSubterms(r.node);
      WalkAllWithin(r, Kids(r.node), l);
      assert Walk(r) == [r] + WalkAll(r, Kids(r.node));
    }
  }

  lemma {:induction false} WalkAllWithin(r: Located, ks: seq<Node>, l: Located)
    requires Subterms(ks, r.node) && l in WalkAll(r, ks)
    ensures multiset(Walk(l)) <= multiset(WalkAll(r, ks))
    decreases r.node, 0, |ks|
  {
    assert WalkAll(r, ks) == Walk(Below(ks[0], r)) + WalkAll(r, ks[1..]);
    if l in Walk(Below(ks[0], r)) {
      WalkWithin(Below(ks[0], r), l);
    } else {
      WalkAllWithin(r, ks[1..], l);
    }
  }

  function Flat(parts: seq<seq<Located>>): seq<Located> {
    if parts == [] then [] else parts[0] + Flat(parts[1..])
  }

  lemma {:induction false} OnePart(parts: seq<seq<Located>>, i: nat)
    requires i < |parts|
    ensures multiset(parts[i]) <= multiset(Flat(parts))
  {
    if i > 0 {
      OnePart(parts[1..], i - 1);
    }
  }

  lemma {:induction false} TwoParts(parts: seq<seq<Located>>, i: nat, j: nat)
    requires i < j < |parts|
    ensures multiset(parts[i]) + multiset(parts[j]) <= multiset(Flat(parts))
  {
    assert multiset(Flat(parts)) == multiset(parts[0]) + multiset(Flat(parts[1..]));
    if i == 0 {
      OnePart(parts[1..], j - 1);
    } else {
      TwoParts(parts[1..], i - 1, j - 1);
    }
  }

  /** The walks of the children, one by one. */
  lemma {:induction false} KidWalks(r: Located, ks: seq<Node>) returns (parts: seq<seq<Located>>)
    requires Subterms(ks, r.node)
    ensures |parts| == |ks| && forall i :: 0 <= i < |ks| ==> parts[i] == Walk(Below(ks[i], r))
    ensures WalkAll(r, ks) == Flat(parts)
    decreases |ks|
  {
    if ks == [] {
      parts := [];
    } else {
      var rest := KidWalks(r, ks[1..]);
      parts := [Walk(Below(ks[0], r))] + rest;
      assert parts[1..] == rest;
    }
  }

  lemma {:induction false} OnlyOnce(whole: seq<Located>, a: seq<Located>, b: seq<Located>, t: Located)
    requires multiset(a) + multiset(b) <= multiset(whole) && multiset(whole)[t] <= 1
    ensures !(t in a && t in b)
  {
    assert (multiset(a) + multiset(b))[t] <= 1;
  }

  /** No occurrence of a table lies below two different children of one node. */
  lemma {:induction false} OneBranch(root: Node, r: Located, i: nat, j: nat, t: Located)
    requires UniqueIds(root) && Inside(r, root) && i < j < |Kids(r.node)| && t.node.Table?
    ensures !(t in Walk(Below(Kids(r.node)[i], r)) && t in Walk(Below(Kids(r.node)[j], r)))
  {
    KidsAreSubterms(r.node);
    var parts := KidWalks(r, Kids(r.node));
    TwoParts(parts, i, j);
    WalkWithin(Root(root), r);
    var all := Walk(Root(root));
    assert Walk(r) == [r] + Flat(parts);
    assert multiset(Flat(parts)) <= multiset(Walk(r));
    if t in all {
      assert Inside(t, root);
    } else {
      assert t !in multiset(all);
    }
    OnlyOnce(all, parts[i], parts[j], t);
  }

  // ---------------------------------------------------------------- children and levels

  predicate ArgChild(n: Node, k: Node) {
    (n.StarColumn? || n.Paren? || n.Alias? || n.Not? || n.Is? || n.In? || n.Between? || n.Exists? || n.Neg? || n.Cast?
     || n.Aggregate? || n.Subquery? || n.Lateral? || n.From? || n.Join? || n.Where? || n.Having? || n.Cte? || n.Into?
     || n.Insert? || n.Update? || n.Delete? || n.Merge?)
    && k == n.arg
  }

  predicate SideChild(n: Node, k: Node) {
    || ((n.And? || n.Or? || n.Cmp? || n.Like? || n.Arith? || n.SetOp?) && (k == n.left || k == n.right))
    || (n.Is? && k == n.expression)
    || (n.Between? && (k == n.low || k == n.high))
  }

  predicate ListChild(n: Node, k: Node) {
    || ((n.In? || n.Func? || n.Select? || n.Values? || n.Tuple? || n.Update? || n.Command?) && k in n.items)
    || (n.Select? && k in n.joins)
    || ((n.Select? || n.Subquery?) && k in n.locks)
    || (n.Merge? && k in n.whens)
  }

  predicate ClauseChild(n: Node, k: Node) {
    || (n.In? && n.query == Some(k))
    || (n.Select? && (n.into == Some(k) || n.from == Some(k) || n.having == Some(k)))
    || ((n.Select? || n.Update? || n.Delete?) && n.where == Some(k))
    || ((n.Select? || n.SetOp?) && n.limit == Some(k))
    || ((n.Join? || n.Merge?) && n.on == Some(k))
    || ((n.Insert? || n.Merge?) && n.source == Some(k))
    || (n.Insert? && n.conflict == Some(k))
    || (n.When? && n.condition == Some(k))
    || ((n.When? || n.OnConflict?) && n.action == Some(k))
    || ((n.Limit? || n.Fetch?) && n.count == Some(k))
  }

  predicate CteChild(n: Node, k: Node) {
    (n.Select? || n.SetOp? || n.Insert? || n.Update? || n.Delete? || n.Merge?) && k in n.ctes
  }

  predicate PartChild(n: Node, k: Node) {
    ArgChild(n, k) || SideChild(n, k) || ListChild(n, k) || ClauseChild(n, k)
  }

  lemma {:induction false} SelectChildren(n: Node, k: Node)
    requires n.Select?
    ensures k in Parts(n) <==> PartChild(n, k)
  {
  }

  lemma {:induction false} WriteChildren(n: Node, k: Node)
    requires n.Insert? || n.Update? || n.Delete? || n.In? || n.Subquery?
    ensures k in Parts(n) <==> PartChild(n, k)
  {
  }

  lemma {:induction false} MergeChildren(n: Node, k: Node)
    requires n.Merge?
    ensures k in Parts(n) <==> PartChild(n, k)
  {
  }

  lemma {:induction false} ScalarChildren(n: Node, k: Node)
    requires n.And? || n.Or? || n.Cmp? || n.Like? || n.Arith? || n.SetOp? || n.Is? || n.Between?
    ensures k in Parts(n) <==> PartChild(n, k)
  {
  }

  lemma {:induction false} ClauseChildren(n: Node, k: Node)
    requires n.Join? || n.When? || n.OnConflict? || n.Limit? || n.Fetch?
    ensures k in Parts(n) <==> PartChild(n, k)
  {
  }

  lemma {:induction false} ListChildren(n: Node, k: Node)
    requires n.Func? || n.Values? || n.Tuple? || n.Command?
    ensures k in Parts(n) <==> PartChild(n, k)
  {
  }

  lemma {:induction false} OtherChildren(n: Node, k: Node)
    requires !n.Select? && !(n.Insert? || n.Update? || n.Delete? || n.Merge? || n.In? || n.Subquery?)
    requires !(n.And? || n.Or? || n.Cmp? || n.Like? || n.Arith? || n.SetOp? || n.Is? || n.Between?)
    requires !(n.Join? || n.When? || n.OnConflict? || n.Limit? || n.Fetch?)
    requires !(n.Func? || n.Values? || n.Tuple? || n.Command?)
    ensures k in Parts(n) <==> PartChild(n, k)
  {
  }

  lemma {:induction false} BothLists(a: seq<Node>, b: seq<Node>, k: Node)
    ensures k in a + b <==> k in a || k in b
  {
  }

  lemma {:induction false} CteChildren(n: Node, k: Node)
    ensures k in CtesOf(n) <==> CteChild(n, k)
  {
  }

  /** The children of a node are what its fields hold, all of them. */
  lemma {:induction false} ChildrenExactly(n: Node, k: Node)
    ensures k in Kids(n) <==> CteChild(n, k) || PartChild(n, k)
  {
    CteChildren(n, k);
    if n.Select? {
      SelectChildren(n, k);
    } else if n.Merge? {
      MergeChildren(n, k);
    } else if n.Insert? || n.Update? || n.Delete? || n.In? || n.Subquery? {
      WriteChildren(n, k);
    } else if n.And? || n.Or? || n.Cmp? || n.Like? || n.Arith? || n.SetOp? || n.Is? || n.Between? {
      ScalarChildren(n, k);
    } else if n.Join? || n.When? || n.OnConflict? || n.Limit? || n.Fetch? {
      ClauseChildren(n, k);
    } else if n.Func? || n.Values? || n.Tuple? || n.Command? {
      ListChildren(n, k);
    } else {
      OtherChildren(n, k);
    }
    BothLists(CtesOf(n), Parts(n), k);
  }

  /** What a position tells of the node above it: a SELECT's identity, a COUNT, or a column's qualifier. */
  lemma {:induction false} TagExactly(n: Node, id: nat, q: string)
    ensures TagOf(n) == SelectTag(id) <==> n.Select? && n.id == id
    ensures TagOf(n).CountTag? <==> n.Aggregate? && n.fn.CountFn?
    ensures TagOf(n) == ColumnTag(q) <==> (n.Column? || n.StarColumn?) && n.table == q
  {
  }

  /** No node stands on a level above one before it. */
  ghost predicate LevelByLevel(ls: seq<Located>) {
    forall i, j :: 0 <= i <= j < |ls| ==> |ls[i].up| <= |ls[j].up|
  }

  /** A queue of one level and part of the next. */
  ghost predicate TwoLevels(queue: seq<Located>) {
    LevelByLevel(queue) && forall i :: 0 <= i < |queue| ==> |queue[i].up| <= |queue[0].up| + 1
  }

  lemma {:induction false} NextQueue(queue: seq<Located>)
    requires queue != [] && TwoLevels(queue)
    ensures TwoLevels(queue[1..] + Spread(queue[0]))
    ensures forall l :: l in queue[1..] + Spread(queue[0]) ==> |queue[0].up| <= |l.up|
  {
    var rest, kids := queue[1..], Spread(queue[0]);
    assert forall i :: 0 <= i < |rest| ==> rest[i] == queue[i + 1];
    assert forall i :: 0 <= i < |kids| ==> |kids[i].up| == |queue[0].up| + 1;
  }

  lemma {:induction false} BfsByLevel(queue: seq<Located>)
    requires TwoLevels(queue)
    ensures LevelByLevel(Bfs(queue))
    ensures Bfs(queue) != [] ==> queue != [] && Bfs(queue)[0] == queue[0]
    decreases QueueSize(queue)
  {
    if queue != [] {
      var next := queue[1..] + Spread(queue[0]);
      NextQueue(queue);
      SpreadShrinks(queue[0], queue[1..]);
      BfsByLevel(next);
      FirstBelow(queue[0], Bfs(next));
    }
  }

  lemma {:induction false} FirstBelow(l: Located, ls: seq<Located>)
    requires LevelByLevel(ls) && (ls != [] ==> |l.up| <= |ls[0].up|)
    ensures LevelByLevel([l] + ls)
  {
  }

  lemma {:induction false} FilterByLevel(ls: seq<Located>, p: Node -> bool)
    requires LevelByLevel(ls)
    ensures LevelByLevel(Filter(ls, p))
    decreases |ls|
  {
    if ls != [] {
      FilterByLevel(ls[1..], p);
      assert forall l :: l in ls[1..] ==> |ls[0].up| <= |l.up|;
      if p(ls[0].node) {
        FirstBelow(ls[0], Filter(ls[1..], p));
      }
    }
  }

  /** A search yields the nodes level by level. */
  lemma {:induction false} FoundByLevel(root: Node, p: Node -> bool)
    ensures LevelByLevel(FindAll(root, p))
  {
    BfsByLevel([Root(root)]);
    FilterByLevel(Bfs([Root(root)]), p);
  }

  // ---------------------------------------------------------------- ancestors

  /** `node.find_ancestor(Select)`: the nearest enclosing SELECT. */
  function NearestSelect(up: seq<Tag>): Option<nat> {
    if up == [] then None
    else if up[0].SelectTag? then Some(up[0].id)
    else NearestSelect(up[1..])
  }

  predicate UnderCount(up: seq<Tag>) {
    up != [] && (up[0].CountTag? || UnderCount(up[1..]))
  }

  /** `sel` is the nearest SELECT above. */
  ghost predicate Owner(up: seq<Tag>, sel: nat) {
    exists k :: 0 <= k < |up| && up[k] == SelectTag(sel) && forall j :: 0 <= j < k ==> !up[j].SelectTag?
  }

  lemma {:induction false} OwnerExactly(up: seq<Tag>, sel: nat)
    ensures NearestSelect(up) == Some(sel) <==> Owner(up, sel)
    decreases |up|
  {
    if up != [] {
      OwnerExactly(up[1..], sel);
      assert forall j :: 0 < j < |up| ==> up[j] == up[1..][j - 1];
      if !up[0].SelectTag? {
        OwnerLater(up, sel);
      } else if Owner(up, sel) {
        assert up[0] == SelectTag(sel);
      } else {
        assert up[0] != SelectTag(sel);
      }
    }
  }

  lemma {:induction false} OwnerLater(up: seq<Tag>, sel: nat)
    requires up != [] && !up[0].SelectTag?
    ensures Owner(up, sel) <==> Owner(up[1..], sel)
  {
    if k :| 0 <= k < |up| && up[k] == SelectTag(sel) && forall j :: 0 <= j < k ==> !up[j].SelectTag? {
      assert up[1..][k - 1] == up[k];
      assert forall j :: 0 <= j < k - 1 ==> up[1..][j] == up[j + 1];
    }
    if k :| 0 <= k < |up[1..]| && up[1..][k] == SelectTag(sel) && forall j :: 0 <= j < k ==> !up[1..][j].SelectTag? {
      assert up[k + 1] == up[1..][k];
      assert forall j :: 0 < j < k + 1 ==> up[j] == up[1..][j - 1];
    }
  }

  /** The position is somewhere below a COUNT. */
  predicate Counted(up: seq<Tag>) {
    exists k :: 0 <= k < |up| && up[k].CountTag?
  }

  lemma {:induction false} CountedExactly(up: seq<Tag>)
    ensures UnderCount(up) <==> Counted(up)
    decreases |up|
  {
    if up != [] {
      CountedExactly(up[1..]);
      assert forall j :: 0 < j < |up| ==> up[j] == up[1..][j - 1];
      if k :| 0 <= k < |up[1..]| && up[1..][k].CountTag? {
        assert up[k + 1].CountTag?;
      }
    }
  }

  // ---------------------------------------------------------------- small trees

  lemma {:induction false} LeafWalk(l: Located)
    requires Kids(l.node) == []
    ensures Walk(l) == [l]
  {
    assert Walk(l) == [l] + WalkAll(l, []);
  }

  lemma {:induction false} ChainWalk(l: Located, k: Node)
    requires Kids(l.node) == [k] && Kids(k) == []
    ensures Walk(l) == [l, Below(k, l)]
  {
    KidsAreSubterms(l.node);
    LeafWalk(Below(k, l));
    assert [k][1..] == [];
    assert WalkAll(l, [k]) == Walk(Below(k, l)) + WalkAll(l, []);
  }

  lemma {:induction false} OneKidWalk(l: Located, k: Node)
    requires Kids(l.node) == [k]
    ensures Walk(l) == [l] + Walk(Below(k, l))
  {
    KidsAreSubterms(l.node);
    assert [k][1..] == [];
    assert WalkAll(l, [k]) == Walk(Below(k, l)) + WalkAll(l, []);
  }

  lemma {:induction false} TwoKidsWalk(l: Located, a: Node, b: Node)
    requires Kids(l.node) == [a, b]
    ensures Walk(l) == [l] + (Walk(Below(a, l)) + Walk(Below(b, l)))
  {
    KidsAreSubterms(l.node);
    assert [a, b][1..] == [b] && [b][1..] == [];
    assert WalkAll(l, [b]) == Walk(Below(b, l)) + WalkAll(l, []);
    assert WalkAll(l, [a, b]) == Walk(Below(a, l)) + WalkAll(l, [b]);
  }

  /** Node identity: an id names one occurrence, and a table node occurs once. */
  ghost predicate UniqueIds(root: Node) {
    && (forall a :: Inside(a, root) && a.node.Table? ==> multiset(Walk(Root(root)))[a] == 1)
    && (forall a, b ::
          Inside(a, root) && Inside(b, root) && a.node.Table? && b.node.Table? && a.node.id == b.node.id ==> a == b)
    && (forall a, b ::
          Inside(a, root) && Inside(b, root) && a.node.Select? && b.node.Select? && a.node.id == b.node.id ==> a == b)
  }
}
