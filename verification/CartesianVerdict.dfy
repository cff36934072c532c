/** The exact verdict of `check_cartesian`, spelled out on the joins and predicates of a SELECT. */
module CartesianVerdict {
  import opened Syntax
  import opened Text
  import opened Policy
  import opened UnionFind
  import opened Cartesian
  import opened CartesianMeaning

  // ---------------------------------------------------------------- the product

  /** A comma or a CROSS JOIN: not LATERAL, no ON, no USING, and of kind CROSS or of no kind and side. */
  predicate Product(j: Node) {
    && j.Join? && !j.arg.Lateral? && j.on.None? && j.using == []
    && (Upper(j.joinKind) == "CROSS" || (j.joinKind == "" && j.joinSide == ""))
  }

  ghost predicate HasProduct(joins: seq<Node>) {
    exists i :: 0 <= i < |joins| && Product(joins[i])
  }

  lemma {:induction false} ProductExactly(joins: seq<Node>)
    ensures AnyCandidate(joins) <==> HasProduct(joins)
    decreases |joins|
  {
    if joins != [] {
      ProductExactly(joins[1..]);
      if joins[0].Join? {
        assert |Upper(joins[0].joinKind)| == |joins[0].joinKind| && |Upper(joins[0].joinSide)| == |joins[0].joinSide|;
      }
      assert Product(joins[0]) <==> IsCandidate(joins[0]);
      assert forall i :: 0 < i < |joins| ==> joins[i] == joins[1..][i - 1];
      if i :| 0 <= i < |joins[1..]| && Product(joins[1..][i]) {
        assert Product(joins[i + 1]);
      }
    }
  }

  // ---------------------------------------------------------------- relations and labels

  /** Position `k` of the FROM list holds a relation of the product: 0 is the first source, LATERAL stays out. */
  predicate Position(from: Option<Node>, joins: seq<Node>, k: nat) {
    || (k == 0 && from.Some? && from.value.From?)
    || (0 < k <= |joins| && joins[k - 1].Join? && !joins[k - 1].arg.Lateral?)
  }

  function SourceAt(from: Option<Node>, joins: seq<Node>, k: nat): Node
    requires Position(from, joins, k)
  {
    if k == 0 then from.value.arg else joins[k - 1].arg
  }

  /** `x` is the lower-cased alias or name of a relation. */
  ghost predicate IsLabel(from: Option<Node>, joins: seq<Node>, x: string) {
    x != "" && exists k: nat :: Position(from, joins, k) && Lower(AliasOrName(SourceAt(from, joins, k))) == x
  }

  ghost predicate TwoRelations(from: Option<Node>, joins: seq<Node>) {
    exists j: nat, k: nat :: j < k && Position(from, joins, j) && Position(from, joins, k)
  }

  lemma {:induction false} JoinRelationsMember(joins: seq<Node>, rel: Node)
    ensures rel in JoinRelations(joins)
      <==> exists k: nat :: k > 0 && Position(None, joins, k) && joins[k - 1].arg == rel
    decreases |joins|
  {
    if joins != [] {
      JoinRelationsMember(joins[1..], rel);
      LaterPositions(joins);
      if rel in JoinRelations(joins[1..]) {
        var k: nat :| k > 0 && Position(None, joins[1..], k) && joins[1..][k - 1].arg == rel;
        assert Position(None, joins, k + 1) && joins[k].arg == rel;
      } else if rel in JoinRelations(joins) {
        assert Position(None, joins, 1);
      }
      if k: nat :| k > 1 && Position(None, joins, k) && joins[k - 1].arg == rel {
        assert Position(None, joins[1..], k - 1) && joins[1..][k - 2].arg == rel;
      }
    }
  }

  lemma {:induction false} LaterPositions(joins: seq<Node>)
    requires joins != []
    ensures forall k: nat :: k > 0 ==> (Position(None, joins[1..], k) <==> Position(None, joins, k + 1))
    ensures forall k: nat :: 0 < k < |joins| ==> joins[1..][k - 1] == joins[k]
  {
  }

  lemma {:induction false} RelationsMember(from: Option<Node>, joins: seq<Node>, rel: Node)
    ensures rel in Relations(from, joins)
      <==> exists k: nat :: Position(from, joins, k) && SourceAt(from, joins, k) == rel
  {
    JoinRelationsMember(joins, rel);
    if rel in JoinRelations(joins) {
      var k: nat :| k > 0 && Position(None, joins, k) && joins[k - 1].arg == rel;
      assert Position(from, joins, k) && SourceAt(from, joins, k) == rel;
    } else if rel in Relations(from, joins) {
      assert Position(from, joins, 0) && SourceAt(from, joins, 0) == rel;
    }
    if k: nat :| Position(from, joins, k) && SourceAt(from, joins, k) == rel {
      if k > 0 {
        assert Position(None, joins, k);
      }
    }
  }

  lemma {:induction false} LabelsExactly(from: Option<Node>, joins: seq<Node>, x: string)
    ensures x in LabelsOf(Relations(from, joins)) <==> IsLabel(from, joins, x)
  {
    var rels := Relations(from, joins);
    LabelsOfMembers(rels, x);
    if i :| 0 <= i < |rels| && RelationLabel(rels[i]) == x {
      assert rels[i] in rels;
      RelationsMember(from, joins, rels[i]);
    }
    if k: nat :| Position(from, joins, k) && Lower(AliasOrName(SourceAt(from, joins, k))) == x {
      RelationsMember(from, joins, SourceAt(from, joins, k));
      var i :| 0 <= i < |rels| && rels[i] == SourceAt(from, joins, k);
      assert RelationLabel(rels[i]) == x;
    }
  }

  lemma {:induction false} SomeJoinRelation(joins: seq<Node>)
    ensures JoinRelations(joins) != [] <==> exists k: nat :: k > 0 && Position(None, joins, k)
  {
    var rels := JoinRelations(joins);
    if rels != [] {
      JoinRelationsMember(joins, rels[0]);
    }
    if k: nat :| k > 0 && Position(None, joins, k) {
      JoinRelationsMember(joins, joins[k - 1].arg);
    }
  }

  lemma {:induction false} TwoJoinRelations(joins: seq<Node>)
    ensures |JoinRelations(joins)| >= 2 <==>
      exists j: nat, k: nat :: 0 < j < k && Position(None, joins, j) && Position(None, joins, k)
    decreases |joins|
  {
    if joins != [] {
      var rest := joins[1..];
      TwoJoinRelations(rest);
      SomeJoinRelation(rest);
      LaterPositions(joins);
      if |JoinRelations(rest)| >= 2 {
        var j: nat, k: nat :| 0 < j < k && Position(None, rest, j) && Position(None, rest, k);
        assert Position(None, joins, j + 1) && Position(None, joins, k + 1);
      } else if |JoinRelations(joins)| >= 2 {
        var k: nat :| k > 0 && Position(None, rest, k);
        assert Position(None, joins, 1) && Position(None, joins, k + 1);
      }
      if j: nat, k: nat :| 0 < j < k && Position(None, joins, j) && Position(None, joins, k) {
        assert Position(None, rest, k - 1);
        if j > 1 {
          assert Position(None, rest, j - 1);
        }
      }
    }
  }

  lemma {:induction false} CountExactly(from: Option<Node>, joins: seq<Node>)
    ensures |Relations(from, joins)| >= 2 <==> TwoRelations(from, joins)
  {
    TwoJoinRelations(joins);
    SomeJoinRelation(joins);
    assert forall k: nat :: k > 0 ==> (Position(None, joins, k) <==> Position(from, joins, k));
    if |JoinRelations(joins)| >= 2 {
      var j: nat, k: nat :| 0 < j < k && Position(None, joins, j) && Position(None, joins, k);
      assert Position(from, joins, j) && Position(from, joins, k);
    } else if |Relations(from, joins)| >= 2 {
      var k: nat :| k > 0 && Position(None, joins, k);
      assert Position(from, joins, 0) && Position(from, joins, k);
    }
    if j: nat, k: nat :| j < k && Position(from, joins, j) && Position(from, joins, k) {
      assert Position(None, joins, k);
      if j > 0 {
        assert Position(None, joins, j);
      }
    }
  }

  // ---------------------------------------------------------------- links

  /** The nodes AND and parentheses join to the root, as the walk meets them: of an AND the right side first. */
  function Reached(p: Node): (r: seq<Node>)
    ensures r != []
  {
    match p
    case Paren(e) => [p] + Reached(e)
    case And(l, r) => [p] + (Reached(r) + Reached(l))
    case _ => [p]
  }

  function ReachedFrom(stack: seq<Node>): seq<Node> {
    if stack == [] then [] else Reached(stack[|stack| - 1]) + ReachedFrom(stack[..|stack| - 1])
  }

  function Equalities(ns: seq<Node>): (r: seq<Node>)
    ensures forall q :: q in r <==> q in ns && q.Cmp? && q.op.Eq?
  {
    if ns == [] then [] else (if ns[0].Cmp? && ns[0].op.Eq? then [ns[0]] else []) + Equalities(ns[1..])
  }

  /** The first `budget` elements. */
  function Front(ns: seq<Node>, budget: nat): seq<Node> {
    if budget < |ns| then ns[..budget] else ns
  }

  lemma {:induction false} FrontNext(n: Node, rest: seq<Node>, budget: nat)
    requires budget > 0
    ensures Equalities(Front([n] + rest, budget))
        == (if n.Cmp? && n.op.Eq? then [n] else []) + Equalities(Front(rest, budget - 1))
  {
    assert Front([n] + rest, budget) == [n] + Front(rest, budget - 1);
    assert ([n] + Front(rest, budget - 1))[1..] == Front(rest, budget - 1);
  }

  lemma {:induction false} ReachedPush(stack: seq<Node>, n: Node)
    ensures ReachedFrom(stack + [n]) == Reached(n) + ReachedFrom(stack)
  {
    assert (stack + [n])[..|stack|] == stack;
  }

  lemma {:induction false} Regroup(n: Node, a: seq<Node>, b: seq<Node>, c: seq<Node>)
    ensures ([n] + (a + b)) + c == [n] + (a + (b + c))
    ensures ([n] + a) + c == [n] + (a + c)
  {
  }

  lemma {:induction false} ReachedParen(rest: seq<Node>, n: Node)
    requires n.Paren?
    ensures ReachedFrom(rest + [n]) == [n] + ReachedFrom(rest + [n.arg])
  {
    ReachedPush(rest, n);
    ReachedPush(rest, n.arg);
    Regroup(n, Reached(n.arg), [], ReachedFrom(rest));
  }

  lemma {:induction false} ReachedAnd(rest: seq<Node>, n: Node)
    requires n.And?
    ensures ReachedFrom(rest + [n]) == [n] + ReachedFrom(rest + [n.left, n.right])
  {
    ReachedPush(rest, n);
    ReachedPush(rest, n.left);
    ReachedPush(rest + [n.left], n.right);
    assert rest + [n.left] + [n.right] == rest + [n.left, n.right];
    Regroup(n, Reached(n.right), Reached(n.left), ReachedFrom(rest));
  }

  /** What is left to visit after `n`. */
  function After(rest: seq<Node>, n: Node): seq<Node> {
    if n.Paren? then rest + [n.arg] else if n.And? then rest + [n.left, n.right] else rest
  }

  lemma {:induction false} ReachedTop(rest: seq<Node>, n: Node)
    ensures ReachedFrom(rest + [n]) == [n] + ReachedFrom(After(rest, n))
  {
    if n.Paren? {
      ReachedParen(rest, n);
    } else if n.And? {
      ReachedAnd(rest, n);
    } else {
      ReachedPush(rest, n);
    }
  }

  lemma {:induction false} WalkTop(rest: seq<Node>, n: Node, budget: nat)
    requires budget > 0
    ensures Worklist(rest + [n], budget)
        == (if n.Cmp? && n.op.Eq? then [n] else []) + Worklist(After(rest, n), budget - 1)
  {
    WorklistTop(rest, n, budget);
  }

  /** The walk yields the equalities among the first nodes reached, as many as its budget allows. */
  lemma {:induction false} WalkExactly(stack: seq<Node>, budget: nat)
    ensures Worklist(stack, budget) == Equalities(Front(ReachedFrom(stack), budget))
    decreases budget
  {
    if stack == [] || budget == 0 {
      assert Front(ReachedFrom(stack), budget) == [];
    } else {
      var n, rest := stack[|stack| - 1], stack[..|stack| - 1];
      WalkExactly(After(rest, n), budget - 1);
      WalkStep(rest, n, budget);
      assert stack == rest + [n];
    }
  }

  lemma {:induction false} WalkStep(rest: seq<Node>, n: Node, budget: nat)
    requires budget > 0
    requires Worklist(After(rest, n), budget - 1) == Equalities(Front(ReachedFrom(After(rest, n)), budget - 1))
    ensures Worklist(rest + [n], budget) == Equalities(Front(ReachedFrom(rest + [n]), budget))
  {
    WalkTop(rest, n, budget);
    ReachedTop(rest, n);
    FrontNext(n, ReachedFrom(After(rest, n)), budget);
  }

  /** `q` is an equality that AND and parentheses join to the root, among the first 10000 nodes reached. */
  ghost predicate Anded(q: Node, p: Node) {
    q.Cmp? && q.op.Eq? && exists i :: 0 <= i < 10000 && i < |Reached(p)| && Reached(p)[i] == q
  }

  lemma {:induction false} AndedExactly(q: Node, p: Node)
    ensures q in Worklist([p], NODE_BUDGET) <==> Anded(q, p)
  {
    WalkExactly([p], NODE_BUDGET);
    ReachedPush([], p);
    assert [] + [p] == [p] && Reached(p) + [] == Reached(p);
    FrontMember(Reached(p), 10000, q);
  }

  lemma {:induction false} FrontMember(ns: seq<Node>, budget: nat, q: Node)
    ensures q in Front(ns, budget) <==> exists i :: 0 <= i < budget && i < |ns| && ns[i] == q
  {
  }

  /** `q` compares a column qualified by `a` with a column qualified by another `b`, case folded. */
  predicate Compares(q: Node, a: string, b: string) {
    && q.Cmp? && IsColumn(q.left) && IsColumn(q.right) && q.left.table != "" && q.right.table != ""
    && Lower(q.left.table) == a && Lower(q.right.table) == b && a != b
  }

  /** An AND-connected equality of the predicate compares `a` with `b`. */
  ghost predicate Equates(pred: Option<Node>, a: string, b: string) {
    pred.Some? && exists q :: Anded(q, pred.value) && Compares(q, a, b)
  }

  lemma {:induction false} EquatesExactly(pred: Option<Node>, a: string, b: string)
    ensures (a, b) in PredicateEdges(pred) <==> Equates(pred, a, b)
  {
    if pred.Some? {
      EdgesOfOrigin(Worklist([pred.value], NODE_BUDGET), (a, b));
      forall q
        ensures q in Worklist([pred.value], NODE_BUDGET) && EdgeOf(q) == Some((a, b))
          <==> Anded(q, pred.value) && Compares(q, a, b)
      {
        AndedExactly(q, pred.value);
      }
    }
  }

  /** The lower-cased alias or name of the first source. */
  function FirstLabel(from: Option<Node>): string {
    if from.Some? && from.value.From? then Lower(AliasOrName(from.value.arg)) else ""
  }

  /** Join `j` links `a` with `b`: by an equality of its ON, or by USING, which links it to the first source. */
  ghost predicate LinksBy(j: Node, first: string, a: string, b: string) {
    j.Join? && (Equates(j.on, a, b)
                || (j.using != [] && a != "" && b != "" && a == Lower(AliasOrName(j.arg)) && b == first))
  }

  lemma {:induction false} UsingExactly(using: seq<string>, l1: string, l2: string, a: string, b: string)
    ensures (a, b) in UsingEdges(using, l1, l2) <==> using != [] && l1 != "" && l2 != "" && a == l1 && b == l2
    decreases |using|
  {
    if using != [] {
      UsingExactly(using[1..], l1, l2, a, b);
    }
  }

  ghost predicate JoinsLink(joins: seq<Node>, first: string, a: string, b: string) {
    exists i :: 0 <= i < |joins| && LinksBy(joins[i], first, a, b)
  }

  lemma {:induction false} FirstJoinLinks(joins: seq<Node>, first: string, a: string, b: string)
    requires joins != []
    ensures JoinsLink(joins, first, a, b) <==>
      LinksBy(joins[0], first, a, b) || JoinsLink(joins[1..], first, a, b)
  {
    if i :| 0 <= i < |joins| && LinksBy(joins[i], first, a, b) {
      assert i > 0 ==> joins[1..][i - 1] == joins[i];
    }
    if i :| 0 <= i < |joins[1..]| && LinksBy(joins[1..][i], first, a, b) {
      assert joins[i + 1] == joins[1..][i];
    }
  }

  lemma {:induction false} JoinsLinkExactly(joins: seq<Node>, first: string, a: string, b: string)
    ensures (a, b) in JoinEdges(joins, first) <==> JoinsLink(joins, first, a, b)
    decreases |joins|
  {
    if joins != [] {
      JoinsLinkExactly(joins[1..], first, a, b);
      FirstJoinLinks(joins, first, a, b);
      var j := joins[0];
      if j.Join? {
        EquatesExactly(j.on, a, b);
        UsingExactly(j.using, RelationLabel(j.arg), first, a, b);
      }
    }
  }

  /** The WHERE predicate. */
  function Filter(where: Option<Node>): Option<Node> {
    if where.Some? && where.value.Where? then Some(where.value.arg) else None
  }

  /** Some join or the WHERE clause links the two names, in either order. */
  ghost predicate Linking(n: Node, a: string, b: string)
    requires n.Select?
  {
    || JoinsLink(n.joins, FirstLabel(n.from), a, b) || Equates(Filter(n.where), a, b)
    || JoinsLink(n.joins, FirstLabel(n.from), b, a) || Equates(Filter(n.where), b, a)
  }

  ghost predicate Chain(n: Node, p: seq<string>, x: string, y: string)
    requires n.Select?
  {
    p != [] && p[0] == x && p[|p| - 1] == y && forall i :: 0 <= i < |p| - 1 ==> Linking(n, p[i], p[i + 1])
  }

  /** A chain of links leads from `x` to `y`. */
  ghost predicate Connected(n: Node, x: string, y: string)
    requires n.Select?
  {
    exists p :: Chain(n, p, x, y)
  }

  lemma {:induction false} LinkingExactly(n: Node, a: string, b: string)
    requires n.Select?
    ensures Edge(SelectEdges(n.from, n.joins, n.where), a, b) <==> Linking(n, a, b)
  {
    JoinsLinkExactly(n.joins, FirstLabel(n.from), a, b);
    JoinsLinkExactly(n.joins, FirstLabel(n.from), b, a);
    EquatesExactly(Filter(n.where), a, b);
    EquatesExactly(Filter(n.where), b, a);
  }

  lemma {:induction false} ConnectedExactly(n: Node, x: string, y: string)
    requires n.Select?
    ensures Linked(SelectEdges(n.from, n.joins, n.where), x, y) <==> Connected(n, x, y)
  {
    var edges := SelectEdges(n.from, n.joins, n.where);
    forall p: seq<string>
      ensures IsPath(p, edges, x, y) <==> Chain(n, p, x, y)
    {
      PathExactly(n, p, x, y);
    }
  }

  lemma {:induction false} PathExactly(n: Node, p: seq<string>, x: string, y: string)
    requires n.Select?
    ensures IsPath(p, SelectEdges(n.from, n.joins, n.where), x, y) <==> Chain(n, p, x, y)
  {
    var edges := SelectEdges(n.from, n.joins, n.where);
    forall i | 0 <= i < |p| - 1
      ensures Step(p, edges, i) <==> Linking(n, p[i], p[i + 1])
    {
      LinkingExactly(n, p[i], p[i + 1]);
    }
  }

  // ---------------------------------------------------------------- the verdict

  /** Two labels no chain of links connects; without two labels, two relations. */
  ghost predicate Loose(n: Node)
    requires n.Select?
  {
    if exists x, y :: IsLabel(n.from, n.joins, x) && IsLabel(n.from, n.joins, y) && x != y then
      exists x, y :: IsLabel(n.from, n.joins, x) && IsLabel(n.from, n.joins, y) && !Connected(n, x, y)
    else TwoRelations(n.from, n.joins)
  }

  lemma {:induction false} TwoLabels(labels: set<string>)
    ensures |labels| >= 2 <==> exists x, y :: x in labels && y in labels && x != y
  {
    if x, y :| x in labels && y in labels && x != y {
      assert {x, y} <= labels;
      assert labels == {x, y} + (labels - {x, y});
    } else if labels != {} {
      var x :| x in labels;
      assert labels == {x};
    }
  }

  /** A SELECT is reported exactly if it has a comma or CROSS JOIN and its relations hang loose. */
  lemma {:induction false} FlaggedSpelled(n: Node)
    requires n.Select?
    ensures FlaggedSelect(n) <==> HasProduct(n.joins) && Loose(n)
  {
    ProductExactly(n.joins);
    CountExactly(n.from, n.joins);
    var labels := LabelsOf(Relations(n.from, n.joins));
    var edges := SelectEdges(n.from, n.joins, n.where);
    forall x
      ensures x in labels <==> IsLabel(n.from, n.joins, x)
    {
      LabelsExactly(n.from, n.joins, x);
    }
    TwoLabels(labels);
    OneComponent(edges, labels);
    forall x, y
      ensures Linked(edges, x, y) <==> Connected(n, x, y)
    {
      ConnectedExactly(n, x, y);
    }
  }

  /** The SELECTs that are looked at: the statement, an operand of its set operation, or the one it wraps. */
  predicate Looked(stmt: Node, n: Node) {
    n.Select? && (|| n == stmt
                  || (stmt.SetOp? && (n == stmt.left || n == stmt.right))
                  || (stmt.Subquery? && n == stmt.arg))
  }

  lemma {:induction false} LookedExactly(stmt: Node, n: Node)
    ensures n in TopSelects(stmt) <==> Looked(stmt, n)
  {
  }

  lemma {:induction false} SomeFlagged(selects: seq<Node>)
    ensures CartesianOf(selects) != [] <==> exists n :: n in selects && FlaggedSelect(n)
    decreases |selects|
  {
    if selects != [] {
      SomeFlagged(selects[1..]);
      assert forall n :: n in selects <==> n == selects[0] || n in selects[1..];
    }
  }

  /** The check reports exactly if it is on and some SELECT it looks at has a product with loose relations. */
  lemma {:induction false} CartesianReportedExactly(stmt: Node, policy: GuardPolicy)
    ensures CheckCartesian(stmt, policy) != [] <==>
      policy.blockCartesian && exists n :: Looked(stmt, n) && HasProduct(n.joins) && Loose(n)
  {
    SomeFlagged(TopSelects(stmt));
    forall n
      ensures n in TopSelects(stmt) && FlaggedSelect(n) <==> Looked(stmt, n) && HasProduct(n.joins) && Loose(n)
    {
      LookedExactly(stmt, n);
      if Looked(stmt, n) {
        FlaggedSpelled(n);
      }
    }
  }

  /** Over plain joins: reported exactly if some join is a product and two relations are apart. */
  lemma {:induction false} PlainFlaggedSpelled(n: Node)
    requires PlainSelect(n)
    ensures Flagged(n.from, n.joins, n.where) <==> HasProduct(n.joins) && Apart(n)
  {
    FlaggedExactly(n);
    ProductExactly(n.joins);
  }

  lemma {:induction false} NothingConnected(n: Node, x: string, y: string)
    requires n.Select? && n.where.None? && x != y
    requires forall i :: 0 <= i < |n.joins| && n.joins[i].Join? ==> n.joins[i].on.None? && n.joins[i].using == []
    ensures !Connected(n, x, y)
  {
    forall p: seq<string>
      ensures !Chain(n, p, x, y)
    {
      assert |p| > 1 ==> !Linking(n, p[0], p[1]);
    }
  }

  /** `FROM a, b` without a WHERE clause is a product of two relations nothing links. */
  lemma {:induction false} CommaReported(stmt: Node, a: Node, b: Node, policy: GuardPolicy)
    requires policy.blockCartesian && stmt.Select? && stmt.from == Some(From(a)) && stmt.where.None? && !b.Lateral?
    requires stmt.joins == [Join(b, "", "", "", None, [])]
    requires AliasOrName(a) != "" && AliasOrName(b) != "" && Lower(AliasOrName(a)) != Lower(AliasOrName(b))
    ensures CheckCartesian(stmt, policy) != []
  {
    var x, y := Lower(AliasOrName(a)), Lower(AliasOrName(b));
    assert Product(stmt.joins[0]);
    assert Position(stmt.from, stmt.joins, 0) && Position(stmt.from, stmt.joins, 1);
    assert SourceAt(stmt.from, stmt.joins, 0) == a && SourceAt(stmt.from, stmt.joins, 1) == b;
    assert IsLabel(stmt.from, stmt.joins, x) && IsLabel(stmt.from, stmt.joins, y);
    NothingConnected(stmt, x, y);
    assert Loose(stmt);
    assert Looked(stmt, stmt);
    CartesianReportedExactly(stmt, policy);
  }
}
