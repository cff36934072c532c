/** The exact verdict of `_const_eval` and `check_tautology`, spelled out on the predicate. */
module TautologyVerdict {
  import opened Syntax
  import opened SqlValues
  import opened Traversal
  import opened Policy
  import opened Tautology

  // ---------------------------------------------------------------- operands

  /** `n` is `e` within any number of parentheses. */
  predicate Wraps(n: Node, e: Node)
    decreases n
  {
    n == e || (n.Paren? && Wraps(n.arg, e))
  }

  /** `e` is what the parentheses of `n` enclose. */
  predicate Core(n: Node, e: Node) {
    Wraps(n, e) && !e.Paren?
  }

  lemma {:induction false} PeelExactly(n: Node, e: Node)
    ensures Core(n, e) <==> e == Peel(n)
    decreases n
  {
    if n.Paren? {
      PeelExactly(n.arg, e);
    }
  }

  /** `e` is the literal of this value. */
  predicate LiteralOf(e: Node, v: Value) {
    match e
    case Boolean(b) => v == VBool(b)
    case Number(x, _) => v == VNum(x)
    case Text(s) => v == VStr(s)
    case _ => false
  }

  /** `n` is a literal of value `v`, within parentheses or not. */
  ghost predicate Denotes(n: Node, v: Value) {
    exists e :: Core(n, e) && LiteralOf(e, v)
  }

  lemma {:induction false} DenotesExactly(n: Node, v: Value)
    ensures Denotes(n, v) <==> Literal(n) == Some(v)
  {
    PeelExactly(n, Peel(n));
    forall e
      ensures Core(n, e) <==> e == Peel(n)
    {
      PeelExactly(n, e);
    }
  }

  /** Both are the same column, within parentheses or not. */
  ghost predicate OneColumn(a: Node, b: Node) {
    exists e :: Core(a, e) && Core(b, e) && (e.Column? || e.StarColumn?)
  }

  lemma {:induction false} OneColumnExactly(a: Node, b: Node)
    ensures OneColumn(a, b) <==> SameOperand(a, b)
  {
    PeelExactly(a, Peel(a));
    PeelExactly(b, Peel(b));
    forall e
      ensures Core(a, e) <==> e == Peel(a)
      ensures Core(b, e) <==> e == Peel(b)
    {
      PeelExactly(a, e);
      PeelExactly(b, e);
    }
  }

  /** `n` is `x IS NULL`, or `x IS NOT NULL` as the flag of the test. */
  ghost predicate FlagTest(n: Node, x: Node, negated: bool) {
    exists e :: Core(n, e) && e.Is? && e.expression.Null? && e.arg == x && e.negate == negated
  }

  /** `n` tests `x` for NULL, or negated: by the flag of the test or by a NOT over it. */
  ghost predicate TestsNull(n: Node, x: Node, negated: bool) {
    FlagTest(n, x, negated) || exists e :: Core(n, e) && e.Not? && FlagTest(e.arg, x, !negated)
  }

  lemma {:induction false} FlagTestExactly(n: Node, x: Node, negated: bool)
    ensures FlagTest(n, x, negated)
      <==> Peel(n).Is? && Peel(n).expression.Null? && Peel(n).arg == x && Peel(n).negate == negated
  {
    PeelExactly(n, Peel(n));
    if e :| Core(n, e) && e.Is? && e.expression.Null? && e.arg == x && e.negate == negated {
      PeelExactly(n, e);
    }
  }

  lemma {:induction false} TestsNullExactly(n: Node, x: Node, negated: bool)
    ensures TestsNull(n, x, negated) <==> NullTest(n) == Some((x, negated))
  {
    FlagTestExactly(n, x, negated);
    PeelExactly(n, Peel(n));
    if Peel(n).Not? {
      FlagTestExactly(Peel(n).arg, x, !negated);
    }
    if e :| Core(n, e) && e.Not? && FlagTest(e.arg, x, !negated) {
      PeelExactly(n, e);
    }
  }

  /** One operand is checked for NULL on the left and for NOT NULL on the right, or the other way round. */
  ghost predicate NullOrNot(l: Node, r: Node) {
    || (exists x :: TestsNull(l, x, false) && TestsNull(r, x, true))
    || (exists x :: TestsNull(l, x, true) && TestsNull(r, x, false))
  }

  lemma {:induction false} ComplementOf(l: Node, r: Node, x: Node, negated: bool)
    ensures TestsNull(l, x, negated) && TestsNull(r, x, !negated)
      <==> NullTest(l) == Some((x, negated)) && NullTest(r) == Some((x, !negated))
  {
    TestsNullExactly(l, x, negated);
    TestsNullExactly(r, x, !negated);
  }

  lemma {:induction false} NullOrNotExactly(l: Node, r: Node)
    ensures NullOrNot(l, r) <==> NullComplement(l, r)
  {
    forall x
      ensures TestsNull(l, x, false) && TestsNull(r, x, true)
        <==> NullTest(l) == Some((x, false)) && NullTest(r) == Some((x, true))
      ensures TestsNull(l, x, true) && TestsNull(r, x, false)
        <==> NullTest(l) == Some((x, true)) && NullTest(r) == Some((x, false))
    {
      ComplementOf(l, r, x, false);
      ComplementOf(l, r, x, true);
    }
    ComplementPolarity(NullTest(l), NullTest(r));
  }

  lemma {:induction false} ComplementPolarity(a: Option<(Node, bool)>, b: Option<(Node, bool)>)
    ensures Complementary(a, b) <==>
      || (exists x :: a == Some((x, false)) && b == Some((x, true)))
      || (exists x :: a == Some((x, true)) && b == Some((x, false)))
  {
    if Complementary(a, b) {
      var x := a.value.0;
      assert a == Some((x, a.value.1)) && b == Some((x, b.value.1));
    }
  }

  // ---------------------------------------------------------------- leaves

  /** `s` comes before `t`: it is a proper prefix, or smaller at the first difference. */
  ghost predicate Precedes(s: string, t: string) {
    exists k :: 0 <= k <= |s| && k < |t| && s[..k] == t[..k] && (k == |s| || s[k] < t[k])
  }

  lemma {:induction false} PrecedesExactly(s: string, t: string)
    ensures Precedes(s, t) <==> StrLess(s, t)
    decreases |s|
  {
    if s != "" && t != "" {
      PrecedesExactly(s[1..], t[1..]);
      PrecedesStep(s, t);
    } else if t != "" {
      assert s[..0] == t[..0];
    }
  }

  lemma {:induction false} PrecedesTail(s: string, t: string, k: nat)
    requires 0 < k <= |s| && k < |t| && s[..k] == t[..k] && (k == |s| || s[k] < t[k])
    ensures s[0] == t[0] && Precedes(s[1..], t[1..])
  {
    assert s[..k][0] == t[..k][0];
    assert s[1..][..k - 1] == s[..k][1..] && t[1..][..k - 1] == t[..k][1..];
  }

  lemma {:induction false} PrecedesLonger(s: string, t: string)
    requires s != "" && t != "" && s[0] == t[0] && Precedes(s[1..], t[1..])
    ensures Precedes(s, t)
  {
    var s1, t1 := s[1..], t[1..];
    var k :| 0 <= k <= |s1| && k < |t1| && s1[..k] == t1[..k] && (k == |s1| || s1[k] < t1[k]);
    assert s[..k + 1] == [s[0]] + s1[..k] && t[..k + 1] == [t[0]] + t1[..k];
  }

  lemma {:induction false} PrecedesStep(s: string, t: string)
    requires s != "" && t != ""
    ensures Precedes(s, t) <==> s[0] < t[0] || (s[0] == t[0] && Precedes(s[1..], t[1..]))
  {
    if k :| 0 < k <= |s| && k < |t| && s[..k] == t[..k] && (k == |s| || s[k] < t[k]) {
      PrecedesTail(s, t, k);
    }
    if s[0] == t[0] && Precedes(s[1..], t[1..]) {
      PrecedesLonger(s, t);
    }
    if s[0] < t[0] {
      assert s[..0] == t[..0];
    }
  }

  /** Literals of one kind in their order; of two kinds, unordered. */
  ghost predicate Smaller(v: Value, w: Value) {
    || (v.VNum? && w.VNum? && v.n < w.n)
    || (v.VStr? && w.VStr? && Precedes(v.s, w.s))
    || (v.VBool? && w.VBool? && !v.b && w.b)
  }

  predicate Alike(v: Value, w: Value) {
    (v.VNum? && w.VNum?) || (v.VStr? && w.VStr?) || (v.VBool? && w.VBool?)
  }

  /** What the comparison of two literal values comes to; an ordering needs values of one kind. */
  ghost predicate Answers(op: CmpOp, v: Value, w: Value, b: bool) {
    match op
    case Eq => b == (v == w)
    case Neq => b == (v != w)
    case Lt => Alike(v, w) && b == Smaller(v, w)
    case Gt => Alike(v, w) && b == Smaller(w, v)
    case Lte => Alike(v, w) && b == (v == w || Smaller(v, w))
    case Gte => Alike(v, w) && b == (v == w || Smaller(w, v))
  }

  predicate Plain(v: Value) {
    v.VNum? || v.VStr? || v.VBool?
  }

  lemma {:induction false} AnswersExactly(op: CmpOp, v: Value, w: Value, b: bool)
    requires Plain(v) && Plain(w)
    ensures Answers(op, v, w, b) <==> CompareLiterals(op, v, w) == Some(b)
  {
    if v.VStr? && w.VStr? {
      PrecedesExactly(v.s, w.s);
      PrecedesExactly(w.s, v.s);
    }
  }

  /** A comparison folds to `b`: of one column with itself, or of two literals. */
  ghost predicate CmpFolds(op: CmpOp, l: Node, r: Node, b: bool) {
    || (OneColumn(l, r) && b == (op.Eq? || op.Gte? || op.Lte?))
    || exists v, w :: Denotes(l, v) && Denotes(r, w) && Answers(op, v, w, b)
  }

  lemma {:induction false} ColumnIsNoLiteral(a: Node, b: Node)
    requires SameOperand(a, b)
    ensures Literal(a).None?
  {
  }

  lemma {:induction false} LiteralsAnswer(op: CmpOp, l: Node, r: Node, b: bool)
    ensures (exists v, w :: Denotes(l, v) && Denotes(r, w) && Answers(op, v, w, b)) <==>
      Literal(l).Some? && Literal(r).Some? && CompareLiterals(op, Literal(l).value, Literal(r).value) == Some(b)
  {
    if v, w :| Denotes(l, v) && Denotes(r, w) && Answers(op, v, w, b) {
      DenotesExactly(l, v);
      DenotesExactly(r, w);
      AnswersExactly(op, v, w, b);
    }
    if Literal(l).Some? && Literal(r).Some? {
      DenotesExactly(l, Literal(l).value);
      DenotesExactly(r, Literal(r).value);
      AnswersExactly(op, Literal(l).value, Literal(r).value, b);
    }
  }

  lemma {:induction false} CmpFoldsExactly(op: CmpOp, l: Node, r: Node, depth: nat, b: bool)
    requires depth < 200
    ensures ConstEval(Cmp(op, l, r), depth) == Some(b) <==> CmpFolds(op, l, r, b)
  {
    LeafNeedsNoDepth(Cmp(op, l, r), depth);
    OneColumnExactly(l, r);
    LiteralsAnswer(op, l, r, b);
    if SameOperand(l, r) {
      ColumnIsNoLiteral(l, r);
    }
  }

  /** The list holds the literal or the column on its left. */
  ghost predicate ListHolds(e: Node, items: seq<Node>) {
    exists i :: 0 <= i < |items| && Agrees(e, items[i])
  }

  /** The same literal value or the same column. */
  ghost predicate Agrees(a: Node, b: Node) {
    OneColumn(a, b) || exists v :: Denotes(a, v) && Denotes(b, v)
  }

  lemma {:induction false} OneValueExactly(a: Node, b: Node)
    ensures (exists v :: Denotes(a, v) && Denotes(b, v)) <==> Literal(a).Some? && Literal(b) == Literal(a)
  {
    if v :| Denotes(a, v) && Denotes(b, v) {
      DenotesExactly(a, v);
      DenotesExactly(b, v);
    }
    if Literal(a).Some? && Literal(b) == Literal(a) {
      DenotesExactly(a, Literal(a).value);
      DenotesExactly(b, Literal(a).value);
    }
  }

  lemma {:induction false} AgreesExactly(a: Node, b: Node)
    ensures Agrees(a, b) <==> if Literal(a).Some? then Literal(b) == Literal(a) else SameOperand(a, b)
  {
    OneColumnExactly(a, b);
    OneValueExactly(a, b);
    if SameOperand(a, b) {
      ColumnIsNoLiteral(a, b);
    }
  }

  lemma {:induction false} ListHoldsExactly(e: Node, items: seq<Node>)
    ensures ListHolds(e, items) <==> InHit(e, items)
    decreases |items|
  {
    if items != [] {
      ListHoldsExactly(e, items[1..]);
      AgreesExactly(e, items[0]);
      if i :| 0 < i < |items| && Agrees(e, items[i]) {
        assert items[1..][i - 1] == items[i];
      }
      if i :| 0 <= i < |items[1..]| && Agrees(e, items[1..][i]) {
        assert items[i + 1] == items[1..][i];
      }
    }
  }

  lemma {:induction false} InFoldsExactly(e: Node, items: seq<Node>, query: Option<Node>, depth: nat, b: bool)
    requires depth < 200
    ensures ConstEval(In(e, items, query), depth) == Some(b) <==> b && query.None? && ListHolds(e, items)
  {
    LeafNeedsNoDepth(In(e, items, query), depth);
    ListHoldsExactly(e, items);
  }

  /** The pattern is all percent signs, or has no wildcard and is the text on its left, or both are one column. */
  ghost predicate LikeAlways(l: Node, r: Node) {
    || (exists s :: Denotes(r, VStr(s)) && s != "" && forall i :: 0 <= i < |s| ==> s[i] == '%')
    || (exists s ::
          Denotes(r, VStr(s)) && Denotes(l, VStr(s)) && forall i :: 0 <= i < |s| ==> s[i] != '%' && s[i] != '_')
    || OneColumn(l, r)
  }

  lemma {:induction false} LikeAlwaysExactly(l: Node, r: Node)
    ensures LikeAlways(l, r) <==> LikeHit(l, r)
  {
    OneColumnExactly(l, r);
    forall s
      ensures Denotes(l, VStr(s)) <==> Literal(l) == Some(VStr(s))
      ensures Denotes(r, VStr(s)) <==> Literal(r) == Some(VStr(s))
    {
      DenotesExactly(l, VStr(s));
      DenotesExactly(r, VStr(s));
    }
    if Literal(r).Some? && Literal(r).value.VStr? {
      var s := Literal(r).value.s;
      assert Denotes(r, VStr(s));
      assert NoWildcard(s) <==> forall i :: 0 <= i < |s| ==> s[i] != '%' && s[i] != '_';
    }
  }

  lemma {:induction false} LikeFoldsExactly(l: Node, r: Node, depth: nat, b: bool)
    requires depth < 200
    ensures ConstEval(Like(l, r), depth) == Some(b) <==> b && LikeAlways(l, r)
  {
    LeafNeedsNoDepth(Like(l, r), depth);
    LikeAlwaysExactly(l, r);
  }

  // ---------------------------------------------------------------- predicates

  /** `n` folds to `b`, its connectives nested less than `budget` deep. */
  ghost predicate Folds(n: Node, b: bool, budget: nat)
    decreases n
  {
    budget > 0 &&
    match n
    case Paren(e) => Folds(e, b, budget - 1)
    case Not(e) => Folds(e, !b, budget - 1)
    case And(l, r) =>
      if b then Folds(l, true, budget - 1) && Folds(r, true, budget - 1)
      else Folds(l, false, budget - 1) || Folds(r, false, budget - 1)
    case Or(l, r) =>
      if b then NullOrNot(l, r) || Folds(l, true, budget - 1) || Folds(r, true, budget - 1)
      else !NullOrNot(l, r) && Folds(l, false, budget - 1) && Folds(r, false, budget - 1)
    case Boolean(truth) => b == truth
    case Number(v, _) => b == (v != 0.0)
    case Cmp(op, l, r) => CmpFolds(op, l, r, b)
    case In(e, items, query) => b && query.None? && ListHolds(e, items)
    case Like(l, r) => b && LikeAlways(l, r)
    case _ => false
  }

  /** Below the depth cap of 200, a predicate folds to `b` exactly as spelled out; from there on it does not fold. */
  lemma {:induction false} FoldsExactly(n: Node, depth: nat, b: bool)
    ensures ConstEval(n, depth) == Some(b) <==> depth < 200 && Folds(n, b, 200 - depth)
    decreases n
  {
    if depth < 200 {
      if IsConnective(n) {
        ConnectiveFolds(n, depth, b);
      } else if n.Cmp? {
        CmpFoldsExactly(n.op, n.left, n.right, depth, b);
      } else if n.In? {
        InFoldsExactly(n.arg, n.items, n.query, depth, b);
      } else if n.Like? {
        LikeFoldsExactly(n.left, n.right, depth, b);
      }
    }
  }

  lemma {:induction false} ConnectiveFolds(n: Node, depth: nat, b: bool)
    requires IsConnective(n) && depth < 200
    ensures ConstEval(n, depth) == Some(b) <==> Folds(n, b, 200 - depth)
    decreases n, 0
  {
    if n.Paren? {
      FoldsExactly(n.arg, depth + 1, b);
    } else if n.Not? {
      FoldsExactly(n.arg, depth + 1, !b);
    } else {
      FoldsExactly(n.left, depth + 1, b);
      FoldsExactly(n.right, depth + 1, b);
      FoldsExactly(n.left, depth + 1, !b);
      FoldsExactly(n.right, depth + 1, !b);
      NullOrNotExactly(n.left, n.right);
    }
  }

  // ---------------------------------------------------------------- the check

  /** A predicate that filters rows: of a WHERE or HAVING clause, or the ON of a join that is not LATERAL. */
  ghost predicate Filters(stmt: Node, root: Node) {
    exists l :: Inside(l, stmt) && FilterOf(l.node, root)
  }

  predicate FilterOf(n: Node, root: Node) {
    || ((n.Where? || n.Having?) && n.arg == root)
    || (n.Join? && !n.arg.Lateral? && n.on == Some(root))
  }

  lemma {:induction false} FilterRootsMember(ls: seq<Located>, root: Node)
    ensures root in FilterRoots(ls) <==> exists l :: l in ls && (l.node.Where? || l.node.Having?) && l.node.arg == root
    decreases |ls|
  {
    if ls != [] {
      FilterRootsMember(ls[1..], root);
    }
  }

  lemma {:induction false} JoinRootsMember(ls: seq<Located>, root: Node)
    ensures root in JoinRoots(ls)
      <==> exists l :: l in ls && l.node.Join? && !l.node.arg.Lateral? && l.node.on == Some(root)
    decreases |ls|
  {
    if ls != [] {
      JoinRootsMember(ls[1..], root);
    }
  }

  lemma {:induction false} RootsExactly(stmt: Node, root: Node)
    ensures root in PredicateRoots(stmt) <==> Filters(stmt, root)
  {
    FilterRootsMember(FindAll(stmt, IsFilter), root);
    JoinRootsMember(FindAll(stmt, IsJoin), root);
    forall l
      ensures l in FindAll(stmt, IsFilter) <==> Inside(l, stmt) && IsFilter(l.node)
      ensures l in FindAll(stmt, IsJoin) <==> Inside(l, stmt) && IsJoin(l.node)
    {
      FoundIffInside(stmt, IsFilter, l);
      FoundIffInside(stmt, IsJoin, l);
    }
  }

  /** Folds to true, its connectives nested less than 200 deep. */
  ghost predicate FoldsTrue(n: Node) {
    Folds(n, true, 200)
  }

  lemma {:induction false} FoldsTrueExactly(n: Node)
    ensures IsConstTrue(n) <==> FoldsTrue(n)
  {
    FoldsExactly(n, 0, true);
  }

  /** An OR of which one side folds to true. */
  ghost predicate TrueSide(n: Node) {
    n.Or? && (FoldsTrue(n.left) || FoldsTrue(n.right))
  }

  lemma {:induction false} TrueSideExactly(n: Node)
    ensures OrHit(n) <==> TrueSide(n)
  {
    if n.Or? {
      FoldsTrueExactly(n.left);
      FoldsTrueExactly(n.right);
    }
  }

  /** The predicate folds to true, or one side of an OR in it does. */
  ghost predicate AlwaysTrue(root: Node) {
    FoldsTrue(root) || exists l :: Inside(l, root) && TrueSide(l.node)
  }

  lemma {:induction false} TrueSideFound(root: Node)
    ensures AnyOrHit(FindAll(root, IsOr)) <==> exists l :: Inside(l, root) && TrueSide(l.node)
  {
    var ors := FindAll(root, IsOr);
    AnyOrHitMember(ors);
    if l :| l in ors && OrHit(l.node) {
      FoundIffInside(root, IsOr, l);
      TrueSideExactly(l.node);
    }
    if l :| Inside(l, root) && TrueSide(l.node) {
      FoundIffInside(root, IsOr, l);
      TrueSideExactly(l.node);
    }
  }

  lemma {:induction false} AlwaysTrueExactly(root: Node)
    ensures RootHit(root) <==> AlwaysTrue(root)
  {
    FoldsTrueExactly(root);
    TrueSideFound(root);
  }

  /** The check reports exactly if it is on and some row filter is always true. */
  lemma {:induction false} TautologyReportedExactly(stmt: Node, policy: GuardPolicy)
    ensures CheckTautology(stmt, policy) != [] <==>
      policy.blockTautology && exists root :: Filters(stmt, root) && AlwaysTrue(root)
  {
    AnyRootHitMember(PredicateRoots(stmt));
    forall root
      ensures root in PredicateRoots(stmt) && RootHit(root) <==> Filters(stmt, root) && AlwaysTrue(root)
    {
      RootsExactly(stmt, root);
      AlwaysTrueExactly(root);
    }
  }

  lemma {:induction false} WhereFilters(stmt: Node, root: Node)
    requires stmt.Select? && stmt.where == Some(Where(root))
    ensures Filters(stmt, root)
  {
    RootInside(stmt);
    assert Where(root) in OptList(stmt.where);
    assert Where(root) in Kids(stmt);
    KidInside(Root(stmt), Where(root), stmt);
    assert FilterOf(Below(Where(root), Root(stmt)).node, root);
  }

  lemma {:induction false} PercentFolds(x: Node)
    ensures Folds(Like(x, Text("%")), true, 200)
  {
    assert Core(Text("%"), Text("%")) && LiteralOf(Text("%"), VStr("%"));
    assert Denotes(Text("%"), VStr("%"));
    assert LikeAlways(x, Text("%"));
  }

  /** `WHERE x LIKE '%'` is reported, whatever `x` is. */
  lemma {:induction false} PercentReported(stmt: Node, x: Node, policy: GuardPolicy)
    requires policy.blockTautology && stmt.Select? && stmt.where == Some(Where(Like(x, Text("%"))))
    ensures CheckTautology(stmt, policy) != []
  {
    var root := Like(x, Text("%"));
    WhereFilters(stmt, root);
    PercentFolds(x);
    assert Filters(stmt, root) && AlwaysTrue(root);
    TautologyReportedExactly(stmt, policy);
  }
}
