/** Constant-true predicates: the folder `_const_eval` and `check_tautology`. */
module Tautology {
  import opened Sequences
  import opened Syntax
  import opened SqlValues
  import opened Traversal
  import opened Semantics
  import opened Policy

  const TAUTOLOGY := Violation("tautology", Medium, BlockIt)

  const MAX_CONST_DEPTH: nat := 200

  // ---------------------------------------------------------------- operands

  /** An expression without its outer parentheses. */
  function Peel(n: Node): Node {
    if n.Paren? then Peel(n.arg) else n
  }

  method PeelParens(n: Node) returns (r: Node)
    ensures r == Peel(n)
  {
    r := n;
    while r.Paren?
      invariant Peel(r) == Peel(n)
      decreases r
    {
      r := r.arg;
    }
  }

  /** `_lit`: the value of a literal. */
  function Literal(n: Node): Option<Value> {
    match Peel(n)
    case Boolean(b) => Some(VBool(b))
    case Number(v, _) => Some(VNum(v))
    case Text(s) => Some(VStr(s))
    case _ => None
  }

  method Lit(n: Node) returns (v: Option<Value>)
    ensures v == Literal(n)
  {
    var e := PeelParens(n);
    v := if e.Boolean? then Some(VBool(e.truth)) else if e.Number? then Some(VNum(e.value))
        else if e.Text? then Some(VStr(e.text)) else None;
  }

  /** `_same_operand`: the same column twice. */
  predicate SameOperand(a: Node, b: Node) {
    IsColumn(Peel(a)) && IsColumn(Peel(b)) && Peel(a) == Peel(b)
  }

  method CompareOperands(a: Node, b: Node) returns (same: bool)
    ensures same == SameOperand(a, b)
  {
    var x := PeelParens(a);
    var y := PeelParens(b);
    same := IsColumn(x) && IsColumn(y) && x == y;
  }

  /** `_is_null_test`: the operand of `IS [NOT] NULL` and whether the test is negated. */
  function NullTest(n: Node): Option<(Node, bool)> {
    var e := Peel(n);
    var negated := e.Not?;
    var test := if e.Not? then Peel(e.arg) else e;
    if test.Is? && test.expression.Null? then Some((test.arg, negated != test.negate)) else None
  }

  method FindNullTest(n: Node) returns (r: Option<(Node, bool)>)
    ensures r == NullTest(n)
  {
    var e := PeelParens(n);
    var negated := false;
    if e.Not? {
      negated := true;
      e := PeelParens(e.arg);
    }
    r := if e.Is? && e.expression.Null? then Some((e.arg, negated != e.negate)) else None;
  }

  /** Two tests of one operand, of which one is negated. */
  predicate Complementary(a: Option<(Node, bool)>, b: Option<(Node, bool)>) {
    a.Some? && b.Some? && a.value.1 != b.value.1 && a.value.0 == b.value.0
  }

  /** `x IS NULL` against `x IS NOT NULL`. */
  predicate NullComplement(a: Node, b: Node) {
    Complementary(NullTest(a), NullTest(b))
  }

  // ---------------------------------------------------------------- the folder

  predicate SelfTrue(op: CmpOp) {
    op.Eq? || op.Gte? || op.Lte?
  }

  /** Does a membership test hold whatever the row: the left side occurs in the list. */
  predicate InHit(lhs: Node, items: seq<Node>) {
    items != [] &&
    ((if Literal(lhs).Some? then Literal(items[0]) == Literal(lhs) else SameOperand(lhs, items[0]))
        || InHit(lhs, items[1..]))
  }

  predicate NoWildcard(s: string) {
    '%' !in s && '_' !in s
  }

  predicate LikeHit(l: Node, r: Node) {
    || (Literal(r).Some? && Literal(r).value.VStr? &&
         var pattern := Literal(r).value.s;
         (AllPercent(pattern) && pattern != "") || (NoWildcard(pattern) && Literal(l) == Some(VStr(pattern))))
    || SameOperand(l, r)
  }

  /** Comparison of two literals; kinds that differ are unequal and unordered. */
  function CompareLiterals(op: CmpOp, a: Value, b: Value): Option<bool> {
    match Compare(op, a, b)
    case True => Some(true)
    case False => Some(false)
    case Unknown => None
  }

  /** The cases that do not recurse. */
  function FoldLeaf(n: Node): Option<bool> {
    match n
    case Boolean(b) => Some(b)
    case Number(v, _) => Some(v != 0.0)
    case Cmp(op, l, r) =>
      if SameOperand(l, r) then Some(SelfTrue(op))
      else if Literal(l).Some? && Literal(r).Some? then CompareLiterals(op, Literal(l).value, Literal(r).value)
      else None
    case In(e, items, query) => if query.None? && InHit(e, items) then Some(true) else None
    case Like(l, r) => if LikeHit(l, r) then Some(true) else None
    case _ => None
  }

  function FoldOr(a: Option<bool>, b: Option<bool>): Option<bool> {
    if a == Some(true) || b == Some(true) then Some(true)
    else if a == Some(false) && b == Some(false) then Some(false)
    else None
  }

  function FoldAnd(a: Option<bool>, b: Option<bool>): Option<bool> {
    if a == Some(false) || b == Some(false) then Some(false)
    else if a == Some(true) && b == Some(true) then Some(true)
    else None
  }

  function FoldNot(a: Option<bool>): Option<bool> {
    if a.Some? then Some(!a.value) else None
  }

  /** `_const_eval`. */
  function ConstEval(n: Node, depth: nat): Option<bool>
    decreases n
  {
    if depth >= MAX_CONST_DEPTH then None
    else
      match n
      case Paren(e) => ConstEval(e, depth + 1)
      case Not(e) => FoldNot(ConstEval(e, depth + 1))
      case Or(l, r) => if NullComplement(l, r) then Some(true)
          else FoldOr(ConstEval(l, depth + 1), ConstEval(r, depth + 1))
      case And(l, r) => FoldAnd(ConstEval(l, depth + 1), ConstEval(r, depth + 1))
      case _ => FoldLeaf(n)
  }

  /** The folder without its depth cap. */
  function ConstFold(n: Node): Option<bool> {
    match n
    case Paren(e) => ConstFold(e)
    case Not(e) => FoldNot(ConstFold(e))
    case Or(l, r) => if NullComplement(l, r) then Some(true) else FoldOr(ConstFold(l), ConstFold(r))
    case And(l, r) => FoldAnd(ConstFold(l), ConstFold(r))
    case _ => FoldLeaf(n)
  }

  predicate IsConstTrue(n: Node) {
    ConstEval(n, 0) == Some(true)
  }

  /** The loop over an IN list. */
  method FindInHit(lhs: Node, items: seq<Node>) returns (hit: bool)
    ensures hit == InHit(lhs, items)
  {
    var lhsLit := Lit(lhs);
    var i := 0;
    while i < |items|
      invariant 0 <= i <= |items|
      invariant InHit(lhs, items[i..]) == InHit(lhs, items)
    {
      assert items[i..][0] == items[i] && items[i..][1..] == items[i + 1..];
      var itemLit := Lit(items[i]);
      if lhsLit.Some? && itemLit == lhsLit {
        return true;
      }
      if lhsLit.None? {
        var same := CompareOperands(lhs, items[i]);
        if same {
          return true;
        }
      }
      i := i + 1;
    }
    return false;
  }

  /** `_is_null_complement`. */
  method CompareNullTests(a: Node, b: Node) returns (complement: bool)
    ensures complement == NullComplement(a, b)
  {
    var ta := FindNullTest(a);
    var tb := FindNullTest(b);
    complement := Complementary(ta, tb);
  }

  method EvalCmp(n: Node) returns (v: Option<bool>)
    requires n.Cmp?
    ensures v == FoldLeaf(n)
  {
    var same := CompareOperands(n.left, n.right);
    if same {
      return Some(SelfTrue(n.op));
    }
    var l := Lit(n.left);
    var r := Lit(n.right);
    v := if l.Some? && r.Some? then CompareLiterals(n.op, l.value, r.value) else None;
  }

  method EvalLike(n: Node) returns (v: Option<bool>)
    requires n.Like?
    ensures v == FoldLeaf(n)
  {
    var pattern := Lit(n.right);
    if pattern.Some? && pattern.value.VStr? {
      if AllPercent(pattern.value.s) && pattern.value.s != "" {
        return Some(true);
      }
      var left := Lit(n.left);
      if NoWildcard(pattern.value.s) && left == pattern {
        return Some(true);
      }
    }
    var same := CompareOperands(n.left, n.right);
    v := if same then Some(true) else None;
  }

  method EvalLeaf(n: Node) returns (v: Option<bool>)
    ensures v == FoldLeaf(n)
  {
    v := None;
    if n.Boolean? {
      v := Some(n.truth);
    } else if n.Number? {
      v := Some(n.value != 0.0);
    } else if n.Cmp? {
      v := EvalCmp(n);
    } else if n.In? && n.query.None? {
      var hit := FindInHit(n.arg, n.items);
      v := if hit then Some(true) else None;
    } else if n.Like? {
      v := EvalLike(n);
    }
  }

  /** `_const_eval`, as the code runs it. */
  method EvalConst(n: Node, depth: nat) returns (v: Option<bool>)
    ensures v == ConstEval(n, depth)
    decreases n
  {
    if depth >= MAX_CONST_DEPTH {
      return None;
    }
    if n.Paren? {
      v := EvalConst(n.arg, depth + 1);
    } else if n.Not? {
      var a := EvalConst(n.arg, depth + 1);
      v := FoldNot(a);
    } else if n.Or? || n.And? {
      if n.Or? {
        var complement := CompareNullTests(n.left, n.right);
        if complement {
          return Some(true);
        }
      }
      var a := EvalConst(n.left, depth + 1);
      var b := EvalConst(n.right, depth + 1);
      v := if n.Or? then FoldOr(a, b) else FoldAnd(a, b);
    } else {
      v := EvalLeaf(n);
    }
  }

  // ---------------------------------------------------------------- the check

  predicate IsFilter(n: Node) { n.Where? || n.Having? }

  predicate IsOr(n: Node) { n.Or? }

  function FilterRoots(ls: seq<Located>): seq<Node> {
    if ls == [] then []
    else (if ls[0].node.Where? || ls[0].node.Having? then [ls[0].node.arg] else []) + FilterRoots(ls[1..])
  }

  /** An ON clause, unless the join is LATERAL. */
  function JoinRoot(n: Node): seq<Node> {
    if n.Join? && !n.arg.Lateral? then OptList(n.on) else []
  }

  function JoinRoots(ls: seq<Located>): seq<Node> {
    if ls == [] then [] else JoinRoot(ls[0].node) + JoinRoots(ls[1..])
  }

  function PredicateRoots(stmt: Node): seq<Node> {
    FilterRoots(FindAll(stmt, IsFilter)) + JoinRoots(FindAll(stmt, IsJoin))
  }

  method CollectFilters(filters: seq<Located>) returns (roots: seq<Node>)
    ensures roots == FilterRoots(filters)
  {
    roots := [];
    var i := 0;
    while i < |filters|
      invariant 0 <= i <= |filters|
      invariant roots + FilterRoots(filters[i..]) == FilterRoots(filters)
    {
      assert filters[i..][0] == filters[i] && filters[i..][1..] == filters[i + 1..];
      if filters[i].node.Where? || filters[i].node.Having? {
        roots := roots + [filters[i].node.arg];
      }
      i := i + 1;
    }
  }

  method CollectOns(joins: seq<Located>) returns (roots: seq<Node>)
    ensures roots == JoinRoots(joins)
  {
    roots := [];
    var i := 0;
    while i < |joins|
      invariant 0 <= i <= |joins|
      invariant roots + JoinRoots(joins[i..]) == JoinRoots(joins)
    {
      assert joins[i..][0] == joins[i] && joins[i..][1..] == joins[i + 1..];
      var on := JoinRoot(joins[i].node);
      AppendNext(roots, on, JoinRoots(joins[i + 1..]));
      roots := roots + on;
      i := i + 1;
    }
  }

  /** `_predicate_roots`. */
  method CollectRoots(filters: seq<Located>, joins: seq<Located>) returns (roots: seq<Node>)
    ensures roots == FilterRoots(filters) + JoinRoots(joins)
  {
    roots := CollectFilters(filters);
    var ons := CollectOns(joins);
    roots := roots + ons;
  }

  /** An OR with a constant-true branch. */
  predicate OrHit(n: Node) {
    n.Or? && (IsConstTrue(n.left) || IsConstTrue(n.right))
  }

  predicate AnyOrHit(ls: seq<Located>) {
    ls != [] && (OrHit(ls[0].node) || AnyOrHit(ls[1..]))
  }

  predicate RootHit(root: Node) {
    IsConstTrue(root) || AnyOrHit(FindAll(root, IsOr))
  }

  predicate AnyRootHit(roots: seq<Node>) {
    roots != [] && (RootHit(roots[0]) || AnyRootHit(roots[1..]))
  }

  function CheckTautology(stmt: Node, policy: GuardPolicy): seq<Violation> {
    if policy.blockTautology && AnyRootHit(PredicateRoots(stmt)) then [TAUTOLOGY] else []
  }

  method JudgeOr(n: Node) returns (hit: bool)
    ensures hit == OrHit(n)
  {
    hit := false;
    if n.Or? {
      var l := EvalConst(n.left, 0);
      var r := EvalConst(n.right, 0);
      hit := l == Some(true) || r == Some(true);
    }
  }

  method JudgeRoot(root: Node, ors: seq<Located>) returns (hit: bool)
    requires ors == FindAll(root, IsOr)
    ensures hit == RootHit(root)
  {
    var v := EvalConst(root, 0);
    hit := v == Some(true);
    if !hit {
      var i := 0;
      while i < |ors|
        invariant 0 <= i <= |ors|
        invariant !hit && AnyOrHit(ors[i..]) == AnyOrHit(ors)
      {
        assert ors[i..][0] == ors[i] && ors[i..][1..] == ors[i + 1..];
        var found := JudgeOr(ors[i].node);
        if found {
          hit := true;
          break;
        }
        i := i + 1;
      }
    }
  }

  method RunCheckTautology(stmt: Node, policy: GuardPolicy) returns (violations: seq<Violation>)
    ensures violations == CheckTautology(stmt, policy)
  {
    violations := [];
    if !policy.blockTautology {
      return;
    }
    var roots := CollectRoots(FindAll(stmt, IsFilter), FindAll(stmt, IsJoin));
    var i := 0;
    while i < |roots|
      invariant 0 <= i <= |roots|
      invariant violations == [] && AnyRootHit(roots[i..]) == AnyRootHit(roots)
    {
      assert roots[i..][0] == roots[i] && roots[i..][1..] == roots[i + 1..];
      var hit := JudgeRoot(roots[i], FindAll(roots[i], IsOr));
      if hit {
        violations := [TAUTOLOGY];
        break;
      }
      i := i + 1;
    }
  }

  // ---------------------------------------------------------------- the depth cap

  predicate IsConnective(n: Node) {
    n.Paren? || n.Not? || n.Or? || n.And?
  }

  lemma {:induction false} LeafNeedsNoDepth(n: Node, depth: nat)
    requires !IsConnective(n) && depth < MAX_CONST_DEPTH
    ensures ConstEval(n, depth) == FoldLeaf(n) == ConstFold(n)
  {
  }

  /** The cap only loses information. */
  lemma {:induction false} CapOnlyLoses(n: Node, depth: nat)
    ensures ConstEval(n, depth).None? || ConstEval(n, depth) == ConstFold(n)
    decreases n
  {
    if depth < MAX_CONST_DEPTH {
      if n.Paren? || n.Not? {
        CapOnlyLoses(n.arg, depth + 1);
      } else if n.Or? || n.And? {
        CapOnlyLoses(n.left, depth + 1);
        CapOnlyLoses(n.right, depth + 1);
      } else {
        LeafNeedsNoDepth(n, depth);
      }
    }
  }

  predicate NoMore(deeper: Option<bool>, shallower: Option<bool>) {
    deeper.None? || shallower == deeper
  }

  lemma {:induction false} FoldsMonotone(a1: Option<bool>, a2: Option<bool>, b1: Option<bool>, b2: Option<bool>)
    requires NoMore(a2, a1) && NoMore(b2, b1)
    ensures NoMore(FoldOr(a2, b2), FoldOr(a1, b1)) && NoMore(FoldAnd(a2, b2), FoldAnd(a1, b1))
        && NoMore(FoldNot(a2), FoldNot(a1))
  {
  }

  /** Starting less deep is never less informative. */
  lemma {:induction false} TooDeep(n: Node, depth: nat)
    requires depth >= MAX_CONST_DEPTH
    ensures ConstEval(n, depth).None?
  {
  }

  /** What a connective makes of its operands. */
  function Connect(n: Node, a: Option<bool>, b: Option<bool>): Option<bool>
    requires IsConnective(n)
  {
    if n.Paren? then a
    else if n.Not? then FoldNot(a)
    else if n.And? then FoldAnd(a, b)
    else if NullComplement(n.left, n.right) then Some(true)
    else FoldOr(a, b)
  }

  lemma {:induction false} ConnectMonotone(n: Node, a1: Option<bool>, a2: Option<bool>, b1: Option<bool>,
        b2: Option<bool>)
    requires IsConnective(n) && NoMore(a2, a1) && NoMore(b2, b1)
    ensures NoMore(Connect(n, a2, b2), Connect(n, a1, b1))
  {
    FoldsMonotone(a1, a2, b1, b2);
  }

  function Left(n: Node): Node
    requires IsConnective(n)
  {
    if n.Paren? || n.Not? then n.arg else n.left
  }

  function Right(n: Node): Node
    requires IsConnective(n)
  {
    if n.Paren? || n.Not? then n.arg else n.right
  }

  lemma {:induction false} ConnectiveEval(n: Node, depth: nat)
    requires IsConnective(n) && depth < MAX_CONST_DEPTH
    ensures ConstEval(n, depth) == Connect(n, ConstEval(Left(n), depth + 1), ConstEval(Right(n), depth + 1))
  {
  }

  lemma {:induction false} DepthMonotone(n: Node, d1: nat, d2: nat)
    requires d1 <= d2
    ensures NoMore(ConstEval(n, d2), ConstEval(n, d1))
    decreases n
  {
    if d2 >= MAX_CONST_DEPTH {
      TooDeep(n, d2);
    } else if IsConnective(n) {
      DepthMonotone(Left(n), d1 + 1, d2 + 1);
      DepthMonotone(Right(n), d1 + 1, d2 + 1);
      ConnectiveEval(n, d1);
      ConnectiveEval(n, d2);
      ConnectMonotone(n, ConstEval(Left(n), d1 + 1), ConstEval(Left(n), d2 + 1),
                      ConstEval(Right(n), d1 + 1), ConstEval(Right(n), d2 + 1));
    } else {
      LeafNeedsNoDepth(n, d1);
      LeafNeedsNoDepth(n, d2);
    }
  }

  function Larger(a: nat, b: nat): (m: nat)
    ensures m >= a && m >= b
  {
    if a > b then a else b
  }

  /** The nesting of NOT, AND, OR and parentheses. */
  function Nesting(n: Node): nat {
    if n.Paren? || n.Not? then 1 + Nesting(n.arg)
    else if n.Or? || n.And? then 1 + Larger(Nesting(n.left), Nesting(n.right))
    else 0
  }

  /** On predicates nested less deep than the cap the two folders agree. */
  lemma {:induction false} CapIsSlack(n: Node, depth: nat)
    requires depth + Nesting(n) < MAX_CONST_DEPTH
    ensures ConstEval(n, depth) == ConstFold(n)
    decreases n
  {
    if n.Paren? || n.Not? {
      CapIsSlack(n.arg, depth + 1);
    } else if n.Or? || n.And? {
      CapIsSlack(n.left, depth + 1);
      CapIsSlack(n.right, depth + 1);
    } else {
      LeafNeedsNoDepth(n, depth);
    }
  }

  // ---------------------------------------------------------------- soundness

  lemma {:induction false} PeelSame(n: Node, c: Context)
    ensures EvalExpr(Peel(n), c) == EvalExpr(n, c)
    decreases n
  {
    if n.Paren? {
      PeelSame(n.arg, c);
    }
  }

  lemma {:induction false} LiteralValue(n: Node, c: Context)
    requires Literal(n).Some?
    ensures EvalExpr(n, c) == Literal(n).value && !EvalExpr(n, c).VNull?
  {
    PeelSame(n, c);
  }

  lemma {:induction false} SameValue(a: Node, b: Node, c: Context)
    requires SameOperand(a, b)
    ensures EvalExpr(a, c) == EvalExpr(b, c)
  {
    PeelSame(a, c);
    PeelSame(b, c);
  }

  /** No comparison, IN or LIKE under the connectives has a NULL operand in this row. */
  ghost predicate NoNullOperand(n: Node, c: Context)
    decreases n
  {
    match n
    case Paren(e) => NoNullOperand(e, c)
    case Not(e) => NoNullOperand(e, c)
    case And(l, r) => NoNullOperand(l, c) && NoNullOperand(r, c)
    case Or(l, r) => NoNullOperand(l, c) && NoNullOperand(r, c)
    case Cmp(_, l, r) => !EvalExpr(l, c).VNull? && !EvalExpr(r, c).VNull?
    case In(e, items, _) => !EvalExpr(e, c).VNull? && forall i :: 0 <= i < |items| ==> !EvalExpr(items[i], c).VNull?
    case Like(l, r) => !EvalExpr(l, c).VNull? && !EvalExpr(r, c).VNull?
    case _ => true
  }

  /** A folded leaf has its verdict where its left operand is not NULL. */
  ghost predicate LeafDecided(n: Node, c: Context) {
    && (n.Cmp? || n.Like? ==> !EvalExpr(n.left, c).VNull?)
    && (n.In? ==> !EvalExpr(n.arg, c).VNull?)
  }

  /** Verdict `b` on `n`: never the opposite of the truth, and the truth exactly where it is decided. */
  ghost predicate Settled(n: Node, b: bool, c: Context, decided: bool) {
    EvalTruth(n, c) != FromBool(!b) && (decided <==> EvalTruth(n, c) == FromBool(b))
  }

  lemma {:induction false} NullTestTruth(n: Node, c: Context)
    requires NullTest(n).Some?
    ensures EvalTruth(n, c) == FromBool(EvalExpr(NullTest(n).value.0, c).VNull? != NullTest(n).value.1)
  {
    PeelSame(n, c);
    var e := Peel(n);
    if e.Not? {
      PeelSame(e.arg, c);
    }
  }

  lemma {:induction false} NullComplementTrue(l: Node, r: Node, c: Context)
    requires NullComplement(l, r)
    ensures Or3(EvalTruth(l, c), EvalTruth(r, c)) == True
  {
    NullTestTruth(l, c);
    NullTestTruth(r, c);
  }

  lemma {:induction false} CmpExact(n: Node, c: Context, b: bool)
    requires n.Cmp? && FoldLeaf(n) == Some(b)
    ensures Settled(n, b, c, LeafDecided(n, c))
  {
    if SameOperand(n.left, n.right) {
      SameValue(n.left, n.right, c);
      var v := EvalExpr(n.left, c);
      if !v.VNull? {
        CompareSelf(n.op, v);
      }
    } else {
      LiteralValue(n.left, c);
      LiteralValue(n.right, c);
    }
  }

  /** A membership hit equates the left side with one item. */
  lemma {:induction false} InHitItem(lhs: Node, items: seq<Node>, c: Context) returns (i: nat)
    requires InHit(lhs, items)
    ensures i < |items| && EvalExpr(items[i], c) == EvalExpr(lhs, c)
    decreases |items|
  {
    if Literal(lhs).Some? && Literal(items[0]) == Literal(lhs) {
      LiteralValue(lhs, c);
      LiteralValue(items[0], c);
      i := 0;
    } else if Literal(lhs).None? && SameOperand(lhs, items[0]) {
      SameValue(lhs, items[0], c);
      i := 0;
    } else {
      var k := InHitItem(lhs, items[1..], c);
      i := k + 1;
    }
  }

  lemma {:induction false} EvalListAt(ns: seq<Node>, c: Context, i: nat)
    requires i < |ns|
    ensures EvalList(ns, c)[i] == EvalExpr(ns[i], c)
    decreases |ns|
  {
    if i > 0 {
      EvalListAt(ns[1..], c, i - 1);
    }
  }

  /** A list that contains the value itself makes IN true, unless the value is NULL. */
  lemma {:induction false} InListHas(v: Value, items: seq<Value>, i: nat)
    requires i < |items| && items[i] == v
    ensures InList(v, items) == if v.VNull? then Unknown else True
    decreases |items|
  {
    if v.VNull? {
      InListNull(items);
    } else if i > 0 {
      InListHas(v, items[1..], i - 1);
    } else {
      CompareSelf(Eq, v);
    }
  }

  lemma {:induction false} InListNull(items: seq<Value>)
    requires items != []
    ensures InList(VNull, items) == Unknown
    decreases |items|
  {
    if |items| > 1 {
      InListNull(items[1..]);
    } else {
      assert items[1..] == [];
    }
  }

  lemma {:induction false} InExact(n: Node, c: Context, b: bool)
    requires n.In? && FoldLeaf(n) == Some(b)
    ensures Settled(n, b, c, LeafDecided(n, c))
  {
    var i := InHitItem(n.arg, n.items, c);
    EvalListAt(n.items, c, i);
    InListHas(EvalExpr(n.arg, c), EvalList(n.items, c), i);
  }

  /** What a LIKE hit says of the two operands. */
  lemma {:induction false} LikeHitMatches(l: Node, r: Node, c: Context)
    requires LikeHit(l, r)
    ensures EvalExpr(r, c).VNull? ==> EvalExpr(l, c).VNull?
    ensures !EvalExpr(l, c).VNull? ==> LikeMatch(AsText(EvalExpr(l, c), c.calls), AsText(EvalExpr(r, c), c.calls))
  {
    var v := EvalExpr(l, c);
    if SameOperand(l, r) {
      SameValue(l, r, c);
      MatchesItself(AsText(v, c.calls));
    } else {
      LiteralValue(r, c);
      var pattern := Literal(r).value.s;
      if AllPercent(pattern) && pattern != "" {
        AllPercentMatches(AsText(v, c.calls), pattern);
      } else {
        LiteralValue(l, c);
        MatchesItself(pattern);
      }
    }
  }

  lemma {:induction false} LikeExact(n: Node, c: Context, b: bool)
    requires n.Like? && FoldLeaf(n) == Some(b)
    ensures Settled(n, b, c, LeafDecided(n, c))
  {
    LikeHitMatches(n.left, n.right, c);
  }

  /** A folded leaf has its verdict exactly where its left operand is not NULL. */
  lemma {:induction false} LeafExact(n: Node, c: Context, b: bool)
    requires !IsConnective(n) && ConstFold(n) == Some(b)
    ensures Settled(n, b, c, LeafDecided(n, c))
  {
    if n.Cmp? {
      CmpExact(n, c, b);
    } else if n.In? {
      InExact(n, c, b);
    } else if n.Like? {
      LikeExact(n, c, b);
    }
  }

  /**
   * Where the verdict `b` on `n` is the truth value of this row. A folded part is judged by its leaves,
   * a part that does not fold by its own value: of an OR one TRUE part is enough, of an AND one FALSE part.
   */
  ghost predicate Decided(n: Node, b: bool, c: Context)
    decreases n, 0
  {
    if n.Paren? then Decided(n.arg, b, c)
    else if n.Not? then Decided(n.arg, !b, c)
    else if n.Or? then
      if b then NullComplement(n.left, n.right) || Reaches(n.left, true, c) || Reaches(n.right, true, c)
      else Reaches(n.left, false, c) && Reaches(n.right, false, c)
    else if n.And? then
      if b then Reaches(n.left, true, c) && Reaches(n.right, true, c)
      else Reaches(n.left, false, c) || Reaches(n.right, false, c)
    else LeafDecided(n, c)
  }

  ghost predicate Reaches(n: Node, b: bool, c: Context)
    decreases n, 1
  {
    if ConstFold(n).Some? then ConstFold(n) == Some(b) && Decided(n, b, c) else EvalTruth(n, c) == FromBool(b)
  }

  lemma {:induction false} OrDecided(n: Node, b: bool, c: Context)
    requires n.Or? && ConstFold(n) == Some(b)
    requires forall d :: Reaches(n.left, d, c) <==> EvalTruth(n.left, c) == FromBool(d)
    requires forall d :: Reaches(n.right, d, c) <==> EvalTruth(n.right, c) == FromBool(d)
    ensures Settled(n, b, c, Decided(n, b, c))
  {
    assert EvalTruth(n, c) == Or3(EvalTruth(n.left, c), EvalTruth(n.right, c));
    if NullComplement(n.left, n.right) {
      NullComplementTrue(n.left, n.right, c);
    } else if b {
      assert !Reaches(n.left, false, c) || !Reaches(n.right, false, c);
    } else {
      assert !Reaches(n.left, true, c) && !Reaches(n.right, true, c);
    }
  }

  lemma {:induction false} AndDecided(n: Node, b: bool, c: Context)
    requires n.And? && ConstFold(n) == Some(b)
    requires forall d :: Reaches(n.left, d, c) <==> EvalTruth(n.left, c) == FromBool(d)
    requires forall d :: Reaches(n.right, d, c) <==> EvalTruth(n.right, c) == FromBool(d)
    ensures Settled(n, b, c, Decided(n, b, c))
  {
    assert EvalTruth(n, c) == And3(EvalTruth(n.left, c), EvalTruth(n.right, c));
    if b {
      assert !Reaches(n.left, false, c) && !Reaches(n.right, false, c);
    } else {
      assert !Reaches(n.left, true, c) || !Reaches(n.right, true, c);
    }
  }

  lemma {:induction false} NotDecided(n: Node, b: bool, c: Context)
    requires n.Not? && Settled(n.arg, !b, c, Decided(n.arg, !b, c))
    ensures Settled(n, b, c, Decided(n, b, c))
  {
    assert EvalTruth(n, c) == Not3(EvalTruth(n.arg, c));
  }

  /** A part reaches a truth value exactly if that is its value. */
  lemma {:induction false} ReachesExactly(n: Node, c: Context)
    ensures forall d :: Reaches(n, d, c) <==> EvalTruth(n, c) == FromBool(d)
    decreases n, 1
  {
    if ConstFold(n).Some? {
      FoldDecided(n, ConstFold(n).value, c);
    }
  }

  /** Without the cap: the verdict is never the opposite of the truth, and the truth exactly where it is decided. */
  lemma {:induction false} FoldDecided(n: Node, b: bool, c: Context)
    requires ConstFold(n) == Some(b)
    ensures Settled(n, b, c, Decided(n, b, c))
    decreases n, 0
  {
    if n.Paren? {
      FoldDecided(n.arg, b, c);
    } else if n.Not? {
      FoldDecided(n.arg, !b, c);
      NotDecided(n, b, c);
    } else if n.Or? || n.And? {
      ReachesExactly(n.left, c);
      ReachesExactly(n.right, c);
      if n.Or? {
        OrDecided(n, b, c);
      } else {
        AndDecided(n, b, c);
      }
    } else {
      LeafExact(n, c, b);
    }
  }

  /** A folded verdict is the truth value of the predicate in a row if and only if it is decided there. */
  lemma {:induction false} VerdictExactly(n: Node, depth: nat, c: Context, b: bool)
    requires ConstEval(n, depth) == Some(b)
    ensures EvalTruth(n, c) == FromBool(b) <==> Decided(n, b, c)
  {
    CapOnlyLoses(n, depth);
    FoldDecided(n, b, c);
  }

  /**
   * Some reason for folding `n` to `b` involves no NULL in this row, whatever the parts that do not fold:
   * of an OR one constant-true branch is enough, of an AND one constant-false branch.
   */
  ghost predicate Grounded(n: Node, b: bool, c: Context)
    decreases n
  {
    if n.Paren? then Grounded(n.arg, b, c)
    else if n.Not? then Grounded(n.arg, !b, c)
    else if n.Or? && b then
      || NullComplement(n.left, n.right)
      || (ConstFold(n.left) == Some(true) && Grounded(n.left, true, c))
      || (ConstFold(n.right) == Some(true) && Grounded(n.right, true, c))
    else if n.And? && !b then
      || (ConstFold(n.left) == Some(false) && Grounded(n.left, false, c))
      || (ConstFold(n.right) == Some(false) && Grounded(n.right, false, c))
    else if n.Or? || n.And? then Grounded(n.left, b, c) && Grounded(n.right, b, c)
    else LeafDecided(n, c)
  }

  lemma {:induction false} GroundedDecides(n: Node, b: bool, c: Context)
    requires ConstFold(n) == Some(b) && Grounded(n, b, c)
    ensures Decided(n, b, c)
    decreases n
  {
    if n.Paren? {
      GroundedDecides(n.arg, b, c);
    } else if n.Not? {
      GroundedDecides(n.arg, !b, c);
    } else if n.Or? || n.And? {
      if ConstFold(n.left) == Some(b) && Grounded(n.left, b, c) {
        GroundedDecides(n.left, b, c);
      }
      if ConstFold(n.right) == Some(b) && Grounded(n.right, b, c) {
        GroundedDecides(n.right, b, c);
      }
    }
  }

  /** A grounded verdict is exact, whatever NULLs the rest of the predicate meets. */
  lemma {:induction false} GroundedIsExact(n: Node, b: bool, c: Context)
    requires ConstFold(n) == Some(b) && Grounded(n, b, c)
    ensures EvalTruth(n, c) == FromBool(b)
  {
    GroundedDecides(n, b, c);
    FoldDecided(n, b, c);
  }

  /** Without any NULL operand every verdict is grounded. */
  lemma {:induction false} NoNullIsGrounded(n: Node, b: bool, c: Context)
    requires ConstFold(n) == Some(b) && NoNullOperand(n, c)
    ensures Grounded(n, b, c)
    decreases n
  {
    if n.Paren? {
      NoNullIsGrounded(n.arg, b, c);
    } else if n.Not? {
      NoNullIsGrounded(n.arg, !b, c);
    } else if n.Or? || n.And? {
      if ConstFold(n.left) == Some(b) {
        NoNullIsGrounded(n.left, b, c);
      }
      if ConstFold(n.right) == Some(b) {
        NoNullIsGrounded(n.right, b, c);
      }
    }
  }

  /**
   * Soundness of the folder in three-valued logic: a predicate it folds to `b` never evaluates to the
   * opposite of `b`, and evaluates to `b` in every row where no operand is NULL.
   */
  lemma {:induction false} ConstEvalSound(n: Node, depth: nat, c: Context, b: bool)
    requires ConstEval(n, depth) == Some(b)
    ensures EvalTruth(n, c) != FromBool(!b)
    ensures NoNullOperand(n, c) ==> EvalTruth(n, c) == FromBool(b)
  {
    CapOnlyLoses(n, depth);
    FoldDecided(n, b, c);
    if NoNullOperand(n, c) {
      NoNullIsGrounded(n, b, c);
      GroundedIsExact(n, b, c);
    }
  }

  /** The proviso is needed: `x = x` is TRUE exactly where `x` is not NULL. */
  lemma {:induction false} SelfEqualityNeedsValue(x: Node, c: Context)
    requires x.Column?
    ensures IsConstTrue(Cmp(Eq, x, x))
    ensures EvalTruth(Cmp(Eq, x, x), c) == True <==> !EvalExpr(x, c).VNull?
  {
    assert ConstEval(Cmp(Eq, x, x), 0) == FoldLeaf(Cmp(Eq, x, x));
  }

  // ---------------------------------------------------------------- removing a hit

  /** `p` with `target` replaced by TRUE wherever it stands under AND, OR, NOT and parentheses. */
  function Replace(p: Node, target: Node): Node
    decreases p
  {
    if p == target then Boolean(true)
    else
      match p
      case Paren(e) => Paren(Replace(e, target))
      case Not(e) => Not(Replace(e, target))
      case And(l, r) => And(Replace(l, target), Replace(r, target))
      case Or(l, r) => Or(Replace(l, target), Replace(r, target))
      case _ => p
  }

  lemma {:induction false} ReplaceSame(p: Node, target: Node, c: Context)
    requires EvalTruth(target, c) == True
    ensures EvalTruth(Replace(p, target), c) == EvalTruth(p, c)
    decreases p
  {
    if p != target {
      if p.Paren? || p.Not? {
        ReplaceSame(p.arg, target, c);
      } else if p.And? || p.Or? {
        ReplaceSame(p.left, target, c);
        ReplaceSame(p.right, target, c);
      }
    }
  }

  /** What the check flags in a root: the root itself, or an OR with a constant-true branch. */
  ghost predicate FlaggedIn(root: Node, target: Node) {
    (target == root && IsConstTrue(root)) || (OrHit(target) && exists l :: Inside(l, root) && l.node == target)
  }

  lemma {:induction false} AnyOrHitMember(ls: seq<Located>)
    ensures AnyOrHit(ls) <==> exists l :: l in ls && OrHit(l.node)
    decreases |ls|
  {
    if ls != [] {
      AnyOrHitMember(ls[1..]);
    }
  }

  /** A root is hit exactly when something in it is flagged. */
  lemma {:induction false} RootHitExact(root: Node)
    ensures RootHit(root) <==> exists target :: FlaggedIn(root, target)
  {
    var ors := FindAll(root, IsOr);
    AnyOrHitMember(ors);
    if IsConstTrue(root) {
      assert FlaggedIn(root, root);
    } else if l :| l in ors && OrHit(l.node) {
      FoundIffInside(root, IsOr, l);
      assert FlaggedIn(root, l.node);
    }
    if target :| FlaggedIn(root, target) {
      if l :| Inside(l, root) && l.node == target && OrHit(target) {
        FoundIffInside(root, IsOr, l);
      }
    }
  }

  /** Two predicates that are TRUE on the same rows keep the same rows. */
  lemma {:induction false} KeptAlike(p: Node, q: Node, shape: seq<Header>, rows: seq<seq<seq<Value>>>, c: Context)
    requires forall r :: r in rows ==>
      (EvalTruth(p, Within(c, shape, r)) == True <==> EvalTruth(q, Within(c, shape, r)) == True)
    ensures Kept(Some(Where(p)), shape, rows, c) == Kept(Some(Where(q)), shape, rows, c)
    decreases |rows|
  {
    if rows != [] {
      KeptAlike(p, q, shape, rows[1..], c);
    }
  }

  /** A predicate keeps every row exactly if it is TRUE on every row. */
  lemma {:induction false} KeepsAllExactly(p: Node, shape: seq<Header>, rows: seq<seq<seq<Value>>>, c: Context)
    ensures |Kept(Some(Where(p)), shape, rows, c)| <= |rows|
    ensures Kept(Some(Where(p)), shape, rows, c) == rows
      <==> forall r :: r in rows ==> EvalTruth(p, Within(c, shape, r)) == True
    decreases |rows|
  {
    if rows != [] {
      KeepsAllExactly(p, shape, rows[1..], c);
      KeptFirst(p, shape, rows, c);
      assert rows == [rows[0]] + rows[1..];
    }
  }

  lemma {:induction false} KeptFirst(p: Node, shape: seq<Header>, rows: seq<seq<seq<Value>>>, c: Context)
    requires rows != []
    ensures Kept(Some(Where(p)), shape, rows, c) ==
      (if EvalTruth(p, Within(c, shape, rows[0])) == True then [rows[0]] else [])
      + Kept(Some(Where(p)), shape, rows[1..], c)
  {
  }

  lemma {:induction false} TrueFolds(n: Node)
    requires IsConstTrue(n)
    ensures ConstFold(n) == Some(true)
  {
    CapOnlyLoses(n, 0);
  }

  lemma {:induction false} OrFolds(n: Node)
    requires n.Or? && (ConstFold(n.left) == Some(true) || ConstFold(n.right) == Some(true))
    ensures ConstFold(n) == Some(true)
  {
  }

  lemma {:induction false} OrHitFolds(n: Node)
    requires OrHit(n)
    ensures ConstFold(n) == Some(true)
  {
    if IsConstTrue(n.left) {
      TrueFolds(n.left);
    } else {
      TrueFolds(n.right);
    }
    OrFolds(n);
  }

  /** Whatever is flagged folds to true. */
  lemma {:induction false} FlaggedFolds(root: Node, target: Node)
    requires FlaggedIn(root, target)
    ensures ConstFold(target) == Some(true)
  {
    if OrHit(target) {
      OrHitFolds(target);
    } else {
      TrueFolds(target);
    }
  }

  /** A flagged root filters nothing exactly if its verdict is decided in every row. */
  lemma {:induction false} FlaggedRootKeepsExactly(root: Node, shape: seq<Header>, rows: seq<seq<seq<Value>>>,
        c: Context)
    requires FlaggedIn(root, root)
    ensures Kept(Some(Where(root)), shape, rows, c) == rows
      <==> forall r :: r in rows ==> Decided(root, true, Within(c, shape, r))
  {
    FlaggedFolds(root, root);
    KeepsAllExactly(root, shape, rows, c);
    forall r | r in rows
      ensures EvalTruth(root, Within(c, shape, r)) == True <==> Decided(root, true, Within(c, shape, r))
    {
      FoldDecided(root, true, Within(c, shape, r));
    }
  }

  /**
   * A flagged predicate filters nothing: replacing the flagged node by TRUE keeps the same rows, as
   * long as its verdict is decided in every row.
   */
  lemma {:induction false} HitFiltersNothing(root: Node, target: Node, shape: seq<Header>, rows: seq<seq<seq<Value>>>,
        c: Context)
    requires FlaggedIn(root, target)
    requires forall r :: r in rows ==> Decided(target, true, Within(c, shape, r))
    ensures Kept(Some(Where(Replace(root, target))), shape, rows, c) == Kept(Some(Where(root)), shape, rows, c)
  {
    FlaggedFolds(root, target);
    forall r | r in rows
      ensures EvalTruth(Replace(root, target), Within(c, shape, r)) == EvalTruth(root, Within(c, shape, r))
    {
      FoldDecided(target, true, Within(c, shape, r));
      ReplaceSame(root, target, Within(c, shape, r));
    }
    KeptAlike(Replace(root, target), root, shape, rows, c);
  }

  /** `p OR 1 = 1`: whatever `p` is and whatever is NULL, every row is kept. */
  lemma {:induction false} OrTrueKeepsEverything(p: Node, v: real, shape: seq<Header>, rows: seq<seq<seq<Value>>>,
        c: Context)
    ensures var one := Number(v, true);
      var root := Or(p, Cmp(Eq, one, one));
      FlaggedIn(root, root) && Kept(Some(Where(root)), shape, rows, c) == rows
  {
    var one := Number(v, true);
    var test := Cmp(Eq, one, one);
    assert FoldLeaf(test) == Some(true);
    LeafNeedsNoDepth(test, 0);
    var root := Or(p, test);
    assert FlaggedIn(root, root) by {
      RootInside(root);
    }
    forall r | r in rows
      ensures Decided(root, true, Within(c, shape, r))
    {
      assert LeafDecided(test, Within(c, shape, r));
      assert Reaches(test, true, Within(c, shape, r));
    }
    FlaggedRootKeepsExactly(root, shape, rows, c);
  }

  lemma {:induction false} AnyRootHitMember(roots: seq<Node>)
    ensures AnyRootHit(roots) <==> exists r :: r in roots && RootHit(r)
    decreases |roots|
  {
    if roots != [] {
      AnyRootHitMember(roots[1..]);
    }
  }

  /** The check reports exactly when something in a WHERE, HAVING or ON predicate is flagged. */
  lemma {:induction false} CheckTautologyExact(stmt: Node, policy: GuardPolicy)
    ensures CheckTautology(stmt, policy) != [] <==>
      policy.blockTautology && exists root, target :: root in PredicateRoots(stmt) && FlaggedIn(root, target)
  {
    var roots := PredicateRoots(stmt);
    AnyRootHitMember(roots);
    forall r | r in roots
      ensures RootHit(r) <==> exists target :: FlaggedIn(r, target)
    {
      RootHitExact(r);
    }
  }
}
