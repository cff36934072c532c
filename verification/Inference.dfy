/** Inference probes: a row filter that tests a constant or an uncorrelated subquery. */
module Inference {
  import opened Syntax
  import opened Text
  import opened Traversal
  import opened Policy
  import Tautology

  const INFERENCE_PROBE := Violation("inference_probe", Medium, BlockIt)

  const MAX_PEEL: nat := 50

  const MAX_DEPTH: nat := 50

  // ---------------------------------------------------------------- operands

  /** `_unwrap_paren`: at most `left` parentheses come off. */
  function UnwrapParen(n: Node, left: nat): Node
    decreases n
  {
    if n.Paren? && left > 0 then UnwrapParen(n.arg, left - 1) else n
  }

  method PeelParen(n: Node) returns (r: Node)
    ensures r == UnwrapParen(n, MAX_PEEL)
  {
    r := n;
    var seen := 0;
    while r.Paren? && seen < MAX_PEEL
      invariant 0 <= seen <= MAX_PEEL
      invariant UnwrapParen(r, MAX_PEEL - seen) == UnwrapParen(n, MAX_PEEL)
      decreases MAX_PEEL - seen
    {
      r := r.arg;
      seen := seen + 1;
    }
  }

  lemma {:induction false} UnwrapShrinks(n: Node, left: nat)
    ensures UnwrapParen(n, left) == n || UnwrapParen(n, left) < n
    decreases n
  {
    if n.Paren? && left > 0 {
      UnwrapShrinks(n.arg, left - 1);
    }
  }

  function InnerFrom(n: Node, left: nat): (sel: Option<Node>)
    ensures sel.Some? ==> sel.value.Select?
    decreases n
  {
    if n.Subquery? && left > 0 then
      if n.arg.Select? then Some(n.arg)
      else
        UnwrapShrinks(n.arg, MAX_PEEL);
        InnerFrom(UnwrapParen(n.arg, MAX_PEEL), left - 1)
    else None
  }

  /** `_inner_select`: the SELECT inside parentheses and redundant subquery wrappers. */
  function InnerSelect(n: Node): (sel: Option<Node>)
    ensures sel.Some? ==> sel.value.Select?
  {
    InnerFrom(UnwrapParen(n, MAX_PEEL), MAX_PEEL)
  }

  method FindInnerSelect(n: Node) returns (sel: Option<Node>)
    ensures sel == InnerSelect(n)
  {
    var node := PeelParen(n);
    var seen := 0;
    while node.Subquery? && seen < MAX_PEEL
      invariant 0 <= seen <= MAX_PEEL
      invariant InnerFrom(node, MAX_PEEL - seen) == InnerSelect(n)
      decreases MAX_PEEL - seen
    {
      var inner := node.arg;
      if inner.Select? {
        return Some(inner);
      }
      node := PeelParen(inner);
      seen := seen + 1;
    }
    return None;
  }

  /** `_is_constant_expr`. */
  predicate IsConstantExpr(n: Node, depth: nat)
    decreases n
  {
    UnwrapShrinks(n, MAX_PEEL);
    var e := UnwrapParen(n, MAX_PEEL);
    depth < MAX_DEPTH &&
    (|| e.Number? || e.Text? || e.Null? || e.Boolean?
     || ((e.Neg? || e.Cast?) && IsConstantExpr(e.arg, depth + 1))
     || (e.Arith? && IsConstantExpr(e.left, depth + 1) && IsConstantExpr(e.right, depth + 1)))
  }

  predicate IsConstant(n: Node) {
    IsConstantExpr(n, 0)
  }

  predicate AllConstant(ns: seq<Node>) {
    ns == [] || (IsConstant(ns[0]) && AllConstant(ns[1..]))
  }

  // ---------------------------------------------------------------- correlation

  predicate IsCteNode(n: Node) { n.Cte? }

  function Qualifier(n: Node): string {
    if n.Column? || n.StarColumn? then n.table else ""
  }

  function TableNames(ls: seq<Located>): set<string> {
    if ls == [] then {}
    else (if ls[0].node.Table? then
            (if ls[0].node.name != "" then {Lower(ls[0].node.name)} else {})
            + (if ls[0].node.alias != "" then {Lower(ls[0].node.alias)} else {})
          else {})
         + TableNames(ls[1..])
  }

  function CteNamesLower(ls: seq<Located>): set<string> {
    if ls == [] then {}
    else (if ls[0].node.Cte? && ls[0].node.alias != "" then {Lower(ls[0].node.alias)} else {}) + CteNamesLower(ls[1..])
  }

  /** `_subquery_sources`. */
  function SubquerySources(sel: Node): set<string> {
    TableNames(FindAll(sel, IsTable)) + CteNamesLower(FindAll(sel, IsCteNode))
  }

  method CollectSources(tables: seq<Located>, ctes: seq<Located>) returns (src: set<string>)
    ensures src == TableNames(tables) + CteNamesLower(ctes)
  {
    src := {};
    var i := 0;
    while i < |tables|
      invariant 0 <= i <= |tables|
      invariant src + TableNames(tables[i..]) == TableNames(tables)
    {
      var t := tables[i].node;
      assert tables[i..][0] == tables[i] && tables[i..][1..] == tables[i + 1..];
      if t.Table? {
        if t.name != "" {
          src := src + {Lower(t.name)};
        }
        if t.alias != "" {
          src := src + {Lower(t.alias)};
        }
      }
      i := i + 1;
    }
    i := 0;
    while i < |ctes|
      invariant 0 <= i <= |ctes|
      invariant src + CteNamesLower(ctes[i..]) == TableNames(tables) + CteNamesLower(ctes)
    {
      var k := ctes[i].node;
      assert ctes[i..][0] == ctes[i] && ctes[i..][1..] == ctes[i + 1..];
      if k.Cte? && k.alias != "" {
        src := src + {Lower(k.alias)};
      }
      i := i + 1;
    }
  }

  predicate Binds(cols: seq<Located>, inside: set<string>) {
    cols == []
    || ((Lower(Qualifier(cols[0].node)) == "" || Lower(Qualifier(cols[0].node)) in inside) && Binds(cols[1..], inside))
  }

  /** `_is_uncorrelated`. */
  predicate IsUncorrelated(sel: Node) {
    Binds(FindAll(sel, IsColumn), SubquerySources(sel))
  }

  method JudgeColumns(cols: seq<Located>, inside: set<string>) returns (bound: bool)
    ensures bound == Binds(cols, inside)
  {
    var i := 0;
    while i < |cols|
      invariant 0 <= i <= |cols|
      invariant Binds(cols[i..], inside) == Binds(cols, inside)
    {
      assert cols[i..][0] == cols[i] && cols[i..][1..] == cols[i + 1..];
      var qualifier := Lower(Qualifier(cols[i].node));
      if qualifier != "" && qualifier !in inside {
        return false;
      }
      i := i + 1;
    }
    return true;
  }

  method JudgeCorrelation(sel: Node) returns (un: bool)
    ensures un == IsUncorrelated(sel)
  {
    var inside := CollectSources(FindAll(sel, IsTable), FindAll(sel, IsCteNode));
    un := JudgeColumns(FindAll(sel, IsColumn), inside);
  }

  // ---------------------------------------------------------------- probes

  /** The uncorrelated SELECT a scalar operand stands for. */
  function ScalarSelect(n: Node): (sel: Option<Node>)
    ensures sel.Some? ==> sel.value.Select? && IsUncorrelated(sel.value)
  {
    var sel := InnerSelect(n);
    if sel.Some? && IsUncorrelated(sel.value) then sel else None
  }

  method FindScalarSelect(n: Node) returns (found: bool)
    ensures found == ScalarSelect(n).Some?
  {
    var sel := FindInnerSelect(n);
    found := false;
    if sel.Some? {
      found := JudgeCorrelation(sel.value);
    }
  }

  /** The uncorrelated SELECT under an EXISTS. */
  function ExistsSelect(n: Node): (sel: Option<Node>)
    ensures sel.Some? ==> sel.value.Select? && IsUncorrelated(sel.value)
  {
    var inner := if n.Subquery? then n.arg else n;
    if inner.Select? && IsUncorrelated(inner) then Some(inner) else None
  }

  /** The scalar subquery a comparison, BETWEEN, IN or IS NULL holds against constants. */
  function ComparedSelect(n: Node): (sel: Option<Node>)
    ensures sel.Some? ==> sel.value.Select? && IsUncorrelated(sel.value)
  {
    if n.Cmp? then
      if ScalarSelect(n.left).Some? && IsConstant(n.right) then ScalarSelect(n.left)
      else if ScalarSelect(n.right).Some? && IsConstant(n.left) then ScalarSelect(n.right)
      else None
    else if n.Between? then
      if IsConstant(n.low) && IsConstant(n.high) then ScalarSelect(n.arg) else None
    else if n.In? then
      if n.query.None? && n.items != [] && AllConstant(n.items) then ScalarSelect(n.arg) else None
    else if n.Is? then
      if n.expression.Null? then ScalarSelect(n.arg) else None
    else None
  }

  /** The SELECT a node probes; `None`: the node is no probe. */
  function ProbedSelect(n: Node): (sel: Option<Node>)
    ensures sel.Some? ==> sel.value.Select? && IsUncorrelated(sel.value)
  {
    if n.Exists? then ExistsSelect(n.arg) else ComparedSelect(n)
  }

  predicate IsCmp(n: Node) { n.Cmp? }

  predicate IsBetween(n: Node) { n.Between? }

  predicate IsIn(n: Node) { n.In? }

  predicate IsIs(n: Node) { n.Is? }

  predicate IsExists(n: Node) { n.Exists? }

  predicate AnyProbe(ls: seq<Located>) {
    ls != [] && (ProbedSelect(ls[0].node).Some? || AnyProbe(ls[1..]))
  }

  /** `_scalar_subquery_probe` or `_constant_exists_probe`. */
  predicate RootProbe(root: Node) {
    || AnyProbe(FindAll(root, IsCmp))
    || AnyProbe(FindAll(root, IsBetween))
    || AnyProbe(FindAll(root, IsIn))
    || AnyProbe(FindAll(root, IsIs))
    || AnyProbe(FindAll(root, IsExists))
  }

  predicate AnyRootProbe(roots: seq<Node>) {
    roots != [] && (RootProbe(roots[0]) || AnyRootProbe(roots[1..]))
  }

  /** A comparison of two constants. */
  predicate LiteralComparison(n: Node) {
    n.Cmp? && IsConstant(n.left) && IsConstant(n.right)
  }

  predicate AnyLiteralComparison(ls: seq<Located>) {
    ls != [] && (LiteralComparison(ls[0].node) || AnyLiteralComparison(ls[1..]))
  }

  function CheckInference(stmt: Node, policy: GuardPolicy): seq<Violation> {
    if policy.blockInferenceProbe
       && (AnyLiteralComparison(FindAll(stmt, IsCmp)) || AnyRootProbe(Tautology.PredicateRoots(stmt)))
    then [INFERENCE_PROBE]
    else []
  }

  // ---------------------------------------------------------------- the loops

  method AllConstantItems(items: seq<Node>) returns (all: bool)
    ensures all == AllConstant(items)
  {
    var i := 0;
    while i < |items|
      invariant 0 <= i <= |items|
      invariant AllConstant(items[i..]) == AllConstant(items)
    {
      assert items[i..][0] == items[i] && items[i..][1..] == items[i + 1..];
      if !IsConstant(items[i]) {
        return false;
      }
      i := i + 1;
    }
    return true;
  }

  /** One comparison: either side may hold the subquery. */
  method JudgeComparison(n: Node) returns (hit: bool)
    requires n.Cmp?
    ensures hit == ProbedSelect(n).Some?
  {
    var left := FindScalarSelect(n.left);
    if left && IsConstant(n.right) {
      return true;
    }
    var right := FindScalarSelect(n.right);
    return right && IsConstant(n.left);
  }

  method JudgeNode(n: Node) returns (hit: bool)
    ensures hit == ProbedSelect(n).Some?
  {
    hit := false;
    if n.Cmp? {
      hit := JudgeComparison(n);
    } else if n.Between? {
      var found := FindScalarSelect(n.arg);
      hit := found && IsConstant(n.low) && IsConstant(n.high);
    } else if n.In? {
      if n.query.None? && n.items != [] {
        var found := FindScalarSelect(n.arg);
        var constant := AllConstantItems(n.items);
        hit := found && constant;
      }
    } else if n.Is? {
      var found := FindScalarSelect(n.arg);
      hit := n.expression.Null? && found;
    } else if n.Exists? {
      var inner := n.arg;
      if inner.Subquery? {
        inner := inner.arg;
      }
      if inner.Select? {
        hit := JudgeCorrelation(inner);
      }
    }
  }

  method FindProbe(ls: seq<Located>) returns (hit: bool)
    ensures hit == AnyProbe(ls)
  {
    var i := 0;
    while i < |ls|
      invariant 0 <= i <= |ls|
      invariant AnyProbe(ls[i..]) == AnyProbe(ls)
    {
      assert ls[i..][0] == ls[i] && ls[i..][1..] == ls[i + 1..];
      var found := JudgeNode(ls[i].node);
      if found {
        return true;
      }
      i := i + 1;
    }
    return false;
  }

  method FindLiteralComparison(ls: seq<Located>) returns (hit: bool)
    ensures hit == AnyLiteralComparison(ls)
  {
    var i := 0;
    while i < |ls|
      invariant 0 <= i <= |ls|
      invariant AnyLiteralComparison(ls[i..]) == AnyLiteralComparison(ls)
    {
      assert ls[i..][0] == ls[i] && ls[i..][1..] == ls[i + 1..];
      var n := ls[i].node;
      if n.Cmp? && IsConstant(n.left) && IsConstant(n.right) {
        return true;
      }
      i := i + 1;
    }
    return false;
  }

  method JudgeRoot(root: Node) returns (hit: bool)
    ensures hit == RootProbe(root)
  {
    hit := FindProbe(FindAll(root, IsCmp));
    if !hit {
      hit := FindProbe(FindAll(root, IsBetween));
    }
    if !hit {
      hit := FindProbe(FindAll(root, IsIn));
    }
    if !hit {
      hit := FindProbe(FindAll(root, IsIs));
    }
    if !hit {
      hit := FindProbe(FindAll(root, IsExists));
    }
  }

  method RunCheckInference(stmt: Node, policy: GuardPolicy) returns (violations: seq<Violation>)
    ensures violations == CheckInference(stmt, policy)
  {
    if !policy.blockInferenceProbe {
      return [];
    }
    var literal := FindLiteralComparison(FindAll(stmt, IsCmp));
    if literal {
      return [INFERENCE_PROBE];
    }
    var roots := Tautology.CollectRoots(FindAll(stmt, Tautology.IsFilter), FindAll(stmt, IsJoin));
    var i := 0;
    while i < |roots|
      invariant 0 <= i <= |roots|
      invariant AnyRootProbe(roots[i..]) == AnyRootProbe(roots)
    {
      assert roots[i..][0] == roots[i] && roots[i..][1..] == roots[i + 1..];
      var hit := JudgeRoot(roots[i]);
      if hit {
        return [INFERENCE_PROBE];
      }
      i := i + 1;
    }
    return [];
  }

  // ---------------------------------------------------------------- the verdict, exactly

  lemma {:induction false} AnyProbeMember(ls: seq<Located>)
    ensures AnyProbe(ls) <==> exists l :: l in ls && ProbedSelect(l.node).Some?
    decreases |ls|
  {
    if ls != [] {
      AnyProbeMember(ls[1..]);
    }
  }

  lemma {:induction false} ProbeIn(root: Node, p: Node -> bool)
    ensures AnyProbe(FindAll(root, p)) <==> exists l :: Inside(l, root) && p(l.node) && ProbedSelect(l.node).Some?
  {
    AnyProbeMember(FindAll(root, p));
    forall l
      ensures l in FindAll(root, p) <==> Inside(l, root) && p(l.node)
    {
      FoundIffInside(root, p, l);
    }
  }

  /** A root is flagged exactly when some node in it probes an uncorrelated SELECT. */
  lemma {:induction false} RootProbeExact(root: Node)
    ensures RootProbe(root) <==> exists l :: Inside(l, root) && ProbedSelect(l.node).Some?
  {
    ProbeIn(root, IsCmp);
    ProbeIn(root, IsBetween);
    ProbeIn(root, IsIn);
    ProbeIn(root, IsIs);
    ProbeIn(root, IsExists);
    if l :| Inside(l, root) && ProbedSelect(l.node).Some? {
      var n := l.node;
      assert IsCmp(n) || IsBetween(n) || IsIn(n) || IsIs(n) || IsExists(n);
    }
  }

  lemma {:induction false} BindsMember(cols: seq<Located>, inside: set<string>)
    ensures Binds(cols, inside) <==>
      forall l :: l in cols ==> Lower(Qualifier(l.node)) == "" || Lower(Qualifier(l.node)) in inside
    decreases |cols|
  {
    if cols != [] {
      BindsMember(cols[1..], inside);
    }
  }

  /** Uncorrelated: every qualified column inside names a source inside. */
  lemma {:induction false} UncorrelatedExact(sel: Node)
    ensures IsUncorrelated(sel) <==>
      forall l :: Inside(l, sel) && IsColumn(l.node) && l.node.table != "" ==>
          Lower(l.node.table) in SubquerySources(sel)
  {
    var cols := FindAll(sel, IsColumn);
    BindsMember(cols, SubquerySources(sel));
    forall l
      ensures l in cols <==> Inside(l, sel) && IsColumn(l.node)
    {
      FoundIffInside(sel, IsColumn, l);
    }
    forall l: Located | IsColumn(l.node)
      ensures (Lower(Qualifier(l.node)) == "") <==> l.node.table == ""
    {
      assert |Lower(l.node.table)| == |l.node.table|;
    }
  }

  lemma {:induction false} AnyRootProbeMember(roots: seq<Node>)
    ensures AnyRootProbe(roots) <==> exists r :: r in roots && RootProbe(r)
    decreases |roots|
  {
    if roots != [] {
      AnyRootProbeMember(roots[1..]);
    }
  }

  lemma {:induction false} AnyLiteralMember(ls: seq<Located>)
    ensures AnyLiteralComparison(ls) <==> exists l :: l in ls && LiteralComparison(l.node)
    decreases |ls|
  {
    if ls != [] {
      AnyLiteralMember(ls[1..]);
    }
  }

  lemma {:induction false} LiteralIn(stmt: Node)
    ensures AnyLiteralComparison(FindAll(stmt, IsCmp)) <==> exists l :: Inside(l, stmt) && LiteralComparison(l.node)
  {
    AnyLiteralMember(FindAll(stmt, IsCmp));
    forall l
      ensures l in FindAll(stmt, IsCmp) <==> Inside(l, stmt) && IsCmp(l.node)
    {
      FoundIffInside(stmt, IsCmp, l);
    }
  }

  /** Some node of a WHERE, HAVING or ON predicate probes an uncorrelated SELECT. */
  ghost predicate RootsProbed(stmt: Node) {
    exists root, l :: root in Tautology.PredicateRoots(stmt) && Inside(l, root) && ProbedSelect(l.node).Some?
  }

  /** The check reports exactly a constant comparison anywhere, or a probe in a row filter. */
  lemma {:induction false} CheckInferenceExact(stmt: Node, policy: GuardPolicy)
    ensures CheckInference(stmt, policy) != [] <==>
      policy.blockInferenceProbe && ((exists l :: Inside(l, stmt) && LiteralComparison(l.node)) || RootsProbed(stmt))
  {
    var roots := Tautology.PredicateRoots(stmt);
    LiteralIn(stmt);
    AnyRootProbeMember(roots);
    forall r | r in roots
      ensures RootProbe(r) <==> exists l :: Inside(l, r) && ProbedSelect(l.node).Some?
    {
      RootProbeExact(r);
    }
  }
}
