/** The exact verdict of `check_inference`, spelled out on the comparisons and subqueries. */
module InferenceVerdict {
  import opened Syntax
  import opened Text
  import opened Traversal
  import opened Policy
  import opened Inference
  import Tautology
  import TautologyVerdict

  // ---------------------------------------------------------------- constants

  /**
   * Literals and NULL under minus, casts and arithmetic, at most `levels` of them one inside the other,
   * with at most 50 parentheses in a row anywhere and `parens` in front.
   */
  predicate ConstantWithin(n: Node, levels: nat, parens: nat)
    decreases n
  {
    match n
    case Paren(e) => parens > 0 && ConstantWithin(e, levels, parens - 1)
    case Number(_, _) => levels > 0
    case Text(_) => levels > 0
    case Boolean(_) => levels > 0
    case Null => levels > 0
    case Neg(e) => levels > 0 && ConstantWithin(e, levels - 1, 50)
    case Cast(e) => levels > 0 && ConstantWithin(e, levels - 1, 50)
    case Arith(_, l, r) => levels > 0 && ConstantWithin(l, levels - 1, 50) && ConstantWithin(r, levels - 1, 50)
    case _ => false
  }

  /** A constant, at most 50 levels deep. */
  predicate Constant(n: Node) {
    ConstantWithin(n, 50, 50)
  }

  lemma {:induction false} ConstantUnwrapped(n: Node, levels: nat, parens: nat)
    ensures ConstantWithin(n, levels, parens)
      <==> !UnwrapParen(n, parens).Paren? && ConstantWithin(UnwrapParen(n, parens), levels, 50)
    decreases n
  {
    if n.Paren? && parens > 0 {
      ConstantUnwrapped(n.arg, levels, parens - 1);
    }
  }

  lemma {:induction false} ConstantExprExactly(n: Node, depth: nat)
    requires depth <= 50
    ensures IsConstantExpr(n, depth) <==> ConstantWithin(n, 50 - depth, 50)
    decreases n
  {
    ConstantUnwrapped(n, 50 - depth, 50);
    UnwrapShrinks(n, 50);
    var e := UnwrapParen(n, 50);
    if depth < 50 {
      if e.Neg? || e.Cast? {
        ConstantExprExactly(e.arg, depth + 1);
      } else if e.Arith? {
        ConstantExprExactly(e.left, depth + 1);
        ConstantExprExactly(e.right, depth + 1);
      }
    }
  }

  lemma {:induction false} ConstantExactly(n: Node)
    ensures IsConstant(n) <==> Constant(n)
  {
    ConstantExprExactly(n, 0);
  }

  // ---------------------------------------------------------------- subqueries

  /**
   * The operand is the SELECT within one to `subs` subquery wrappers, with at most 50 parentheses
   * in a row before each wrapper and `parens` in front.
   */
  predicate StandsFor(n: Node, sel: Node, subs: nat, parens: nat)
    decreases n
  {
    if n.Paren? then parens > 0 && StandsFor(n.arg, sel, subs, parens - 1)
    else
      && n.Subquery? && subs > 0
      && if n.arg.Select? then n.arg == sel else StandsFor(n.arg, sel, subs - 1, 50)
  }

  lemma {:induction false} StandsForUnwrapped(n: Node, sel: Node, subs: nat, parens: nat)
    ensures StandsFor(n, sel, subs, parens)
      <==> !UnwrapParen(n, parens).Paren? && StandsFor(UnwrapParen(n, parens), sel, subs, 50)
    decreases n
  {
    if n.Paren? && parens > 0 {
      StandsForUnwrapped(n.arg, sel, subs, parens - 1);
    }
  }

  lemma {:induction false} InnerFromExactly(n: Node, sel: Node, left: nat)
    ensures InnerFrom(n, left) == Some(sel) <==> !n.Paren? && StandsFor(n, sel, left, 50)
    decreases n
  {
    if n.Subquery? && left > 0 && !n.arg.Select? {
      UnwrapShrinks(n.arg, 50);
      InnerFromExactly(UnwrapParen(n.arg, 50), sel, left - 1);
      StandsForUnwrapped(n.arg, sel, left - 1, 50);
    }
  }

  lemma {:induction false} InnerSelectExactly(n: Node, sel: Node)
    ensures InnerSelect(n) == Some(sel) <==> StandsFor(n, sel, 50, 50)
  {
    InnerFromExactly(UnwrapParen(n, 50), sel, 50);
    StandsForUnwrapped(n, sel, 50, 50);
  }

  /** `x` is the lower-cased name or alias of a table in the SELECT, or the name of a WITH query in it. */
  ghost predicate NamedInside(sel: Node, x: string) {
    exists l :: Inside(l, sel) && Names(l.node, x)
  }

  predicate Names(n: Node, x: string) {
    || (n.Table? && ((n.name != "" && Lower(n.name) == x) || (n.alias != "" && Lower(n.alias) == x)))
    || (n.Cte? && n.alias != "" && Lower(n.alias) == x)
  }

  lemma {:induction false} TableNamesMember(ls: seq<Located>, x: string)
    ensures x in TableNames(ls) <==> exists l :: l in ls && l.node.Table? && Names(l.node, x)
    decreases |ls|
  {
    if ls != [] {
      TableNamesMember(ls[1..], x);
    }
  }

  lemma {:induction false} CteNamesMember(ls: seq<Located>, x: string)
    ensures x in CteNamesLower(ls) <==> exists l :: l in ls && l.node.Cte? && Names(l.node, x)
    decreases |ls|
  {
    if ls != [] {
      CteNamesMember(ls[1..], x);
    }
  }

  lemma {:induction false} SourcesExactly(sel: Node, x: string)
    ensures x in SubquerySources(sel) <==> NamedInside(sel, x)
  {
    TableNamesMember(FindAll(sel, IsTable), x);
    CteNamesMember(FindAll(sel, IsCteNode), x);
    if l :| l in FindAll(sel, IsTable) && l.node.Table? && Names(l.node, x) {
      FoundIffInside(sel, IsTable, l);
    }
    if l :| l in FindAll(sel, IsCteNode) && l.node.Cte? && Names(l.node, x) {
      FoundIffInside(sel, IsCteNode, l);
    }
    if l :| Inside(l, sel) && Names(l.node, x) {
      FoundIffInside(sel, IsTable, l);
      FoundIffInside(sel, IsCteNode, l);
    }
  }

  /** Every qualified column in the SELECT names a table or WITH query in it. */
  ghost predicate SelfContained(sel: Node) {
    forall l :: Inside(l, sel) && (l.node.Column? || l.node.StarColumn?) && l.node.table != "" ==>
      NamedInside(sel, Lower(l.node.table))
  }

  lemma {:induction false} SelfContainedExactly(sel: Node)
    ensures IsUncorrelated(sel) <==> SelfContained(sel)
  {
    UncorrelatedExact(sel);
    forall x
      ensures x in SubquerySources(sel) <==> NamedInside(sel, x)
    {
      SourcesExactly(sel, x);
    }
  }

  // ---------------------------------------------------------------- probes

  /** The operand is a self-contained subquery. */
  ghost predicate Oracle(n: Node) {
    exists sel :: StandsFor(n, sel, 50, 50) && SelfContained(sel)
  }

  lemma {:induction false} OracleExactly(n: Node)
    ensures ScalarSelect(n).Some? <==> Oracle(n)
  {
    if sel :| StandsFor(n, sel, 50, 50) && SelfContained(sel) {
      InnerSelectExactly(n, sel);
      SelfContainedExactly(sel);
    }
    if ScalarSelect(n).Some? {
      InnerSelectExactly(n, ScalarSelect(n).value);
      SelfContainedExactly(ScalarSelect(n).value);
    }
  }

  /** A comparison of two constants. */
  predicate ComparesConstants(n: Node) {
    n.Cmp? && Constant(n.left) && Constant(n.right)
  }

  /** A self-contained subquery compared with a constant, on either side. */
  ghost predicate ComparesOracle(n: Node) {
    n.Cmp? && ((Oracle(n.left) && Constant(n.right)) || (Oracle(n.right) && Constant(n.left)))
  }

  /** A self-contained subquery between two constants, in a list of constants, or checked for NULL. */
  ghost predicate TestsOracle(n: Node) {
    || (n.Between? && Oracle(n.arg) && Constant(n.low) && Constant(n.high))
    || (n.In? && n.query.None? && n.items != [] && Oracle(n.arg)
        && forall i :: 0 <= i < |n.items| ==> Constant(n.items[i]))
    || (n.Is? && n.expression.Null? && Oracle(n.arg))
  }

  /** A self-contained SELECT, wrapped at most once. */
  ghost predicate SelfContainedQuery(n: Node) {
    (n.Select? && SelfContained(n)) || (n.Subquery? && n.arg.Select? && SelfContained(n.arg))
  }

  /** EXISTS over a self-contained SELECT. */
  ghost predicate ExistsOracle(n: Node) {
    n.Exists? && SelfContainedQuery(n.arg)
  }

  lemma {:induction false} AllConstantExactly(ns: seq<Node>)
    ensures AllConstant(ns) <==> forall i :: 0 <= i < |ns| ==> Constant(ns[i])
    decreases |ns|
  {
    if ns != [] {
      ConstantExactly(ns[0]);
      AllConstantExactly(ns[1..]);
      assert forall i :: 0 < i < |ns| ==> ns[i] == ns[1..][i - 1];
      if AllConstant(ns) {
        forall i | 0 <= i < |ns|
          ensures Constant(ns[i])
        {
          assert i > 0 ==> ns[i] == ns[1..][i - 1];
        }
      } else if Constant(ns[0]) {
        var i :| 0 <= i < |ns[1..]| && !Constant(ns[1..][i]);
        assert !Constant(ns[i + 1]);
      }
    }
  }

  lemma {:induction false} ComparesOracleExactly(n: Node)
    requires n.Cmp?
    ensures ComparedSelect(n).Some? <==> ComparesOracle(n)
  {
    OracleExactly(n.left);
    OracleExactly(n.right);
    ConstantExactly(n.left);
    ConstantExactly(n.right);
  }

  lemma {:induction false} BetweenOracleExactly(n: Node)
    requires n.Between?
    ensures ComparedSelect(n).Some? <==> TestsOracle(n)
  {
    OracleExactly(n.arg);
    ConstantExactly(n.low);
    ConstantExactly(n.high);
  }

  lemma {:induction false} InOracleExactly(n: Node)
    requires n.In?
    ensures ComparedSelect(n).Some? <==> TestsOracle(n)
  {
    OracleExactly(n.arg);
    AllConstantExactly(n.items);
  }

  lemma {:induction false} IsOracleExactly(n: Node)
    requires n.Is?
    ensures ComparedSelect(n).Some? <==> TestsOracle(n)
  {
    OracleExactly(n.arg);
  }

  lemma {:induction false} ExistsSelectExactly(n: Node)
    ensures ExistsSelect(n).Some? <==> SelfContainedQuery(n)
  {
    SelfContainedExactly(n);
    if n.Subquery? {
      SelfContainedExactly(n.arg);
    }
  }

  lemma {:induction false} ExistsProbed(q: Node)
    ensures ProbedSelect(Exists(q)) == ExistsSelect(q)
  {
  }

  lemma {:induction false} ExistsOracleExactly(q: Node)
    ensures ProbedSelect(Exists(q)).Some? <==> SelfContainedQuery(q)
  {
    ExistsProbed(q);
    ExistsSelectExactly(q);
  }

  /** A node that probes: its truth cannot depend on the row. */
  ghost predicate Probes(n: Node) {
    ComparesOracle(n) || TestsOracle(n) || ExistsOracle(n)
  }

  lemma {:induction false} ProbesExactly(n: Node)
    ensures ProbedSelect(n).Some? <==> Probes(n)
  {
    if n.Cmp? {
      ComparesOracleExactly(n);
    } else if n.Between? {
      BetweenOracleExactly(n);
    } else if n.In? {
      InOracleExactly(n);
    } else if n.Is? {
      IsOracleExactly(n);
    } else if n.Exists? {
      ExistsOracleExactly(n.arg);
      assert n == Exists(n.arg);
    }
  }

  // ---------------------------------------------------------------- the check

  /** Some row filter of the statement holds a probe. */
  ghost predicate FilterProbed(stmt: Node) {
    exists root, l :: TautologyVerdict.Filters(stmt, root) && Inside(l, root) && Probes(l.node)
  }

  lemma {:induction false} ProbeExactly(stmt: Node, root: Node, l: Located)
    ensures root in Tautology.PredicateRoots(stmt) && Inside(l, root) && ProbedSelect(l.node).Some?
      <==> TautologyVerdict.Filters(stmt, root) && Inside(l, root) && Probes(l.node)
  {
    TautologyVerdict.RootsExactly(stmt, root);
    ProbesExactly(l.node);
  }

  lemma {:induction false} FilterProbedExactly(stmt: Node)
    ensures RootsProbed(stmt) <==> FilterProbed(stmt)
  {
    forall root, l
      ensures root in Tautology.PredicateRoots(stmt) && Inside(l, root) && ProbedSelect(l.node).Some?
        <==> TautologyVerdict.Filters(stmt, root) && Inside(l, root) && Probes(l.node)
    {
      ProbeExactly(stmt, root, l);
    }
  }

  /** Two constants are compared somewhere in the statement. */
  ghost predicate ConstantsCompared(stmt: Node) {
    exists l :: Inside(l, stmt) && ComparesConstants(l.node)
  }

  lemma {:induction false} ConstantsComparedExactly(stmt: Node)
    ensures ConstantsCompared(stmt) <==> exists l :: Inside(l, stmt) && LiteralComparison(l.node)
  {
    forall n: Node | n.Cmp?
      ensures LiteralComparison(n) <==> ComparesConstants(n)
    {
      ConstantExactly(n.left);
      ConstantExactly(n.right);
    }
  }

  /** The check reports exactly if it is on and constants are compared anywhere or some row filter holds a probe. */
  lemma {:induction false} InferenceReportedExactly(stmt: Node, policy: GuardPolicy)
    ensures CheckInference(stmt, policy) != [] <==>
      policy.blockInferenceProbe && (ConstantsCompared(stmt) || FilterProbed(stmt))
  {
    CheckInferenceExact(stmt, policy);
    ConstantsComparedExactly(stmt);
    FilterProbedExactly(stmt);
  }
}
