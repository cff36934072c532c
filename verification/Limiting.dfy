/** LIMIT enforcement: `apply_limit`, the one rewriting check. */
module Limiting {
  import opened Syntax
  import opened SqlValues
  import opened Traversal
  import opened Semantics
  import opened Policy

  const LIMIT_INJECTED := Violation("limit_injected", Low, TransformIt)

  const LIMIT_CAPPED := Violation("limit_capped", Low, TransformIt)

  predicate IsFrom(n: Node) { n.From? }

  /** The value of a literal written as an integer. */
  function IntLiteral(n: Node): Option<int> {
    if n.Number? && n.integral && n.value.Floor as real == n.value then Some(n.value.Floor) else None
  }

  /** `_literal_limit`: the integer that bounds a LIMIT or FETCH FIRST. */
  function LiteralLimit(limit: Option<Node>): Option<int> {
    match limit
    case Some(Limit(Some(e))) => IntLiteral(e)
    case Some(Fetch(Some(e))) => IntLiteral(e)
    case _ => None
  }

  predicate Limitable(n: Node) {
    n.Select? || n.SetOp?
  }

  function LimitNode(k: int): Node {
    Limit(Some(Number(k as real, true)))
  }

  /** `stmt.limit(k)`. */
  function WithLimit(stmt: Node, limit: Option<Node>): Node
    requires Limitable(stmt)
  {
    stmt.(limit := limit)
  }

  function Min(a: int, b: int): int {
    if a <= b then a else b
  }

  /** `apply_limit`. */
  function ApplyLimit(stmt: Node, policy: GuardPolicy): (Node, seq<Violation>) {
    if !Limitable(stmt) then (stmt, [])
    else if !Has(stmt, IsFrom) then (stmt, [])
    else if stmt.limit.None? then
      if policy.defaultLimit.None? then (stmt, [])
      else
        var inject :=
          if policy.maxLimit.Some? then Min(policy.defaultLimit.value, policy.maxLimit.value)
          else policy.defaultLimit.value;
        (WithLimit(stmt, Some(LimitNode(inject))), [LIMIT_INJECTED])
    else
      var current := LiteralLimit(stmt.limit);
      if policy.maxLimit.Some? && current.None? then
          (WithLimit(stmt, Some(LimitNode(policy.maxLimit.value))), [LIMIT_CAPPED])
      else if policy.maxLimit.Some? && current.Some? && current.value > policy.maxLimit.value then
        (WithLimit(stmt, Some(LimitNode(policy.maxLimit.value))), [LIMIT_CAPPED])
      else (stmt, [])
  }

  // ---------------------------------------------------------------- the rewritten query

  /** The query without its top-level bound. */
  function Unlimited(stmt: Node): Node
    requires Limitable(stmt)
  {
    WithLimit(stmt, None)
  }

  /** The first `k` rows. */
  function FirstRows(rel: Relation, k: nat): Relation {
    Relation(rel.cols, if k < |rel.rows| then rel.rows[..k] else rel.rows)
  }

  lemma {:induction false} WholeRounds(k: int)
    ensures Round(k as real) == k && (k as real).Floor == k
  {
  }

  lemma {:induction false} BodyIgnoresLimit(stmt: Node, limit: Option<Node>, c: Context)
    requires Limitable(stmt)
    ensures stmt.Select? ==> EvalSelect(WithLimit(stmt, limit), c) == EvalSelect(stmt, c)
    ensures stmt.SetOp? ==> EvalSetOp(WithLimit(stmt, limit), c) == EvalSetOp(stmt, c)
  {
  }

  /** The context in which the bound of a statement is evaluated. */
  ghost function BoundContext(stmt: Node, c: Context): Context {
    c.(ctes := EvalCtes(CtesOf(stmt), c), group := [])
  }

  /** A bound only cuts the rows of the query without it. */
  lemma {:induction false} LimitCuts(stmt: Node, limit: Option<Node>, c: Context)
    requires Limitable(stmt)
    ensures EvalQuery(WithLimit(stmt, limit), c)
        == TakeRows(EvalQuery(Unlimited(stmt), c), RowBound(limit, BoundContext(stmt, c)))
  {
    BodyIgnoresLimit(stmt, limit, c);
    BodyIgnoresLimit(stmt, None, c);
  }

  lemma {:induction false} LiteralBound(k: nat, c: Context)
    ensures RowBound(Some(LimitNode(k)), c) == Some(k)
  {
    WholeRounds(k);
    assert EvalExpr(Number(k as real, true), c.(env := [], group := [])) == VNum(k as real);
  }

  lemma {:induction false} SameLimit(stmt: Node)
    requires Limitable(stmt)
    ensures WithLimit(stmt, stmt.limit) == stmt
  {
  }

  /** An integer bound already there. */
  lemma {:induction false} LiteralMeans(stmt: Node, c: Context)
    requires Limitable(stmt) && LiteralLimit(stmt.limit).Some?
    ensures RowBound(stmt.limit, c)
        == Some(if LiteralLimit(stmt.limit).value < 0 then 0 else LiteralLimit(stmt.limit).value)
  {
    var e := stmt.limit.value.count.value;
    assert EvalExpr(e, c.(env := [], group := [])) == VNum(e.value);
    WholeRounds(LiteralLimit(stmt.limit).value);
  }

  /** The bound a rewrite puts on the statement. */
  lemma {:induction false} RewriteShape(stmt: Node, policy: GuardPolicy) returns (k: nat)
    requires Accepted(policy) && ApplyLimit(stmt, policy).1 != []
    ensures Limitable(stmt) && ApplyLimit(stmt, policy).0 == WithLimit(stmt, Some(LimitNode(k)))
    ensures 1 <= k && (policy.maxLimit.Some? ==> k <= policy.maxLimit.value)
    ensures stmt.limit.None? ==> policy.defaultLimit.Some? && k <= policy.defaultLimit.value
    ensures stmt.limit.Some? ==> policy.maxLimit == Some(k)
  {
    if stmt.limit.None? {
      k :=
        if policy.maxLimit.Some? then Min(policy.defaultLimit.value, policy.maxLimit.value)
        else policy.defaultLimit.value;
    } else {
      k := policy.maxLimit.value;
    }
  }

  /**
   * The rewrite is a bounded refinement: the rewritten query returns the first `k` rows of the query
   * without its top-level bound, and `k` never exceeds the maximum.
   */
  lemma {:induction false} RewriteIsBoundedPrefix(stmt: Node, policy: GuardPolicy, c: Context) returns (k: nat)
    requires Accepted(policy) && ApplyLimit(stmt, policy).1 != []
    ensures Limitable(stmt)
    ensures EvalQuery(ApplyLimit(stmt, policy).0, c) == FirstRows(EvalQuery(Unlimited(stmt), c), k)
    ensures 1 <= k && (policy.maxLimit.Some? ==> k <= policy.maxLimit.value)
  {
    k := RewriteShape(stmt, policy);
    LimitCuts(stmt, Some(LimitNode(k)), c);
    LiteralBound(k, BoundContext(stmt, c));
  }

  /** With both limits set, a query that reads a source returns at most the maximum number of rows. */
  lemma {:induction false} RowsAreBounded(stmt: Node, policy: GuardPolicy, c: Context)
    requires Accepted(policy) && policy.maxLimit.Some? && policy.defaultLimit.Some?
    requires Limitable(stmt) && Has(stmt, IsFrom)
    ensures |EvalQuery(ApplyLimit(stmt, policy).0, c).rows| <= policy.maxLimit.value
  {
    if ApplyLimit(stmt, policy).1 != [] {
      var k := RewriteIsBoundedPrefix(stmt, policy, c);
    } else {
      SameLimit(stmt);
      LimitCuts(stmt, stmt.limit, c);
      LiteralMeans(stmt, BoundContext(stmt, c));
    }
  }

  /** Applying the rewrite twice is applying it once; the second time there is nothing to report. */
  lemma {:induction false} ApplyLimitIdempotent(stmt: Node, policy: GuardPolicy)
    requires Accepted(policy)
    ensures ApplyLimit(ApplyLimit(stmt, policy).0, policy) == (ApplyLimit(stmt, policy).0, [])
  {
    if ApplyLimit(stmt, policy).1 != [] {
      var k := RewriteShape(stmt, policy);
      WholeRounds(k);
      assert LiteralLimit(Some(LimitNode(k))) == Some(k);
    }
  }

  // ---------------------------------------------------------------- the verdict, exactly

  /** A SELECT or set operation that reads some source. */
  ghost predicate ReadsSource(stmt: Node) {
    (stmt.Select? || stmt.SetOp?) && exists l :: Inside(l, stmt) && l.node.From?
  }

  /** LIMIT `k` or FETCH FIRST `k` ROWS, with `k` written as an integer. */
  predicate BoundedBy(limit: Option<Node>, k: int) {
    limit == Some(Limit(Some(Number(k as real, true)))) || limit == Some(Fetch(Some(Number(k as real, true))))
  }

  lemma {:induction false} BoundedByExactly(limit: Option<Node>, k: int)
    ensures BoundedBy(limit, k) <==> LiteralLimit(limit) == Some(k)
  {
    WholeRounds(k);
  }

  /** The query with `k` in place of its bound returns the first `k` rows of the query without it. */
  lemma {:induction false} CutTo(stmt: Node, k: nat, c: Context)
    requires stmt.Select? || stmt.SetOp?
    ensures EvalQuery(stmt.(limit := Some(Limit(Some(Number(k as real, true))))), c)
        == FirstRows(EvalQuery(stmt.(limit := None), c), k)
  {
    LimitCuts(stmt, Some(LimitNode(k)), c);
    LiteralBound(k, BoundContext(stmt, c));
  }

  lemma {:induction false} ReadsSourceExactly(stmt: Node)
    ensures ReadsSource(stmt) <==> Limitable(stmt) && Has(stmt, IsFrom)
  {
    HasIffInside(stmt, IsFrom);
  }

  /** A query without a bound: exactly the smaller of the two limits' rows, if a default is set. */
  lemma {:induction false} InjectedExactly(stmt: Node, policy: GuardPolicy, c: Context)
    requires Accepted(policy) && ReadsSource(stmt) && stmt.limit.None?
    ensures policy.defaultLimit.None? ==> ApplyLimit(stmt, policy) == (stmt, [])
    ensures policy.defaultLimit.Some? ==>
      var k := if policy.maxLimit.Some? && policy.maxLimit.value < policy.defaultLimit.value
               then policy.maxLimit.value else policy.defaultLimit.value;
      && ApplyLimit(stmt, policy).0 == stmt.(limit := Some(Limit(Some(Number(k as real, true)))))
      && ApplyLimit(stmt, policy).1 == [Violation("limit_injected", Low, TransformIt)]
      && EvalQuery(ApplyLimit(stmt, policy).0, c) == FirstRows(EvalQuery(stmt, c), k)
  {
    ReadsSourceExactly(stmt);
    if policy.defaultLimit.Some? {
      var k := if policy.maxLimit.Some? && policy.maxLimit.value < policy.defaultLimit.value
               then policy.maxLimit.value else policy.defaultLimit.value;
      CutTo(stmt, k, c);
      assert stmt.(limit := None) == stmt;
    }
  }

  /** A query with a bound: an integer within the maximum is kept, anything else becomes the maximum. */
  lemma {:induction false} CappedExactly(stmt: Node, policy: GuardPolicy, c: Context)
    requires Accepted(policy) && ReadsSource(stmt) && stmt.limit.Some?
    ensures policy.maxLimit.None? ==> ApplyLimit(stmt, policy) == (stmt, [])
    ensures policy.maxLimit.Some? ==>
      if exists k :: BoundedBy(stmt.limit, k) && k <= policy.maxLimit.value then ApplyLimit(stmt, policy) == (stmt, [])
      else
        && ApplyLimit(stmt, policy).0 == stmt.(limit := Some(Limit(Some(Number(policy.maxLimit.value as real, true)))))
        && ApplyLimit(stmt, policy).1 == [Violation("limit_capped", Low, TransformIt)]
        && EvalQuery(ApplyLimit(stmt, policy).0, c)
            == FirstRows(EvalQuery(stmt.(limit := None), c), policy.maxLimit.value)
  {
    ReadsSourceExactly(stmt);
    forall k
      ensures BoundedBy(stmt.limit, k) <==> LiteralLimit(stmt.limit) == Some(k)
    {
      BoundedByExactly(stmt.limit, k);
    }
    if policy.maxLimit.Some? {
      CutTo(stmt, policy.maxLimit.value, c);
      if LiteralLimit(stmt.limit).Some? {
        assert BoundedBy(stmt.limit, LiteralLimit(stmt.limit).value);
      }
    }
  }

  /** Anything that is no query over a source is left alone. */
  lemma {:induction false} LeftAlone(stmt: Node, policy: GuardPolicy)
    requires !ReadsSource(stmt)
    ensures ApplyLimit(stmt, policy) == (stmt, [])
  {
    ReadsSourceExactly(stmt);
  }

  // ---------------------------------------------------------------- existing bounds

  /** The rewritten statement admits more rows than the statement it replaces. */
  ghost predicate Raised(stmt: Node, policy: GuardPolicy, c: Context) {
    var before := if Limitable(stmt) then RowBound(stmt.limit, BoundContext(stmt, c)) else None;
    var out := ApplyLimit(stmt, policy).0;
    var after := if Limitable(out) then RowBound(out.limit, BoundContext(out, c)) else None;
    before.Some? && (after.None? || after.value > before.value)
  }

  /** An existing integer bound is never raised. */
  lemma {:induction false} LiteralNeverRaised(stmt: Node, policy: GuardPolicy, c: Context)
    requires Accepted(policy) && Limitable(stmt) && LiteralLimit(stmt.limit).Some?
    ensures !Raised(stmt, policy, c)
  {
    if ApplyLimit(stmt, policy).1 != [] {
      var k := RewriteShape(stmt, policy);
      LiteralBound(k, BoundContext(WithLimit(stmt, Some(LimitNode(k))), c));
      LiteralMeans(stmt, BoundContext(stmt, c));
    }
  }

  lemma {:induction false} KeptNeverRaised(stmt: Node, policy: GuardPolicy, c: Context)
    requires ApplyLimit(stmt, policy).1 == []
    ensures !Raised(stmt, policy, c)
  {
    assert ApplyLimit(stmt, policy).0 == stmt;
  }

  /** When a statement is rewritten although its bound is no integer literal. */
  lemma {:induction false} RewrittenExactly(stmt: Node, policy: GuardPolicy)
    requires Limitable(stmt) && LiteralLimit(stmt.limit).None? && stmt.limit.Some?
    ensures ApplyLimit(stmt, policy).1 != [] <==> Has(stmt, IsFrom) && policy.maxLimit.Some?
  {
  }

  lemma {:induction false} MaximumInstead(stmt: Node, policy: GuardPolicy, c: Context)
    requires Accepted(policy) && Limitable(stmt) && stmt.limit.Some? && ApplyLimit(stmt, policy).1 != []
    ensures policy.maxLimit.Some?
    ensures Raised(stmt, policy, c) <==>
      && RowBound(stmt.limit, BoundContext(stmt, c)).Some?
      && RowBound(stmt.limit, BoundContext(stmt, c)).value < policy.maxLimit.value
  {
    var k := RewriteShape(stmt, policy);
    LiteralBound(k, BoundContext(WithLimit(stmt, Some(LimitNode(k))), c));
  }

  /**
   * A bound is raised exactly when it is not an integer literal, the statement reads a source and a
   * maximum above the bound is set.
   */
  lemma {:induction false} RaisedExactly(stmt: Node, policy: GuardPolicy, c: Context)
    requires Accepted(policy) && Limitable(stmt)
    ensures Raised(stmt, policy, c) <==>
      && stmt.limit.Some? && LiteralLimit(stmt.limit).None? && Has(stmt, IsFrom) && policy.maxLimit.Some?
      && RowBound(stmt.limit, BoundContext(stmt, c)).Some?
      && RowBound(stmt.limit, BoundContext(stmt, c)).value < policy.maxLimit.value
  {
    if LiteralLimit(stmt.limit).Some? {
      LiteralNeverRaised(stmt, policy, c);
    } else if stmt.limit.None? {
      assert RowBound(stmt.limit, BoundContext(stmt, c)).None?;
    } else {
      RewrittenExactly(stmt, policy);
      if ApplyLimit(stmt, policy).1 != [] {
        MaximumInstead(stmt, policy, c);
      } else {
        KeptNeverRaised(stmt, policy, c);
      }
    }
  }

  lemma {:induction false} FetchFirstIsOne(c: Context)
    ensures RowBound(Some(Fetch(None)), c) == Some(1) && LiteralLimit(Some(Fetch(None))).None?
  {
  }

  /** FETCH FIRST ROW ONLY becomes LIMIT max_limit. */
  lemma {:induction false} FetchFirstRowIsRaised(stmt: Node, policy: GuardPolicy, c: Context)
    requires Accepted(policy) && Limitable(stmt) && stmt.limit == Some(Fetch(None)) && Has(stmt, IsFrom)
    requires policy.maxLimit.Some? && policy.maxLimit.value > 1
    ensures Raised(stmt, policy, c)
  {
    FetchFirstIsOne(BoundContext(stmt, c));
    RaisedExactly(stmt, policy, c);
  }
}
