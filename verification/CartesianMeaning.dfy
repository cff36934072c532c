/** What the cartesian verdict means for the rows of a comma, CROSS or inner join. */
module CartesianMeaning {
  import opened Sequences
  import opened Syntax
  import opened Text
  import opened SqlValues
  import opened Semantics
  import opened UnionFind
  import opened Cartesian
  import opened Policy

  // ---------------------------------------------------------------- plain joins

  /** An inner join of an independent source: no LATERAL, outer side, NATURAL or USING. */
  predicate PlainJoin(j: Node) {
    j.Join? && !j.arg.Lateral? && !KeepsLeft(j) && !KeepsRight(j) && !IsNatural(j) && j.using == []
  }

  predicate AllPlain(joins: seq<Node>) {
    forall i :: 0 <= i < |joins| ==> PlainJoin(joins[i])
  }

  ghost function HeaderOf(src: Node, c: Context): Header {
    Header(AliasOrName(src), EvalSource(src, c).cols, {})
  }

  /** The sources after joining `joins` to `shape`. */
  ghost function JoinedShape(joins: seq<Node>, shape: seq<Header>, c: Context): seq<Header>
    decreases |joins|
  {
    if joins == [] || !joins[0].Join? then shape else JoinedShape(joins[1..], shape + [HeaderOf(joins[0].arg, c)], c)
  }

  ghost predicate OnTrue(j: Node, shape: seq<Header>, row: seq<seq<Value>>, c: Context)
    requires j.Join?
  {
    j.on.Some? ==> EvalTruth(j.on.value, Within(c, shape, row)) == True
  }

  ghost predicate WidthOk(p: Product) {
    forall r :: r in p.rows ==> |r| == |p.shape|
  }

  lemma {:induction false} MatchesMembers(j: Node, shape: seq<Header>, left: seq<seq<Value>>, h: Header,
        rights: seq<seq<Value>>, c: Context, row: seq<seq<Value>>)
    requires j.Join? && |left| == |shape|
    ensures row in Matches(j, [], shape, left, h, rights, c) <==>
      |row| == |shape| + 1 && row[..|shape|] == left && row[|shape|] in rights && OnTrue(j, shape + [h], row, c)
    decreases |rights|
  {
    if rights != [] {
      MatchesMembers(j, shape, left, h, rights[1..], c, row);
      assert (left + [rights[0]])[..|shape|] == left && (left + [rights[0]])[|shape|] == rights[0];
      if |row| == |shape| + 1 && row[..|shape|] == left && row[|shape|] == rights[0] {
        assert row == left + [rights[0]];
      }
    }
  }

  lemma {:induction false} JoinRowsMembers(j: Node, shape: seq<Header>, lefts: seq<seq<seq<Value>>>, h: Header,
        c: Context, row: seq<seq<Value>>)
    requires PlainJoin(j) && forall l :: l in lefts ==> |l| == |shape|
    ensures row in JoinRows(j, [], shape, lefts, h, c) <==>
      |row| == |shape| + 1 && row[..|shape|] in lefts && row[|shape|] in EvalSource(j.arg, c).rows
          && OnTrue(j, shape + [h], row, c)
    decreases |lefts|
  {
    if lefts != [] {
      JoinRowsMembers(j, shape, lefts[1..], h, c, row);
      MatchesMembers(j, shape, lefts[0], h, EvalSource(j.arg, c).rows, c, row);
    }
  }

  lemma {:induction false} PlainEvalJoin(j: Node, prod: Product, c: Context)
    requires PlainJoin(j)
    ensures EvalJoin(j, prod, c)
        == Product(prod.shape + [HeaderOf(j.arg, c)], JoinRows(j, [], prod.shape, prod.rows, HeaderOf(j.arg, c), c))
  {
    assert NameSet([]) == {};
  }

  /** One join: a row extends an earlier row by a row of the source, and ON holds. */
  lemma {:induction false} JoinMembers(j: Node, prod: Product, c: Context, row: seq<seq<Value>>)
    requires PlainJoin(j) && WidthOk(prod)
    ensures EvalJoin(j, prod, c).shape == prod.shape + [HeaderOf(j.arg, c)]
    ensures row in EvalJoin(j, prod, c).rows <==>
      |row| == |prod.shape| + 1 && row[..|prod.shape|] in prod.rows && row[|prod.shape|] in EvalSource(j.arg, c).rows
      && OnTrue(j, prod.shape + [HeaderOf(j.arg, c)], row, c)
  {
    PlainEvalJoin(j, prod, c);
    JoinRowsMembers(j, prod.shape, prod.rows, HeaderOf(j.arg, c), c, row);
  }

  /** Join `k` of `joins`, over `shape`, is satisfied by `row`. */
  ghost predicate JoinHolds(joins: seq<Node>, shape: seq<Header>, c: Context, row: seq<seq<Value>>, k: nat)
    requires k < |joins| && AllPlain(joins) && |row| == |shape| + |joins|
  {
    && row[|shape| + k] in EvalSource(joins[k].arg, c).rows
    && OnTrue(joins[k], JoinedShape(joins[..k + 1], shape, c), row[..|shape| + k + 1], c)
  }

  ghost predicate JoinsHold(joins: seq<Node>, shape: seq<Header>, c: Context, row: seq<seq<Value>>)
    requires AllPlain(joins) && |row| == |shape| + |joins|
  {
    forall k :: 0 <= k < |joins| ==> JoinHolds(joins, shape, c, row, k)
  }

  /** The headers of the joined relations. */
  ghost function Heads(joins: seq<Node>, c: Context): (r: seq<Header>)
    requires AllPlain(joins)
    ensures |r| == |joins| && forall k :: 0 <= k < |joins| ==> r[k] == HeaderOf(joins[k].arg, c)
  {
    if joins == [] then [] else [HeaderOf(joins[0].arg, c)] + Heads(joins[1..], c)
  }

  lemma {:induction false} JoinedShapeIs(joins: seq<Node>, shape: seq<Header>, c: Context)
    requires AllPlain(joins)
    ensures JoinedShape(joins, shape, c) == shape + Heads(joins, c)
    decreases |joins|
  {
    if joins != [] {
      var h := HeaderOf(joins[0].arg, c);
      JoinedShapeIs(joins[1..], shape + [h], c);
      AppendNext(shape, [h], Heads(joins[1..], c));
    } else {
      assert shape + Heads(joins, c) == shape;
    }
  }

  lemma {:induction false} JoinedShapeSize(joins: seq<Node>, shape: seq<Header>, c: Context)
    requires AllPlain(joins)
    ensures |JoinedShape(joins, shape, c)| == |shape| + |joins|
    ensures JoinedShape(joins, shape, c)[..|shape|] == shape
    ensures forall k :: 0 <= k < |joins| ==> JoinedShape(joins, shape, c)[|shape| + k] == HeaderOf(joins[k].arg, c)
  {
    JoinedShapeIs(joins, shape, c);
  }

  lemma {:induction false} JoinedShapeTail(joins: seq<Node>, shape: seq<Header>, c: Context, k: nat)
    requires 0 < k < |joins| && AllPlain(joins)
    ensures JoinedShape(joins[..k + 1], shape, c)
      == JoinedShape(joins[1..][..k], shape + [HeaderOf(joins[0].arg, c)], c)
  {
    assert joins[..k + 1][0] == joins[0] && joins[..k + 1][1..] == joins[1..][..k];
  }

  /** The last relation of `row` is joined by `j`. */
  ghost predicate LastHolds(j: Node, shape: seq<Header>, c: Context, row: seq<seq<Value>>)
    requires j.Join? && row != []
  {
    row[|row| - 1] in EvalSource(j.arg, c).rows && OnTrue(j, shape, row, c)
  }

  lemma {:induction false} HoldsLast(joins: seq<Node>, shape: seq<Header>, c: Context, row: seq<seq<Value>>, k: nat)
    requires k < |joins| && AllPlain(joins) && |row| == |shape| + |joins|
    ensures JoinHolds(joins, shape, c, row, k)
      == LastHolds(joins[k], JoinedShape(joins[..k + 1], shape, c), c, row[..|shape| + k + 1])
  {
  }

  lemma {:induction false} JoinHoldsTail(joins: seq<Node>, shape: seq<Header>, c: Context, row: seq<seq<Value>>, k: nat)
    requires 0 < k < |joins| && AllPlain(joins) && |row| == |shape| + |joins|
    ensures JoinHolds(joins, shape, c, row, k)
        == JoinHolds(joins[1..], shape + [HeaderOf(joins[0].arg, c)], c, row, k - 1)
  {
    JoinedShapeTail(joins, shape, c, k);
    HoldsLast(joins, shape, c, row, k);
    HoldsLast(joins[1..], shape + [HeaderOf(joins[0].arg, c)], c, row, k - 1);
  }

  lemma {:induction false} JoinsHoldSplit(joins: seq<Node>, shape: seq<Header>, c: Context, row: seq<seq<Value>>)
    requires joins != [] && AllPlain(joins) && |row| == |shape| + |joins|
    ensures JoinsHold(joins, shape, c, row) <==>
      JoinHolds(joins, shape, c, row, 0) && JoinsHold(joins[1..], shape + [HeaderOf(joins[0].arg, c)], c, row)
  {
    var s1 := shape + [HeaderOf(joins[0].arg, c)];
    forall k | 0 < k < |joins|
      ensures JoinHolds(joins, shape, c, row, k) == JoinHolds(joins[1..], s1, c, row, k - 1)
    {
      JoinHoldsTail(joins, shape, c, row, k);
    }
    if JoinsHold(joins[1..], s1, c, row) && JoinHolds(joins, shape, c, row, 0) {
      forall k | 0 <= k < |joins|
        ensures JoinHolds(joins, shape, c, row, k)
      {
        if k > 0 {
          assert JoinHolds(joins[1..], s1, c, row, k - 1);
        }
      }
    }
    if JoinsHold(joins, shape, c, row) {
      forall k | 0 <= k < |joins[1..]|
        ensures JoinHolds(joins[1..], s1, c, row, k)
      {
        assert JoinHolds(joins, shape, c, row, k + 1);
      }
    }
  }

  lemma {:induction false} JoinWidth(j: Node, prod: Product, c: Context)
    requires PlainJoin(j) && WidthOk(prod)
    ensures WidthOk(EvalJoin(j, prod, c)) && EvalJoin(j, prod, c).shape == prod.shape + [HeaderOf(j.arg, c)]
  {
    JoinMembers(j, prod, c, []);
    forall r | r in EvalJoin(j, prod, c).rows
      ensures |r| == |prod.shape| + 1
    {
      JoinMembers(j, prod, c, r);
    }
  }

  /** The first join of a chain, then the rest. */
  lemma {:induction false} FirstJoin(joins: seq<Node>, shape: seq<Header>, c: Context, row: seq<seq<Value>>)
    requires joins != [] && AllPlain(joins) && |row| == |shape| + |joins|
    ensures JoinHolds(joins, shape, c, row, 0)
      == LastHolds(joins[0], shape + [HeaderOf(joins[0].arg, c)], c, row[..|shape| + 1])
  {
    assert joins[..1] == [joins[0]];
    assert JoinedShape([joins[0]], shape, c) == JoinedShape([], shape + [HeaderOf(joins[0].arg, c)], c) by {
      assert [joins[0]][1..] == [];
    }
    HoldsLast(joins, shape, c, row, 0);
  }

  lemma {:induction false} JoinMember(j: Node, prod: Product, c: Context, row: seq<seq<Value>>)
    requires PlainJoin(j) && WidthOk(prod) && |row| == |prod.shape| + 1
    ensures row in EvalJoin(j, prod, c).rows
      <==> row[..|prod.shape|] in prod.rows && LastHolds(j, prod.shape + [HeaderOf(j.arg, c)], c, row)
  {
    JoinMembers(j, prod, c, row);
  }

  lemma {:induction false} StartMember(j: Node, prod: Product, c: Context, row: seq<seq<Value>>, start: seq<seq<Value>>)
    requires PlainJoin(j) && WidthOk(prod) && |row| == |prod.shape| + 1 && start == row[..|prod.shape|]
    ensures row in EvalJoin(j, prod, c).rows
      <==> start in prod.rows && LastHolds(j, prod.shape + [HeaderOf(j.arg, c)], c, row)
  {
    JoinMember(j, prod, c, row);
  }

  lemma {:induction false} FirstMember(joins: seq<Node>, prod: Product, c: Context, row: seq<seq<Value>>)
    requires joins != [] && AllPlain(joins) && WidthOk(prod) && |row| == |prod.shape| + |joins|
    ensures row[..|prod.shape| + 1] in EvalJoin(joins[0], prod, c).rows
      <==> row[..|prod.shape|] in prod.rows && JoinHolds(joins, prod.shape, c, row, 0)
  {
    FirstJoin(joins, prod.shape, c, row);
    StartMember(joins[0], prod, c, row[..|prod.shape| + 1], row[..|prod.shape|]);
  }

  lemma {:induction false} JoinsStep(joins: seq<Node>, prod: Product, c: Context, row: seq<seq<Value>>)
    requires joins != [] && AllPlain(joins) && WidthOk(prod) && |row| == |prod.shape| + |joins|
    ensures row[..|prod.shape| + 1] in EvalJoin(joins[0], prod, c).rows
        && JoinsHold(joins[1..], prod.shape + [HeaderOf(joins[0].arg, c)], c, row)
      <==> row[..|prod.shape|] in prod.rows && JoinsHold(joins, prod.shape, c, row)
  {
    FirstMember(joins, prod, c, row);
    JoinsHoldSplit(joins, prod.shape, c, row);
  }

  lemma {:induction false} NoJoins(shape: seq<Header>, rows: seq<seq<seq<Value>>>, c: Context, row: seq<seq<Value>>)
    requires forall r :: r in rows ==> |r| == |shape|
    ensures row in rows <==> |row| == |shape| && row[..|shape|] in rows
    ensures |row| == |shape| ==> JoinsHold([], shape, c, row)
  {
    assert |row| == |shape| ==> row[..|shape|] == row;
  }

  /** The rows of a chain of plain joins are the combinations of source rows that satisfy every ON. */
  lemma {:induction false} JoinsMembers(joins: seq<Node>, prod: Product, c: Context, row: seq<seq<Value>>)
    requires AllPlain(joins) && WidthOk(prod)
    ensures EvalJoins(joins, prod, c).shape == JoinedShape(joins, prod.shape, c)
    ensures row in EvalJoins(joins, prod, c).rows <==>
      |row| == |prod.shape| + |joins| && row[..|prod.shape|] in prod.rows && JoinsHold(joins, prod.shape, c, row)
    decreases |joins|
  {
    if joins == [] {
      NoJoins(prod.shape, prod.rows, c, row);
    } else {
      JoinWidth(joins[0], prod, c);
      JoinsMembers(joins[1..], EvalJoin(joins[0], prod, c), c, row);
      if |row| == |prod.shape| + |joins| {
        JoinsStep(joins, prod, c, row);
      }
    }
  }

  // ---------------------------------------------------------------- the rows of a SELECT

  /** A SELECT over plain joins whose relations have distinct labels. */
  ghost predicate PlainSelect(n: Node) {
    && n.Select?
    && n.from.Some? && n.from.value.From?
    && (n.where.Some? ==> n.where.value.Where?)
    && AllPlain(n.joins)
    && (forall i, k :: 0 <= i < k < |Sources(n)| ==> RelationLabel(Sources(n)[i]) != RelationLabel(Sources(n)[k]))
    && (forall i :: 0 <= i < |Sources(n)| ==> RelationLabel(Sources(n)[i]) != "")
  }

  function JoinArgs(joins: seq<Node>): (r: seq<Node>)
    ensures AllPlain(joins) ==> |r| == |joins| && forall i :: 0 <= i < |joins| ==> r[i] == joins[i].arg
  {
    if joins == [] then [] else (if joins[0].Join? then [joins[0].arg] else []) + JoinArgs(joins[1..])
  }

  /** The relations of a SELECT, in FROM order. */
  function Sources(n: Node): seq<Node>
    requires n.Select? && n.from.Some? && n.from.value.From?
  {
    [n.from.value.arg] + JoinArgs(n.joins)
  }

  /** The sources in scope once the first `k` joins are made. */
  ghost function ShapeUpTo(n: Node, c: Context, k: nat): seq<Header>
    requires PlainSelect(n) && k <= |n.joins|
  {
    JoinedShape(n.joins[..k], [HeaderOf(n.from.value.arg, c)], c)
  }

  lemma {:induction false} ShapeLabels(n: Node, c: Context, k: nat)
    requires PlainSelect(n) && k <= |n.joins|
    ensures |ShapeUpTo(n, c, k)| == k + 1
    ensures forall i :: 0 <= i <= k ==> ShapeUpTo(n, c, k)[i] == HeaderOf(Sources(n)[i], c)
  {
    var first := [HeaderOf(n.from.value.arg, c)];
    JoinedShapeSize(n.joins[..k], first, c);
    forall i | 0 <= i <= k
      ensures ShapeUpTo(n, c, k)[i] == HeaderOf(Sources(n)[i], c)
    {
      if i == 0 {
        assert ShapeUpTo(n, c, k)[..1][0] == ShapeUpTo(n, c, k)[0];
      } else {
        assert ShapeUpTo(n, c, k)[1 + (i - 1)] == HeaderOf(n.joins[..k][i - 1].arg, c);
      }
    }
  }

  /** A combination of source rows that satisfies every ON and WHERE. */
  ghost predicate IsRow(n: Node, c: Context, row: seq<seq<Value>>)
    requires PlainSelect(n)
  {
    && |row| == |n.joins| + 1
    && (forall i :: 0 <= i < |row| ==> row[i] in EvalSource(Sources(n)[i], c).rows)
    && (forall k :: 0 <= k < |n.joins| ==> OnTrue(n.joins[k], ShapeUpTo(n, c, k + 1), row[..k + 2], c))
    && (n.where.Some? ==> EvalTruth(n.where.value.arg, Within(c, ShapeUpTo(n, c, |n.joins|), row)) == True)
  }

  lemma {:induction false} KeptMembers(where: Option<Node>, shape: seq<Header>, rows: seq<seq<seq<Value>>>,
        c: Context, row: seq<seq<Value>>)
    requires where.Some? ==> where.value.Where?
    ensures row in Kept(where, shape, rows, c) <==>
      row in rows && (where.Some? ==> EvalTruth(where.value.arg, Within(c, shape, row)) == True)
    decreases |rows|
  {
    if rows != [] {
      KeptMembers(where, shape, rows[1..], c, row);
    }
  }

  /** The rows a plain SELECT projects are exactly these combinations. */
  lemma {:induction false} SourceRowsMembers(n: Node, c: Context, row: seq<seq<Value>>)
    requires PlainSelect(n)
    ensures SourceRows(n, c).shape == ShapeUpTo(n, c, |n.joins|)
    ensures row in SourceRows(n, c).rows <==> IsRow(n, c, row)
  {
    var prod := EvalJoins(n.joins, EvalFirst(n.from, c), c);
    ProductMembers(n, c, row);
    KeptMembers(n.where, prod.shape, prod.rows, c, row);
  }

  /** The rows before WHERE. */
  lemma {:induction false} ProductMembers(n: Node, c: Context, row: seq<seq<Value>>)
    requires PlainSelect(n)
    ensures EvalJoins(n.joins, EvalFirst(n.from, c), c).shape == ShapeUpTo(n, c, |n.joins|)
    ensures row in EvalJoins(n.joins, EvalFirst(n.from, c), c).rows <==>
      && |row| == |n.joins| + 1
      && (forall i :: 0 <= i < |row| ==> row[i] in EvalSource(Sources(n)[i], c).rows)
      && (forall k :: 0 <= k < |n.joins| ==> OnTrue(n.joins[k], ShapeUpTo(n, c, k + 1), row[..k + 2], c))
  {
    var first := EvalFirst(n.from, c);
    assert first.shape == [HeaderOf(n.from.value.arg, c)];
    assert n.joins[..|n.joins|] == n.joins;
    JoinsMembers(n.joins, first, c, row);
    if |row| == |n.joins| + 1 {
      FirstRow(first, EvalSource(n.from.value.arg, c).rows, row);
      RowParts(n, c, row);
    }
  }

  lemma {:induction false} FirstRow(first: Product, rows: seq<seq<Value>>, row: seq<seq<Value>>)
    requires first.rows == WrapRows(rows) && |row| >= 1
    ensures row[..1] in first.rows <==> row[0] in rows
  {
    if row[..1] in first.rows {
      var i :| 0 <= i < |first.rows| && first.rows[i] == row[..1];
      assert first.rows[i][0] == rows[i] && row[..1][0] == row[0];
    }
    if row[0] in rows {
      var i :| 0 <= i < |rows| && rows[i] == row[0];
      assert first.rows[i] == row[..1];
    }
  }

  lemma {:induction false} RowPart(n: Node, c: Context, row: seq<seq<Value>>, k: nat)
    requires PlainSelect(n) && |row| == |n.joins| + 1 && k < |n.joins|
    ensures JoinHolds(n.joins, [HeaderOf(n.from.value.arg, c)], c, row, k) <==>
      row[k + 1] in EvalSource(Sources(n)[k + 1], c).rows && OnTrue(n.joins[k], ShapeUpTo(n, c, k + 1), row[..k + 2], c)
  {
    assert Sources(n)[k + 1] == n.joins[k].arg;
    JoinHoldsMeans(n.joins, HeaderOf(n.from.value.arg, c), c, row, k);
  }

  lemma {:induction false} JoinHoldsMeans(joins: seq<Node>, h: Header, c: Context, row: seq<seq<Value>>, k: nat)
    requires k < |joins| && AllPlain(joins) && |row| == |joins| + 1
    ensures JoinHolds(joins, [h], c, row, k) <==>
      row[k + 1] in EvalSource(joins[k].arg, c).rows
          && OnTrue(joins[k], JoinedShape(joins[..k + 1], [h], c), row[..k + 2], c)
  {
  }

  lemma {:induction false} RowParts(n: Node, c: Context, row: seq<seq<Value>>)
    requires PlainSelect(n) && |row| == |n.joins| + 1
    ensures JoinsHold(n.joins, [HeaderOf(n.from.value.arg, c)], c, row) <==>
      && (forall i :: 1 <= i < |row| ==> row[i] in EvalSource(Sources(n)[i], c).rows)
      && (forall k :: 0 <= k < |n.joins| ==> OnTrue(n.joins[k], ShapeUpTo(n, c, k + 1), row[..k + 2], c))
  {
    var base := [HeaderOf(n.from.value.arg, c)];
    forall k | 0 <= k < |n.joins|
      ensures JoinHolds(n.joins, base, c, row, k) <==>
        row[k + 1] in EvalSource(Sources(n)[k + 1], c).rows
            && OnTrue(n.joins[k], ShapeUpTo(n, c, k + 1), row[..k + 2], c)
    {
      RowPart(n, c, row, k);
    }
    if JoinsHold(n.joins, base, c, row) {
      forall i | 1 <= i < |row|
        ensures row[i] in EvalSource(Sources(n)[i], c).rows
      {
        assert JoinHolds(n.joins, base, c, row, i - 1);
      }
    }
  }

  // ---------------------------------------------------------------- equalities in a row

  lemma {:induction false} ConjunctsTrue(p: Node, c: Context, q: Node)
    requires EvalTruth(p, c) == True && q in Conjuncts(p)
    ensures EvalTruth(q, c) == True
    decreases p
  {
    match p
    case Paren(e) => ConjunctsTrue(e, c, q);
    case And(l, r) =>
      if q in Conjuncts(r) {
        ConjunctsTrue(r, c, q);
      } else {
        ConjunctsTrue(l, c, q);
      }
    case _ =>
  }

  /** `AND`, parentheses and equalities of a column with a column or a literal, nothing else. */
  predicate Pure(p: Node) {
    match p
    case Paren(q) => Pure(q)
    case And(l, r) => Pure(l) && Pure(r)
    case Cmp(Eq, l, r) => Simple(l) && Simple(r)
    case _ => false
  }

  predicate Simple(e: Node) {
    (e.Column? && e.table != "") || e.Number? || e.Text? || e.Boolean? || e.Null?
  }

  lemma {:induction false} PureTrue(p: Node, c: Context)
    requires Pure(p) && forall q :: q in Conjuncts(p) ==> EvalTruth(q, c) == True
    ensures EvalTruth(p, c) == True
    decreases p
  {
    match p
    case Paren(e) => PureTrue(e, c);
    case And(l, r) => PureTrue(l, c); PureTrue(r, c);
    case Cmp(_, _, _) => assert p in Conjuncts(p);
  }

  lemma {:induction false} PureConjunct(p: Node, q: Node)
    requires Pure(p) && q in Conjuncts(p)
    ensures q.Cmp? && q.op == Eq && Simple(q.left) && Simple(q.right)
    decreases p
  {
    match p
    case Paren(e) => PureConjunct(e, q);
    case And(l, r) => if q in Conjuncts(r) { PureConjunct(r, q); } else { PureConjunct(l, q); }
    case Cmp(_, _, _) =>
  }

  /** A qualified column, when its qualifier is source `i` of the row. */
  lemma {:induction false} LookupAt(c: Context, shape: seq<Header>, row: seq<seq<Value>>, q: string, name: string,
        i: nat)
    requires q != "" && |row| == |shape| && i < |shape| && FindLabel(shape, q) == i
    ensures EvalExpr(Column(q, name), Within(c, shape, row)) == Field(shape[i].cols, row[i], name)
  {
  }

  lemma {:induction false} LookupOutside(c: Context, shape: seq<Header>, row: seq<seq<Value>>, q: string, name: string)
    requires q != "" && FindLabel(shape, q) == |shape|
    ensures EvalExpr(Column(q, name), Within(c, shape, row)) == LookupQualified(c.env, q, name)
  {
    var e := Within(c, shape, row).env;
    assert e[1..] == c.env;
  }

  /** Two rows that agree on the source called `q` (if any) give `q.name` the same value. */
  lemma {:induction false} ColumnAgrees(c: Context, shape: seq<Header>, a: seq<seq<Value>>, b: seq<seq<Value>>,
        q: string, name: string)
    requires q != "" && |a| == |b| == |shape|
    requires FindLabel(shape, q) < |shape| ==> a[FindLabel(shape, q)] == b[FindLabel(shape, q)]
    ensures EvalExpr(Column(q, name), Within(c, shape, a)) == EvalExpr(Column(q, name), Within(c, shape, b))
  {
    var i := FindLabel(shape, q);
    if i < |shape| {
      LookupAt(c, shape, a, q, name, i);
      LookupAt(c, shape, b, q, name, i);
    } else {
      LookupOutside(c, shape, a, q, name);
      LookupOutside(c, shape, b, q, name);
    }
  }

  // ---------------------------------------------------------------- links that hold in a row

  /** `q` is an AND-connected equality of ON clause `k`, or of WHERE (`k` is the number of joins). */
  ghost predicate EqualityAt(n: Node, q: Node, k: nat)
    requires PlainSelect(n) && k <= |n.joins|
  {
    if k < |n.joins| then n.joins[k].on.Some? && q in Conjuncts(n.joins[k].on.value)
    else n.where.Some? && q in Conjuncts(n.where.value.arg)
  }

  /** No ON equality uses a relation that is joined only later. */
  ghost predicate OnScoped(n: Node)
    requires PlainSelect(n)
  {
    forall q, k :: 0 <= k < |n.joins| && EqualityAt(n, q, k) && EdgeOf(q).Some? ==>
      forall i :: k + 2 <= i < |Sources(n)| ==>
        AliasOrName(Sources(n)[i]) != q.left.table && AliasOrName(Sources(n)[i]) != q.right.table
  }

  ghost function RowContext(n: Node, c: Context, row: seq<seq<Value>>): Context
    requires PlainSelect(n)
  {
    Within(c, ShapeUpTo(n, c, |n.joins|), row)
  }

  /** Some column equality between `a` and `b` is TRUE in the row. */
  ghost predicate LinkTrue(n: Node, c: Context, row: seq<seq<Value>>, a: string, b: string)
    requires PlainSelect(n)
  {
    exists q, k :: 0 <= k <= |n.joins| && EqualityAt(n, q, k)
      && (EdgeOf(q) == Some((a, b)) || EdgeOf(q) == Some((b, a))) && EvalTruth(q, RowContext(n, c, row)) == True
  }

  lemma {:induction false} FindLabelPrefix(shape: seq<Header>, q: string, m: nat)
    requires m <= |shape|
    ensures FindLabel(shape[..m], q) < m ==> FindLabel(shape, q) == FindLabel(shape[..m], q)
    ensures FindLabel(shape[..m], q) == m ==>
      FindLabel(shape, q) == |shape| || exists i :: m <= i < |shape| && shape[i].alias == q
  {
    var i, k := FindLabel(shape, q), FindLabel(shape[..m], q);
    if k < m {
      assert shape[..m][k] == shape[k];
      assert i <= k;
      assert forall j :: 0 <= j < k ==> shape[..m][j] == shape[j];
    } else {
      assert forall j :: 0 <= j < m ==> shape[..m][j] == shape[j];
    }
  }

  /** A column of an earlier relation keeps its value when further relations are joined. */
  lemma {:induction false} ColumnStays(n: Node, c: Context, row: seq<seq<Value>>, k: nat, q: string, name: string)
    requires PlainSelect(n) && k <= |n.joins| && |row| == |n.joins| + 1 && q != ""
    requires forall i :: k + 1 <= i < |Sources(n)| ==> AliasOrName(Sources(n)[i]) != q
    ensures EvalExpr(Column(q, name), Within(c, ShapeUpTo(n, c, k), row[..k + 1]))
        == EvalExpr(Column(q, name), RowContext(n, c, row))
  {
    var full, part := ShapeUpTo(n, c, |n.joins|), ShapeUpTo(n, c, k);
    ShapeLabels(n, c, |n.joins|);
    ShapeLabels(n, c, k);
    assert part == full[..k + 1];
    FindLabelPrefix(full, q, k + 1);
    var i := FindLabel(part, q);
    if i < |part| {
      LookupAt(c, part, row[..k + 1], q, name, i);
      LookupAt(c, full, row, q, name, i);
    } else {
      LookupOutside(c, part, row[..k + 1], q, name);
      LookupOutside(c, full, row, q, name);
    }
  }

  /** An equality has the same truth value where both its sides have the same values. */
  lemma {:induction false} CmpSame(q: Node, c1: Context, c2: Context)
    requires q.Cmp? && EvalExpr(q.left, c1) == EvalExpr(q.left, c2) && EvalExpr(q.right, c1) == EvalExpr(q.right, c2)
    ensures EvalTruth(q, c1) == EvalTruth(q, c2)
  {
  }

  lemma {:induction false} TrueColumns(q: Node, c: Context)
    requires EdgeOf(q).Some? && EvalTruth(q, c) == True
    ensures q.Cmp? && q.left.Column? && q.right.Column? && q.left.table != "" && q.right.table != ""
  {
    assert EvalTruth(q, c) == Compare(q.op, EvalExpr(q.left, c), EvalExpr(q.right, c));
    assert !EvalExpr(q.left, c).VNull? && !EvalExpr(q.right, c).VNull?;
  }

  lemma {:induction false} OnEqualityTrue(n: Node, c: Context, row: seq<seq<Value>>, q: Node, k: nat)
    requires PlainSelect(n) && |row| == |n.joins| + 1 && k < |n.joins| && n.joins[k].on.Some?
        && q in Conjuncts(n.joins[k].on.value)
    requires EdgeOf(q).Some? && EvalTruth(n.joins[k].on.value, Within(c, ShapeUpTo(n, c, k + 1), row[..k + 2])) == True
    requires forall i :: k + 2 <= i < |Sources(n)| ==>
        AliasOrName(Sources(n)[i]) != q.left.table && AliasOrName(Sources(n)[i]) != q.right.table
    ensures EvalTruth(q, RowContext(n, c, row)) == True
  {
    var ctx := Within(c, ShapeUpTo(n, c, k + 1), row[..k + 2]);
    ConjunctsTrue(n.joins[k].on.value, ctx, q);
    TrueColumns(q, ctx);
    ColumnStays(n, c, row, k + 1, q.left.table, q.left.name);
    ColumnStays(n, c, row, k + 1, q.right.table, q.right.name);
    CmpSame(q, ctx, RowContext(n, c, row));
  }

  lemma {:induction false} EqualityTrue(n: Node, c: Context, row: seq<seq<Value>>, q: Node, k: nat)
    requires PlainSelect(n) && OnScoped(n) && IsRow(n, c, row) && k <= |n.joins| && EqualityAt(n, q, k)
        && EdgeOf(q).Some?
    ensures EvalTruth(q, RowContext(n, c, row)) == True
  {
    if k < |n.joins| {
      assert OnTrue(n.joins[k], ShapeUpTo(n, c, k + 1), row[..k + 2], c);
      OnEqualityTrue(n, c, row, q, k);
    } else {
      ConjunctsTrue(n.where.value.arg, RowContext(n, c, row), q);
    }
  }

  // ---------------------------------------------------------------- edges and labels

  lemma {:induction false} EdgesOfOrigin(eqs: seq<Node>, e: (string, string))
    ensures e in EdgesOf(eqs) <==> exists q :: q in eqs && EdgeOf(q) == Some(e)
    decreases |eqs|
  {
    if eqs != [] {
      EdgesOfOrigin(eqs[1..], e);
    }
  }

  lemma {:induction false} PredicateEdgesOrigin(pred: Option<Node>, e: (string, string))
    ensures e in PredicateEdges(pred) ==> pred.Some? && exists q :: q in Conjuncts(pred.value) && EdgeOf(q) == Some(e)
    ensures pred.Some? && Visits(pred.value) <= NODE_BUDGET ==>
      (exists q :: q in Conjuncts(pred.value) && EdgeOf(q) == Some(e)) ==> e in PredicateEdges(pred)
  {
    if pred.Some? {
      AndEqualitiesExact(pred.value);
      EdgesOfOrigin(Worklist([pred.value], NODE_BUDGET), e);
    }
  }

  lemma {:induction false} JoinEdgesOrigin(joins: seq<Node>, base: string, e: (string, string))
    requires AllPlain(joins)
    ensures e in JoinEdges(joins, base) <==> exists k :: 0 <= k < |joins| && e in PredicateEdges(joins[k].on)
    decreases |joins|
  {
    if joins != [] {
      JoinEdgesOrigin(joins[1..], base, e);
      assert UsingEdges(joins[0].using, RelationLabel(joins[0].arg), base) == [];
      if k :| 0 <= k < |joins| && e in PredicateEdges(joins[k].on) {
        if k > 0 {
          assert joins[1..][k - 1] == joins[k];
        }
      }
      if k :| 0 <= k < |joins[1..]| && e in PredicateEdges(joins[1..][k].on) {
        assert joins[k + 1] == joins[1..][k];
      }
    }
  }

  ghost function DrawnLinks(n: Node): seq<(string, string)>
    requires PlainSelect(n)
  {
    SelectEdges(n.from, n.joins, n.where)
  }

  /** Every link the check draws comes from an AND-connected equality. */
  lemma {:induction false} LinkOrigin(n: Node, e: (string, string))
    requires PlainSelect(n) && e in DrawnLinks(n)
    ensures exists q, k :: 0 <= k <= |n.joins| && EqualityAt(n, q, k) && EdgeOf(q) == Some(e)
  {
    JoinEdgesOrigin(n.joins, BaseLabel(n.from), e);
    if e in JoinEdges(n.joins, BaseLabel(n.from)) {
      var k :| 0 <= k < |n.joins| && e in PredicateEdges(n.joins[k].on);
      PredicateEdgesOrigin(n.joins[k].on, e);
      var q :| q in Conjuncts(n.joins[k].on.value) && EdgeOf(q) == Some(e);
      assert EqualityAt(n, q, k);
    } else {
      PredicateEdgesOrigin(FilterOf(n.where), e);
      var q :| q in Conjuncts(n.where.value.arg) && EdgeOf(q) == Some(e);
      assert EqualityAt(n, q, |n.joins|);
    }
  }

  ghost function LabelSet(n: Node): set<string>
    requires PlainSelect(n)
  {
    LabelsOf(Relations(n.from, n.joins))
  }

  lemma {:induction false} LabelsOfMembers(rels: seq<Node>, x: string)
    ensures x in LabelsOf(rels) <==> x != "" && exists i :: 0 <= i < |rels| && RelationLabel(rels[i]) == x
    decreases |rels|
  {
    if rels != [] {
      LabelsOfMembers(rels[1..], x);
      if i :| 0 <= i < |rels| && RelationLabel(rels[i]) == x {
        if i > 0 {
          assert rels[1..][i - 1] == rels[i];
        }
      }
      if i :| 0 <= i < |rels[1..]| && RelationLabel(rels[1..][i]) == x {
        assert rels[i + 1] == rels[1..][i];
      }
    }
  }

  lemma {:induction false} JoinRelationsPlain(joins: seq<Node>)
    requires AllPlain(joins)
    ensures JoinRelations(joins) == JoinArgs(joins)
    decreases |joins|
  {
    if joins != [] {
      JoinRelationsPlain(joins[1..]);
    }
  }

  lemma {:induction false} LabelsAreSources(n: Node, x: string)
    requires PlainSelect(n)
    ensures Relations(n.from, n.joins) == Sources(n)
    ensures x in LabelSet(n) <==> exists i :: 0 <= i < |Sources(n)| && RelationLabel(Sources(n)[i]) == x
  {
    JoinRelationsPlain(n.joins);
    LabelsOfMembers(Sources(n), x);
  }

  // ---------------------------------------------------------------- no violation

  /** A chain of column equalities, each TRUE in the row, from `x` to `y`. */
  ghost predicate RowPath(p: seq<string>, n: Node, c: Context, row: seq<seq<Value>>, x: string, y: string)
    requires PlainSelect(n)
  {
    && p != []
    && p[0] == x
    && p[|p| - 1] == y
    && forall i {:trigger p[i + 1]} :: 0 <= i < |p| - 1 ==> LinkTrue(n, c, row, p[i], p[i + 1])
  }

  lemma {:induction false} EdgeTrue(n: Node, c: Context, row: seq<seq<Value>>, a: string, b: string)
    requires PlainSelect(n) && OnScoped(n) && IsRow(n, c, row) && Edge(DrawnLinks(n), a, b)
    ensures LinkTrue(n, c, row, a, b)
  {
    var e := if (a, b) in DrawnLinks(n) then (a, b) else (b, a);
    LinkOrigin(n, e);
    var q, k :| 0 <= k <= |n.joins| && EqualityAt(n, q, k) && EdgeOf(q) == Some(e);
    EqualityTrue(n, c, row, q, k);
  }

  lemma {:induction false} PathTrue(n: Node, c: Context, row: seq<seq<Value>>, p: seq<string>, x: string, y: string)
    requires PlainSelect(n) && OnScoped(n) && IsRow(n, c, row) && IsPath(p, DrawnLinks(n), x, y)
    ensures RowPath(p, n, c, row, x, y)
  {
    forall i {:trigger p[i + 1]} | 0 <= i < |p| - 1
      ensures LinkTrue(n, c, row, p[i], p[i + 1])
    {
      assert Step(p, DrawnLinks(n), i);
      EdgeTrue(n, c, row, p[i], p[i + 1]);
    }
  }

  /** Some two relations are joined by no chain of the equalities the check draws. */
  ghost predicate Apart(n: Node)
    requires PlainSelect(n)
  {
    exists x, y :: x in LabelSet(n) && y in LabelSet(n) && !Linked(DrawnLinks(n), x, y)
  }

  lemma {:induction false} FewLabelsTogether(n: Node)
    requires PlainSelect(n) && |LabelSet(n)| < 2
    ensures !Apart(n)
  {
    forall x, y | x in LabelSet(n) && y in LabelSet(n)
      ensures Linked(DrawnLinks(n), x, y)
    {
      AtMostOne(LabelSet(n), x, y);
      LinkedRefl(DrawnLinks(n), x);
    }
  }

  lemma {:induction false} ManySourcesManyLabels(n: Node)
    requires PlainSelect(n)
    ensures |LabelSet(n)| < 2 ==> |Sources(n)| < 2
  {
    if |Sources(n)| >= 2 {
      TwoLabels(n);
    }
  }

  /** The check's test, read back: a comma or CROSS JOIN, and two relations apart. */
  lemma {:induction false} FlaggedExactly(n: Node)
    requires PlainSelect(n)
    ensures Flagged(n.from, n.joins, n.where) <==> AnyCandidate(n.joins) && Apart(n)
  {
    ManySourcesManyLabels(n);
    LabelsAreSources(n, "");
    if |LabelSet(n)| < 2 {
      FewLabelsTogether(n);
    } else {
      OneComponent(DrawnLinks(n), LabelSet(n));
    }
  }

  /** The verdict is right about a SELECT when it is flagged exactly if two relations are apart. */
  ghost predicate VerdictRight(n: Node)
    requires PlainSelect(n)
  {
    Flagged(n.from, n.joins, n.where) <==> Apart(n)
  }

  /** The verdict is right exactly on the SELECTs with a comma or CROSS JOIN, and on those with nothing apart. */
  lemma {:induction false} VerdictRightExactly(n: Node)
    requires PlainSelect(n)
    ensures VerdictRight(n) <==> AnyCandidate(n.joins) || !Apart(n)
  {
    FlaggedExactly(n);
  }

  /** Where nothing is apart, in every row any two relations are linked by column equalities TRUE in it. */
  lemma {:induction false} TogetherMeansLinked(n: Node, c: Context, row: seq<seq<Value>>, x: string, y: string)
    requires PlainSelect(n) && OnScoped(n) && !Apart(n)
    requires row in SourceRows(n, c).rows && x in LabelSet(n) && y in LabelSet(n)
    ensures exists p :: RowPath(p, n, c, row, x, y)
  {
    SourceRowsMembers(n, c, row);
    assert Linked(DrawnLinks(n), x, y);
    var p :| IsPath(p, DrawnLinks(n), x, y);
    PathTrue(n, c, row, p, x, y);
  }

  /**
   * No violation on a product candidate: in every row, any two relations are linked by a chain of
   * column equalities that are TRUE in that row.
   */
  lemma {:induction false} PassMeansLinked(n: Node, c: Context, row: seq<seq<Value>>, x: string, y: string)
    requires PlainSelect(n) && OnScoped(n) && AnyCandidate(n.joins) && !Flagged(n.from, n.joins, n.where)
    requires row in SourceRows(n, c).rows && x in LabelSet(n) && y in LabelSet(n)
    ensures exists p :: RowPath(p, n, c, row, x, y)
  {
    FlaggedExactly(n);
    TogetherMeansLinked(n, c, row, x, y);
  }

  // ---------------------------------------------------------------- a violation

  /** Every ON and WHERE is pure and fits the budget of the walk. */
  ghost predicate PureSelect(n: Node)
    requires PlainSelect(n)
  {
    && (forall k :: 0 <= k < |n.joins| && n.joins[k].on.Some? ==>
        Pure(n.joins[k].on.value) && Visits(n.joins[k].on.value) <= NODE_BUDGET)
    && (n.where.Some? ==> Pure(n.where.value.arg) && Visits(n.where.value.arg) <= NODE_BUDGET)
  }

  lemma {:induction false} EqualityDrawn(n: Node, q: Node, k: nat)
    requires PlainSelect(n) && PureSelect(n) && k <= |n.joins| && EqualityAt(n, q, k) && EdgeOf(q).Some?
    ensures EdgeOf(q).value in DrawnLinks(n)
  {
    var e := EdgeOf(q).value;
    JoinEdgesOrigin(n.joins, BaseLabel(n.from), e);
    if k < |n.joins| {
      PredicateEdgesOrigin(n.joins[k].on, e);
    } else {
      PredicateEdgesOrigin(FilterOf(n.where), e);
    }
  }

  /** Row `a` on the component of `x`, row `b` elsewhere. */
  ghost function Splice(n: Node, x: string, a: seq<seq<Value>>, b: seq<seq<Value>>): (r: seq<seq<Value>>)
    requires PlainSelect(n) && |a| == |b| == |Sources(n)|
    ensures |r| == |a|
  {
    seq(|a|, i requires 0 <= i < |a| => if Linked(DrawnLinks(n), x, RelationLabel(Sources(n)[i])) then a[i] else b[i])
  }

  /** One equality, in a prefix of the spliced row and in the same prefix of the row it comes from. */
  lemma {:induction false} SplicedEquality(n: Node, c: Context, x: string, a: seq<seq<Value>>, b: seq<seq<Value>>,
        q: Node, k: nat, m: nat)
    requires PlainSelect(n) && PureSelect(n) && |a| == |b| == |Sources(n)| == |n.joins| + 1
    requires k <= |n.joins| && EqualityAt(n, q, k) && m <= |n.joins|
    requires EvalTruth(q, Within(c, ShapeUpTo(n, c, m), a[..m + 1])) == True
    requires EvalTruth(q, Within(c, ShapeUpTo(n, c, m), b[..m + 1])) == True
    ensures EvalTruth(q, Within(c, ShapeUpTo(n, c, m), Splice(n, x, a, b)[..m + 1])) == True
  {
    QualifierShape(n, q, k);
    if q.left.Column? {
      SidesAgree(n, c, x, a, b, q, q.left.table, k, m);
    } else if q.right.Column? {
      SidesAgree(n, c, x, a, b, q, q.right.table, k, m);
    } else {
      SideValue(n, c, x, a, b, q.left, true, m);
      SideValue(n, c, x, a, b, q.right, true, m);
      CmpSame(q, Within(c, ShapeUpTo(n, c, m), Splice(n, x, a, b)[..m + 1]), Within(c, ShapeUpTo(n, c, m), a[..m + 1]));
    }
  }

  lemma {:induction false} QualifierShape(n: Node, q: Node, k: nat)
    requires PlainSelect(n) && PureSelect(n) && k <= |n.joins| && EqualityAt(n, q, k)
    ensures q.Cmp? && q.op == Eq && Simple(q.left) && Simple(q.right)
  {
    if k < |n.joins| {
      PureConjunct(n.joins[k].on.value, q);
    } else {
      PureConjunct(n.where.value.arg, q);
    }
  }

  /** Both columns of an equality come from the same one of the two rows. */
  lemma {:induction false} SidesAgree(n: Node, c: Context, x: string, a: seq<seq<Value>>, b: seq<seq<Value>>, q: Node,
        pivot: string, k: nat, m: nat)
    requires PlainSelect(n) && PureSelect(n) && |a| == |b| == |Sources(n)| == |n.joins| + 1
    requires k <= |n.joins| && EqualityAt(n, q, k) && m <= |n.joins|
    requires q.Cmp? && q.op == Eq && Simple(q.left) && Simple(q.right)
    requires (q.left.Column? && pivot == q.left.table) || (!q.left.Column? && q.right.Column? && pivot == q.right.table)
    ensures EvalTruth(q, Within(c, ShapeUpTo(n, c, m), Splice(n, x, a, b)[..m + 1]))
      == EvalTruth(q, Within(c, ShapeUpTo(n, c, m), (if Linked(DrawnLinks(n), x, Lower(pivot)) then a else b)[..m + 1]))
  {
    var first := Linked(DrawnLinks(n), x, Lower(pivot));
    if q.left.Column? && q.right.Column? {
      SameSide(n, x, q, k);
    }
    SideValue(n, c, x, a, b, q.left, first, m);
    SideValue(n, c, x, a, b, q.right, first, m);
    CmpSame(q, Within(c, ShapeUpTo(n, c, m), Splice(n, x, a, b)[..m + 1]),
            Within(c, ShapeUpTo(n, c, m), (if first then a else b)[..m + 1]));
  }

  lemma {:induction false} SameSide(n: Node, x: string, q: Node, k: nat)
    requires PlainSelect(n) && PureSelect(n) && k <= |n.joins| && EqualityAt(n, q, k)
    requires q.Cmp? && q.left.Column? && q.right.Column? && q.left.table != "" && q.right.table != ""
    ensures Linked(DrawnLinks(n), x, Lower(q.left.table)) <==> Linked(DrawnLinks(n), x, Lower(q.right.table))
  {
    var l, r := Lower(q.left.table), Lower(q.right.table);
    if l != r {
      EqualityDrawn(n, q, k);
      LinkedEdge(DrawnLinks(n), l, r);
      LinkedEdge(DrawnLinks(n), r, l);
      if Linked(DrawnLinks(n), x, l) {
        LinkedTrans(DrawnLinks(n), x, l, r);
      }
      if Linked(DrawnLinks(n), x, r) {
        LinkedTrans(DrawnLinks(n), x, r, l);
      }
    }
  }

  /** A simple operand has the same value in the spliced row and in the row its side comes from. */
  lemma {:induction false} SideValue(n: Node, c: Context, x: string, a: seq<seq<Value>>, b: seq<seq<Value>>, e: Node,
        first: bool, m: nat)
    requires PlainSelect(n) && |a| == |b| == |Sources(n)| == |n.joins| + 1 && m <= |n.joins|
    requires Simple(e) && (e.Column? ==> (first <==> Linked(DrawnLinks(n), x, Lower(e.table))))
    ensures EvalExpr(e, Within(c, ShapeUpTo(n, c, m), Splice(n, x, a, b)[..m + 1]))
      == EvalExpr(e, Within(c, ShapeUpTo(n, c, m), (if first then a else b)[..m + 1]))
  {
    if e.Column? {
      var shape, s, r := ShapeUpTo(n, c, m), Splice(n, x, a, b), if first then a else b;
      ShapeLabels(n, c, m);
      var i := FindLabel(shape, e.table);
      if i < |shape| {
        assert RelationLabel(Sources(n)[i]) == Lower(e.table);
        assert s[..m + 1][i] == s[i] && r[..m + 1][i] == r[i];
      }
      ColumnAgrees(c, shape, s[..m + 1], r[..m + 1], e.table, e.name);
    }
  }

  lemma {:induction false} SplicedFilter(n: Node, c: Context, x: string, a: seq<seq<Value>>, b: seq<seq<Value>>,
        p: Node, k: nat, m: nat)
    requires PlainSelect(n) && PureSelect(n) && |a| == |b| == |Sources(n)| == |n.joins| + 1
    requires k <= |n.joins| && m <= |n.joins| && Pure(p) && forall q :: q in Conjuncts(p) ==> EqualityAt(n, q, k)
    requires EvalTruth(p, Within(c, ShapeUpTo(n, c, m), a[..m + 1])) == True
    requires EvalTruth(p, Within(c, ShapeUpTo(n, c, m), b[..m + 1])) == True
    ensures EvalTruth(p, Within(c, ShapeUpTo(n, c, m), Splice(n, x, a, b)[..m + 1])) == True
  {
    var ca, cb := Within(c, ShapeUpTo(n, c, m), a[..m + 1]), Within(c, ShapeUpTo(n, c, m), b[..m + 1]);
    var cs := Within(c, ShapeUpTo(n, c, m), Splice(n, x, a, b)[..m + 1]);
    forall q | q in Conjuncts(p)
      ensures EvalTruth(q, cs) == True
    {
      ConjunctsTrue(p, ca, q);
      ConjunctsTrue(p, cb, q);
      SplicedEquality(n, c, x, a, b, q, k, m);
    }
    PureTrue(p, cs);
  }

  lemma {:induction false} SplicedRow(n: Node, c: Context, x: string, a: seq<seq<Value>>, b: seq<seq<Value>>)
    requires PlainSelect(n) && PureSelect(n) && IsRow(n, c, a) && IsRow(n, c, b)
    ensures |Sources(n)| == |a| == |b| && IsRow(n, c, Splice(n, x, a, b))
  {
    var s := Splice(n, x, a, b);
    forall k | 0 <= k < |n.joins|
      ensures OnTrue(n.joins[k], ShapeUpTo(n, c, k + 1), s[..k + 2], c)
    {
      if n.joins[k].on.Some? {
        assert OnTrue(n.joins[k], ShapeUpTo(n, c, k + 1), a[..k + 2], c);
        assert OnTrue(n.joins[k], ShapeUpTo(n, c, k + 1), b[..k + 2], c);
        SplicedFilter(n, c, x, a, b, n.joins[k].on.value, k, k + 1);
      }
    }
    if n.where.Some? {
      assert a[..|n.joins| + 1] == a && b[..|n.joins| + 1] == b && s[..|n.joins| + 1] == s;
      SplicedFilter(n, c, x, a, b, n.where.value.arg, |n.joins|, |n.joins|);
    }
  }

  /** The splice of two rows is a row. */
  ghost predicate SplicesIn(n: Node, c: Context, x: string, a: seq<seq<Value>>, b: seq<seq<Value>>)
    requires PlainSelect(n)
  {
    |a| == |b| == |Sources(n)| && Splice(n, x, a, b) in SourceRows(n, c).rows
  }

  lemma {:induction false} SplicedMember(n: Node, c: Context, x: string, a: seq<seq<Value>>, b: seq<seq<Value>>)
    requires PlainSelect(n) && PureSelect(n) && a in SourceRows(n, c).rows && b in SourceRows(n, c).rows
    ensures SplicesIn(n, c, x, a, b)
  {
    SourceRowsMembers(n, c, a);
    SourceRowsMembers(n, c, b);
    SplicedRow(n, c, x, a, b);
    SourceRowsMembers(n, c, Splice(n, x, a, b));
  }

  /**
   * A violation on a pure SELECT: two of its relations are apart, and any two rows can be spliced
   * along a component boundary into another row.
   */
  lemma {:induction false} FlaggedMeansProduct(n: Node, c: Context)
    requires PlainSelect(n) && PureSelect(n) && Flagged(n.from, n.joins, n.where)
    ensures Apart(n)
    ensures forall x, a, b :: a in SourceRows(n, c).rows && b in SourceRows(n, c).rows ==> SplicesIn(n, c, x, a, b)
  {
    FlaggedExactly(n);
    AllSplice(n, c);
  }

  lemma {:induction false} AllSplice(n: Node, c: Context)
    requires PlainSelect(n) && PureSelect(n)
    ensures forall x, a, b :: a in SourceRows(n, c).rows && b in SourceRows(n, c).rows ==> SplicesIn(n, c, x, a, b)
  {
    forall x, a, b | a in SourceRows(n, c).rows && b in SourceRows(n, c).rows
      ensures SplicesIn(n, c, x, a, b)
    {
      SplicedMember(n, c, x, a, b);
    }
  }

  /**
   * What the check misses: without a comma or CROSS JOIN a pure SELECT whose relations are apart is
   * not flagged, although any two of its rows can be spliced into another row.
   */
  lemma {:induction false} MissedProduct(n: Node, c: Context)
    requires PlainSelect(n) && PureSelect(n) && !AnyCandidate(n.joins) && Apart(n)
    ensures !Flagged(n.from, n.joins, n.where)
    ensures forall x, a, b :: a in SourceRows(n, c).rows && b in SourceRows(n, c).rows ==> SplicesIn(n, c, x, a, b)
  {
    FlaggedExactly(n);
    AllSplice(n, c);
  }

  lemma {:induction false} TwoLabels(n: Node)
    requires PlainSelect(n) && |Sources(n)| >= 2
    ensures |LabelSet(n)| >= 2
  {
    var x, y := RelationLabel(Sources(n)[0]), RelationLabel(Sources(n)[1]);
    LabelsAreSources(n, x);
    LabelsAreSources(n, y);
    assert {x, y} <= LabelSet(n);
    assert LabelSet(n) == {x, y} + (LabelSet(n) - {x, y});
  }

  /** The shortest miss: `a JOIN b ON TRUE` passes although every combination of their rows is a row. */
  lemma {:induction false} OnTrueJoinPasses(n: Node, a: Node, b: Node, c: Context, ra: seq<Value>, rb: seq<Value>)
    requires PlainSelect(n) && n.where.None? && n.from == Some(From(a))
    requires n.joins == [Join(b, "", "", "", Some(Boolean(true)), [])]
    requires ra in EvalSource(a, c).rows && rb in EvalSource(b, c).rows
    ensures !Flagged(n.from, n.joins, n.where)
    ensures [ra, rb] in SourceRows(n, c).rows
  {
    OneJoinSources(n, a, b);
    assert [ra, rb][0] == ra && [ra, rb][1] == rb;
    OnTrueMembers(n, a, b, c, ra, rb);
  }

  lemma {:induction false} OneJoinSources(n: Node, a: Node, b: Node)
    requires PlainSelect(n) && n.from == Some(From(a)) && n.joins == [Join(b, "", "", "", Some(Boolean(true)), [])]
    ensures Sources(n) == [a, b] && !AnyCandidate(n.joins)
  {
    assert n.joins[1..] == [];
    assert JoinArgs(n.joins) == [b] + JoinArgs([]);
  }

  lemma {:induction false} OnTrueMembers(n: Node, a: Node, b: Node, c: Context, ra: seq<Value>, rb: seq<Value>)
    requires PlainSelect(n) && n.where.None? && Sources(n) == [a, b]
        && n.joins == [Join(b, "", "", "", Some(Boolean(true)), [])]
    requires ra in EvalSource(a, c).rows && rb in EvalSource(b, c).rows
    ensures [ra, rb] in SourceRows(n, c).rows
  {
    SourceRowsMembers(n, c, [ra, rb]);
  }

  lemma {:induction false} CartesianOfExact(selects: seq<Node>)
    ensures CartesianOf(selects) == [] <==> forall n :: n in selects ==> !FlaggedSelect(n)
    decreases |selects|
  {
    if selects != [] {
      CartesianOfExact(selects[1..]);
    }
  }

  /** Every top-level SELECT is over plain joins of distinctly labelled relations. */
  ghost predicate PlainTop(stmt: Node) {
    forall n :: n in TopSelects(stmt) ==> PlainSelect(n)
  }

  /**
   * The check is silent exactly when it is off, or no top-level SELECT has both a comma or CROSS JOIN
   * and two relations that no chain of equalities links.
   */
  lemma {:induction false} CheckCartesianExact(stmt: Node, policy: GuardPolicy)
    requires PlainTop(stmt)
    ensures CheckCartesian(stmt, policy) == [] <==>
      policy.blockCartesian ==> forall n :: n in TopSelects(stmt) ==> !(AnyCandidate(n.joins) && Apart(n))
  {
    CartesianOfExact(TopSelects(stmt));
    forall n | n in TopSelects(stmt)
      ensures FlaggedSelect(n) <==> AnyCandidate(n.joins) && Apart(n)
    {
      FlaggedExactly(n);
    }
  }
}
