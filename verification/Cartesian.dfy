/** Unconstrained products: `check_cartesian`. */
module Cartesian {
  import opened Sequences
  import opened Syntax
  import opened Text
  import opened Policy
  import opened UnionFind

  const CARTESIAN := Violation("cartesian", Medium, BlockIt)

  const NODE_BUDGET: nat := 10000

  function TopSelects(stmt: Node): seq<Node> {
    match stmt
    case Select(_, _, _, _, _, _, _, _, _, _) => [stmt]
    case SetOp(_, _, _, l, r, _) => (if l.Select? then [l] else []) + (if r.Select? then [r] else [])
    case Subquery(q, _, _, _) => if q.Select? then [q] else []
    case _ => []
  }

  /** `_relation_label`; "" when there is none. */
  function RelationLabel(rel: Node): string {
    Lower(AliasOrName(rel))
  }

  // ---------------------------------------------------------------- the AND worklist

  /** What the worklist yields from `stack`, looking at no more than `budget` nodes. */
  function Worklist(stack: seq<Node>, budget: nat): seq<Node>
    decreases budget, |stack|
  {
    if stack == [] || budget == 0 then []
    else
      var n, rest := stack[|stack| - 1], stack[..|stack| - 1];
      match n
      case Paren(p) => Worklist(rest + [p], budget - 1)
      case And(l, r) => Worklist(rest + [l, r], budget - 1)
      case Cmp(Eq, _, _) => [n] + Worklist(rest, budget - 1)
      case _ => Worklist(rest, budget - 1)
  }

  /** `_and_equalities`. */
  method AndEqualities(pred: Node) returns (out: seq<Node>)
    ensures out == Worklist([pred], NODE_BUDGET)
  {
    out := [];
    var stack := [pred];
    var seen := 0;
    while stack != [] && seen < NODE_BUDGET
      invariant 0 <= seen <= NODE_BUDGET
      invariant out + Worklist(stack, NODE_BUDGET - seen) == Worklist([pred], NODE_BUDGET)
      decreases NODE_BUDGET - seen
    {
      var n := stack[|stack| - 1];
      stack := stack[..|stack| - 1];
      seen := seen + 1;
      if n.Paren? {
        stack := stack + [n.arg];
      } else if n.And? {
        stack := stack + [n.left, n.right];
      } else if n.Cmp? && n.op == Eq {
        out := out + [n];
      }
    }
  }

  /** The equalities joined to the root of a predicate by AND and parentheses only. */
  function Conjuncts(p: Node): seq<Node> {
    match p
    case Paren(q) => Conjuncts(q)
    case And(l, r) => Conjuncts(r) + Conjuncts(l)
    case Cmp(Eq, _, _) => [p]
    case _ => []
  }

  /** The number of nodes the walk looks at. */
  function Visits(p: Node): nat {
    match p
    case Paren(q) => 1 + Visits(q)
    case And(l, r) => 1 + Visits(l) + Visits(r)
    case _ => 1
  }

  function StackConjuncts(stack: seq<Node>): seq<Node> {
    if stack == [] then [] else Conjuncts(stack[|stack| - 1]) + StackConjuncts(stack[..|stack| - 1])
  }

  function StackVisits(stack: seq<Node>): nat {
    if stack == [] then 0 else Visits(stack[|stack| - 1]) + StackVisits(stack[..|stack| - 1])
  }

  lemma {:induction false} StackPush(stack: seq<Node>, n: Node)
    ensures StackConjuncts(stack + [n]) == Conjuncts(n) + StackConjuncts(stack)
    ensures StackVisits(stack + [n]) == Visits(n) + StackVisits(stack)
  {
    assert (stack + [n])[..|stack|] == stack;
  }

  lemma {:induction false} StackPushTwo(stack: seq<Node>, l: Node, r: Node)
    ensures StackConjuncts(stack + [l, r]) == Conjuncts(r) + Conjuncts(l) + StackConjuncts(stack)
    ensures StackVisits(stack + [l, r]) == Visits(r) + Visits(l) + StackVisits(stack)
  {
    StackPush(stack, l);
    StackPush(stack + [l], r);
    assert stack + [l] + [r] == stack + [l, r];
  }

  lemma {:induction false} TopParen(rest: seq<Node>, n: Node)
    requires n.Paren?
    ensures StackConjuncts(rest + [n]) == StackConjuncts(rest + [n.arg])
    ensures StackVisits(rest + [n]) == 1 + StackVisits(rest + [n.arg])
  {
    StackPush(rest, n);
    StackPush(rest, n.arg);
  }

  lemma {:induction false} TopAnd(rest: seq<Node>, n: Node)
    requires n.And?
    ensures StackConjuncts(rest + [n]) == StackConjuncts(rest + [n.left, n.right])
    ensures StackVisits(rest + [n]) == 1 + StackVisits(rest + [n.left, n.right])
  {
    StackPush(rest, n);
    StackPushTwo(rest, n.left, n.right);
  }

  lemma {:induction false} TopLeaf(rest: seq<Node>, n: Node)
    requires !n.Paren? && !n.And?
    ensures StackConjuncts(rest + [n]) == (if n.Cmp? && n.op == Eq then [n] else []) + StackConjuncts(rest)
    ensures StackVisits(rest + [n]) == 1 + StackVisits(rest)
  {
    StackPush(rest, n);
  }

  /** One turn of the loop, on a stack split at its top. */
  lemma {:induction false} WorklistTop(rest: seq<Node>, n: Node, budget: nat)
    requires budget > 0
    ensures n.Paren? ==> Worklist(rest + [n], budget) == Worklist(rest + [n.arg], budget - 1)
    ensures n.And? ==> Worklist(rest + [n], budget) == Worklist(rest + [n.left, n.right], budget - 1)
    ensures !n.Paren? && !n.And? ==>
      Worklist(rest + [n], budget) == (if n.Cmp? && n.op == Eq then [n] else []) + Worklist(rest, budget - 1)
  {
    assert (rest + [n])[..|rest|] == rest;
  }

  lemma {:induction false} WorklistPrefix(stack: seq<Node>, budget: nat)
    ensures Worklist(stack, budget) <= StackConjuncts(stack)
    ensures StackVisits(stack) <= budget ==> Worklist(stack, budget) == StackConjuncts(stack)
    decreases budget
  {
    if stack != [] && budget > 0 {
      var n, rest := stack[|stack| - 1], stack[..|stack| - 1];
      assert stack == rest + [n];
      WorklistTop(rest, n, budget);
      if n.Paren? {
        TopParen(rest, n);
        WorklistPrefix(rest + [n.arg], budget - 1);
      } else if n.And? {
        TopAnd(rest, n);
        WorklistPrefix(rest + [n.left, n.right], budget - 1);
      } else {
        TopLeaf(rest, n);
        WorklistPrefix(rest, budget - 1);
      }
    }
  }

  /**
   * The worklist returns a prefix of the AND-connected equalities, and all of them when the walk
   * fits its budget.
   */
  lemma {:induction false} AndEqualitiesExact(pred: Node)
    ensures Worklist([pred], NODE_BUDGET) <= Conjuncts(pred)
    ensures multiset(Worklist([pred], NODE_BUDGET)) <= multiset(Conjuncts(pred))
    ensures Visits(pred) <= NODE_BUDGET ==> Worklist([pred], NODE_BUDGET) == Conjuncts(pred)
  {
    StackPush([], pred);
    assert [] + [pred] == [pred];
    WorklistPrefix([pred], NODE_BUDGET);
    PrefixParts(Worklist([pred], NODE_BUDGET), Conjuncts(pred));
  }

  lemma {:induction false} PrefixParts(w: seq<Node>, all: seq<Node>)
    ensures w <= all ==> multiset(w) <= multiset(all)
  {
    if w <= all {
      assert all == w + all[|w|..];
    }
  }

  // ---------------------------------------------------------------- the graph

  /** The qualifiers an equality links, if it compares columns of two different qualifiers. */
  function EdgeOf(eq: Node): Option<(string, string)> {
    if eq.Cmp? && IsColumn(eq.left) && IsColumn(eq.right) && eq.left.table != "" && eq.right.table != ""
       && Lower(eq.left.table) != Lower(eq.right.table)
    then Some((Lower(eq.left.table), Lower(eq.right.table)))
    else None
  }

  function EdgesOf(eqs: seq<Node>): seq<(string, string)> {
    if eqs == [] then []
    else (if EdgeOf(eqs[0]).Some? then [EdgeOf(eqs[0]).value] else []) + EdgesOf(eqs[1..])
  }

  function PredicateEdges(pred: Option<Node>): seq<(string, string)> {
    if pred.None? then [] else EdgesOf(Worklist([pred.value], NODE_BUDGET))
  }

  function UsingEdges(using: seq<string>, label1: string, label2: string): seq<(string, string)> {
    if using == [] then []
    else (if label1 != "" && label2 != "" then [(label1, label2)] else []) + UsingEdges(using[1..], label1, label2)
  }

  function JoinEdges(joins: seq<Node>, base: string): seq<(string, string)> {
    if joins == [] then []
    else
      (if joins[0].Join? then
         PredicateEdges(joins[0].on) + UsingEdges(joins[0].using, RelationLabel(joins[0].arg), base)
       else [])
      + JoinEdges(joins[1..], base)
  }

  function BaseOf(from: Option<Node>): Option<Node> {
    if from.Some? && from.value.From? then Some(from.value.arg) else None
  }

  function BaseLabel(from: Option<Node>): string {
    if BaseOf(from).Some? then RelationLabel(BaseOf(from).value) else ""
  }

  function FilterOf(where: Option<Node>): Option<Node> {
    if where.Some? && where.value.Where? then Some(where.value.arg) else None
  }

  /** Every link the check draws for one SELECT, in order. */
  function SelectEdges(from: Option<Node>, joins: seq<Node>, where: Option<Node>): seq<(string, string)> {
    JoinEdges(joins, BaseLabel(from)) + PredicateEdges(FilterOf(where))
  }

  /** The relations of the product; LATERAL sources stay out. */
  function JoinRelations(joins: seq<Node>): seq<Node> {
    if joins == [] then []
    else (if joins[0].Join? && !joins[0].arg.Lateral? then [joins[0].arg] else []) + JoinRelations(joins[1..])
  }

  function Relations(from: Option<Node>, joins: seq<Node>): seq<Node> {
    OptList(BaseOf(from)) + JoinRelations(joins)
  }

  function LabelsOf(rels: seq<Node>): set<string> {
    if rels == [] then {}
    else (if RelationLabel(rels[0]) != "" then {RelationLabel(rels[0])} else {}) + LabelsOf(rels[1..])
  }

  /** A CROSS JOIN or a comma, neither with ON or USING; LATERAL is never a candidate. */
  predicate IsCandidate(j: Node) {
    && j.Join?
    && !j.arg.Lateral?
    && j.on.None?
    && j.using == []
    && (Upper(j.joinKind) == "CROSS" || (Upper(j.joinKind) == "" && Upper(j.joinSide) == ""))
  }

  predicate AnyCandidate(joins: seq<Node>) {
    joins != [] && (IsCandidate(joins[0]) || AnyCandidate(joins[1..]))
  }

  /** Is the product of this SELECT reported? */
  ghost predicate Flagged(from: Option<Node>, joins: seq<Node>, where: Option<Node>) {
    AnyCandidate(joins) &&
    var labels := LabelsOf(Relations(from, joins));
    if |labels| < 2 then |Relations(from, joins)| >= 2
    else |Classes(SelectEdges(from, joins, where), labels)| > 1
  }

  ghost predicate FlaggedSelect(n: Node) {
    n.Select? && Flagged(n.from, n.joins, n.where)
  }

  ghost function SelectVerdict(n: Node): seq<Violation> {
    if FlaggedSelect(n) then [CARTESIAN] else []
  }

  ghost function CartesianOf(selects: seq<Node>): seq<Violation> {
    if selects == [] then [] else SelectVerdict(selects[0]) + CartesianOf(selects[1..])
  }

  ghost function CheckCartesian(stmt: Node, policy: GuardPolicy): seq<Violation> {
    if policy.blockCartesian then CartesianOf(TopSelects(stmt)) else []
  }

  // ---------------------------------------------------------------- the loops

  /** `_cross_qualifier_edges`. */
  method CrossQualifierEdges(pred: Option<Node>, dsu: Dsu)
    requires dsu.Valid()
    modifies dsu
    ensures dsu.Valid() && dsu.made == old(dsu.made) + PredicateEdges(pred)
  {
    if pred.None? {
      return;
    }
    var eqs := AndEqualities(pred.value);
    var i := 0;
    while i < |eqs|
      invariant 0 <= i <= |eqs|
      invariant dsu.Valid() && dsu.made + EdgesOf(eqs[i..]) == old(dsu.made) + EdgesOf(eqs)
    {
      assert eqs[i..][0] == eqs[i] && eqs[i..][1..] == eqs[i + 1..];
      var edge := EdgeOf(eqs[i]);
      if edge.Some? {
        dsu.Union(edge.value.0, edge.value.1);
      }
      i := i + 1;
    }
  }

  method UsingLinks(using: seq<string>, label1: string, label2: string, dsu: Dsu)
    requires dsu.Valid()
    modifies dsu
    ensures dsu.Valid() && dsu.made == old(dsu.made) + UsingEdges(using, label1, label2)
  {
    var i := 0;
    while i < |using|
      invariant 0 <= i <= |using|
      invariant dsu.Valid()
          && dsu.made + UsingEdges(using[i..], label1, label2) == old(dsu.made) + UsingEdges(using, label1, label2)
    {
      assert using[i..][1..] == using[i + 1..];
      if label1 != "" && label2 != "" {
        dsu.Union(label1, label2);
      }
      i := i + 1;
    }
  }

  /** The edges one join contributes. */
  function EdgesOfJoin(j: Node, base: string): seq<(string, string)> {
    if j.Join? then PredicateEdges(j.on) + UsingEdges(j.using, RelationLabel(j.arg), base) else []
  }

  lemma {:induction false} NextJoin(joins: seq<Node>, i: nat, base: string)
    requires i < |joins|
    ensures JoinEdges(joins[i..], base) == EdgesOfJoin(joins[i], base) + JoinEdges(joins[i + 1..], base)
  {
    assert joins[i..][0] == joins[i] && joins[i..][1..] == joins[i + 1..];
  }

  method JoinLink(j: Node, base: string, dsu: Dsu)
    requires dsu.Valid()
    modifies dsu
    ensures dsu.Valid() && dsu.made == old(dsu.made) + EdgesOfJoin(j, base)
  {
    if j.Join? {
      AppendNext(dsu.made, PredicateEdges(j.on), UsingEdges(j.using, RelationLabel(j.arg), base));
      CrossQualifierEdges(j.on, dsu);
      UsingLinks(j.using, RelationLabel(j.arg), base, dsu);
    }
  }

  method JoinLinks(joins: seq<Node>, base: string, dsu: Dsu)
    requires dsu.Valid()
    modifies dsu
    ensures dsu.Valid() && dsu.made == old(dsu.made) + JoinEdges(joins, base)
  {
    var i := 0;
    while i < |joins|
      invariant 0 <= i <= |joins|
      invariant dsu.Valid() && dsu.made + JoinEdges(joins[i..], base) == old(dsu.made) + JoinEdges(joins, base)
    {
      NextJoin(joins, i, base);
      AppendNext(dsu.made, EdgesOfJoin(joins[i], base), JoinEdges(joins[i + 1..], base));
      JoinLink(joins[i], base, dsu);
      i := i + 1;
    }
  }

  lemma {:induction false} NextLabel(rels: seq<Node>, i: nat)
    requires i < |rels|
    ensures LabelsOf(rels[i..]) ==
      (if RelationLabel(rels[i]) != "" then {RelationLabel(rels[i])} else {}) + LabelsOf(rels[i + 1..])
  {
    assert rels[i..][0] == rels[i] && rels[i..][1..] == rels[i + 1..];
  }

  lemma {:induction false} UnionNext(before: set<string>, after: set<string>, todo: set<string>, rest: set<string>)
    requires before <= after && after - before <= todo && rest <= todo && todo <= after + rest
    ensures before + todo == after + rest
  {
  }

  method AddLabel(name: string, labels: set<string>, dsu: Dsu) returns (labels': set<string>)
    requires dsu.Valid()
    modifies dsu
    ensures dsu.Valid() && dsu.made == old(dsu.made)
    ensures labels' == labels + if name != "" then {name} else {}
  {
    labels' := labels;
    if name != "" {
      labels' := labels' + {name};
      dsu.Add(name);
    }
  }

  method CollectLabels(rels: seq<Node>, dsu: Dsu) returns (labels: set<string>)
    requires dsu.Valid()
    modifies dsu
    ensures dsu.Valid() && dsu.made == old(dsu.made)
    ensures labels == LabelsOf(rels)
  {
    labels := {};
    var i := 0;
    while i < |rels|
      invariant 0 <= i <= |rels|
      invariant dsu.Valid() && dsu.made == old(dsu.made)
      invariant labels + LabelsOf(rels[i..]) == LabelsOf(rels)
    {
      NextLabel(rels, i);
      ghost var before, rest := labels, LabelsOf(rels[i + 1..]);
      labels := AddLabel(RelationLabel(rels[i]), labels, dsu);
      UnionNext(before, labels, LabelsOf(rels[i..]), rest);
      i := i + 1;
    }
  }

  /** The body of the loop over the top-level SELECTs. */
  method JudgeProduct(from: Option<Node>, joins: seq<Node>, where: Option<Node>) returns (flagged: bool)
    ensures flagged == Flagged(from, joins, where)
  {
    var needed := false;
    var i := 0;
    while i < |joins|
      invariant 0 <= i <= |joins|
      invariant needed || AnyCandidate(joins[i..]) <==> AnyCandidate(joins)
    {
      assert joins[i..][0] == joins[i] && joins[i..][1..] == joins[i + 1..];
      if IsCandidate(joins[i]) {
        needed := true;
      }
      i := i + 1;
    }
    if !needed {
      return false;
    }
    var relations := Relations(from, joins);
    var dsu := new Dsu();
    var labels := CollectLabels(relations, dsu);
    if |labels| < 2 {
      return |relations| >= 2;
    }
    var n := CountParts(joins, BaseLabel(from), FilterOf(where), labels, dsu);
    return n > 1;
  }

  /** Draws the links of the SELECT and counts the components of its labels. */
  method CountParts(joins: seq<Node>, base: string, filter: Option<Node>, labels: set<string>, dsu: Dsu)
    returns (n: nat)
    requires dsu.Valid() && dsu.made == []
    modifies dsu
    ensures n == |Classes(JoinEdges(joins, base) + PredicateEdges(filter), labels)|
  {
    ghost var edges := JoinEdges(joins, base) + PredicateEdges(filter);
    JoinLinks(joins, base, dsu);
    CrossQualifierEdges(filter, dsu);
    assert dsu.made == edges;
    n := dsu.Components(labels);
  }

  method JudgeSelect(n: Node) returns (violations: seq<Violation>)
    ensures violations == SelectVerdict(n)
  {
    violations := [];
    if n.Select? {
      var flagged := JudgeProduct(n.from, n.joins, n.where);
      if flagged {
        violations := [CARTESIAN];
      }
    }
  }

  method JudgeSelects(selects: seq<Node>) returns (violations: seq<Violation>)
    ensures violations == CartesianOf(selects)
  {
    violations := [];
    var i := 0;
    while i < |selects|
      invariant 0 <= i <= |selects|
      invariant violations + CartesianOf(selects[i..]) == CartesianOf(selects)
    {
      assert selects[i..][0] == selects[i] && selects[i..][1..] == selects[i + 1..];
      var more := JudgeSelect(selects[i]);
      AppendNext(violations, more, CartesianOf(selects[i + 1..]));
      violations := violations + more;
      i := i + 1;
    }
  }

  method RunCheckCartesian(stmt: Node, policy: GuardPolicy) returns (violations: seq<Violation>)
    ensures violations == CheckCartesian(stmt, policy)
  {
    if !policy.blockCartesian {
      return [];
    }
    violations := JudgeSelects(TopSelects(stmt));
  }
}
