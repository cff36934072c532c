/** SQL values, three-valued logic, comparisons and LIKE. */
module SqlValues {
  import opened Syntax

  datatype Value = VNull | VNum(n: real) | VStr(s: string) | VBool(b: bool) | VRow(fields: seq<Value>)

  datatype Truth = True | False | Unknown

  // ---------------------------------------------------------------- three-valued logic

  function Not3(a: Truth): Truth {
    match a
    case True => False
    case False => True
    case Unknown => Unknown
  }

  function And3(a: Truth, b: Truth): Truth {
    if a.False? || b.False? then False
    else if a.True? && b.True? then True
    else Unknown
  }

  function Or3(a: Truth, b: Truth): Truth {
    if a.True? || b.True? then True
    else if a.False? && b.False? then False
    else Unknown
  }

  function FromBool(b: bool): Truth {
    if b then True else False
  }

  /** A value used as a condition: a number is true when it is not zero. */
  function ToTruth(v: Value): Truth {
    match v
    case VBool(b) => FromBool(b)
    case VNum(n) => FromBool(n != 0.0)
    case _ => Unknown
  }

  function FromTruth(t: Truth): Value {
    match t
    case True => VBool(true)
    case False => VBool(false)
    case Unknown => VNull
  }

  // ---------------------------------------------------------------- comparison

  predicate SameKind(a: Value, b: Value) {
    || (a.VNum? && b.VNum?)
    || (a.VStr? && b.VStr?)
    || (a.VBool? && b.VBool?)
    || (a.VRow? && b.VRow?)
  }

  function Kind(v: Value): nat {
    match v
    case VBool(_) => 0
    case VNum(_) => 1
    case VStr(_) => 2
    case VRow(_) => 3
    case VNull => 4
  }

  predicate StrLess(a: string, b: string) {
    if b == "" then false
    else if a == "" then true
    else a[0] < b[0] || (a[0] == b[0] && StrLess(a[1..], b[1..]))
  }

  /** The ordering of values; inside a row a NULL field sorts last. */
  predicate Less(a: Value, b: Value)
    decreases a, 1
  {
    match (a, b)
    case (VNum(x), VNum(y)) => x < y
    case (VStr(x), VStr(y)) => StrLess(x, y)
    case (VBool(x), VBool(y)) => !x && y
    case (VRow(x), VRow(y)) => RowLess(x, y)
    case _ => Kind(a) < Kind(b)
  }

  predicate RowLess(a: seq<Value>, b: seq<Value>)
    decreases a, 0
  {
    if b == [] then false
    else if a == [] then true
    else Less(a[0], b[0]) || (a[0] == b[0] && RowLess(a[1..], b[1..]))
  }

  /**
   * `a op b`. Values of different kinds are unequal and unordered; there is no implicit coercion.
   */
  function Compare(op: CmpOp, a: Value, b: Value): Truth {
    if a.VNull? || b.VNull? then Unknown
    else if !SameKind(a, b) then
      match op
      case Eq => False
      case Neq => True
      case _ => Unknown
    else
      match op
      case Eq => FromBool(a == b)
      case Neq => FromBool(a != b)
      case Lt => FromBool(Less(a, b))
      case Gt => FromBool(Less(b, a))
      case Lte => FromBool(a == b || Less(a, b))
      case Gte => FromBool(a == b || Less(b, a))
  }

  lemma {:induction false} StrLessIrreflexive(s: string)
    ensures !StrLess(s, s)
  {
    if s != "" {
      StrLessIrreflexive(s[1..]);
    }
  }

  lemma {:induction false} LessIrreflexive(v: Value)
    ensures !Less(v, v)
    decreases v, 1
  {
    match v
    case VStr(s) => StrLessIrreflexive(s);
    case VRow(fields) => RowLessIrreflexive(fields);
    case _ =>
  }

  lemma {:induction false} RowLessIrreflexive(vs: seq<Value>)
    ensures !RowLess(vs, vs)
    decreases vs, 0
  {
    if vs != [] {
      LessIrreflexive(vs[0]);
      RowLessIrreflexive(vs[1..]);
    }
  }

  /** `x op x` for a value that is not NULL. */
  lemma {:induction false} CompareSelf(op: CmpOp, v: Value)
    requires !v.VNull?
    ensures Compare(op, v, v) == FromBool(op.Eq? || op.Lte? || op.Gte?)
  {
    LessIrreflexive(v);
  }

  // ---------------------------------------------------------------- IN and LIKE

  /** `v IN (items)`: the disjunction of the equalities. */
  function InList(v: Value, items: seq<Value>): Truth {
    if items == [] then False else Or3(Compare(Eq, v, items[0]), InList(v, items[1..]))
  }

  /** Does `s` match the pattern: `%` stands for any string, `_` for any one character. */
  predicate LikeMatch(s: string, pattern: string)
    decreases |s| + |pattern|
  {
    if pattern == "" then s == ""
    else if pattern[0] == '%' then
      LikeMatch(s, pattern[1..]) || (s != "" && LikeMatch(s[1..], pattern))
    else
      s != "" && (pattern[0] == '_' || pattern[0] == s[0]) && LikeMatch(s[1..], pattern[1..])
  }

  /** Every string matches itself as a pattern. */
  lemma {:induction false} MatchesItself(s: string)
    ensures LikeMatch(s, s)
  {
    if s != "" {
      MatchesItself(s[1..]);
      if s[0] == '%' {
        PercentAbsorbs(s[0], s[1..], s[1..]);
      }
    }
  }

  /** A leading `%` may swallow one character. */
  lemma {:induction false} PercentAbsorbs(c: char, s: string, rest: string)
    requires LikeMatch(s, rest)
    ensures LikeMatch([c] + s, "%" + rest)
  {
    assert ("%" + rest)[1..] == rest;
    assert ([c] + s)[1..] == s;
    assert LikeMatch(s, "%" + rest);
  }

  predicate AllPercent(pattern: string) {
    forall i :: 0 <= i < |pattern| ==> pattern[i] == '%'
  }

  /** A non-empty pattern of percent signs matches every string. */
  lemma {:induction false} AllPercentMatches(s: string, pattern: string)
    requires pattern != "" && AllPercent(pattern)
    ensures LikeMatch(s, pattern)
    decreases |s| + |pattern|
  {
    if s != "" {
      AllPercentMatches(s[1..], pattern);
    } else if |pattern| > 1 {
      AllPercentMatches(s, pattern[1..]);
    } else {
      assert pattern[1..] == "";
    }
  }
}
