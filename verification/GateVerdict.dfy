/** The exact report of the statement gate, spelled out on the nodes and the policy's flags. */
module GateVerdict {
  import opened Syntax
  import opened Text
  import opened Traversal
  import opened Policy
  import opened StatementType
  import opened Effects

  // ---------------------------------------------------------------- single nodes

  /** A command no flag permits, or DDL without its flag. */
  predicate CriticalNode(n: Node, policy: GuardPolicy) {
    n.Command? &&
    (|| n.command.Copy? || n.command.RawCommand?
     || (!policy.allowDdl
         && (n.command.Drop? || n.command.Create? || n.command.Alter? || n.command.TruncateTable? || n.command.Grant?)))
  }

  predicate SessionCommand(n: Node) {
    n.Command? && (n.command.Transaction? || n.command.Commit? || n.command.Rollback? || n.command.SetVariable?)
  }

  /** An INSERT, UPDATE or DELETE without its flag. */
  predicate DeniedWrite(n: Node, policy: GuardPolicy) {
    (n.Insert? && !policy.allowInsert) || (n.Update? && !policy.allowUpdate) || (n.Delete? && !policy.allowDelete)
  }

  /** A WHEN clause of MERGE whose action lacks its flag; a DELETE action is a bare name. */
  predicate DeniedWhen(n: Node, policy: GuardPolicy) {
    n.When? && n.action.Some? &&
    (DeniedWrite(n.action.value, policy)
     || (n.action.value.Var? && Upper(n.action.value.name) == "DELETE" && !policy.allowDelete))
  }

  /** An ON CONFLICT action that mentions UPDATE, without the flag. */
  ghost predicate DeniedConflict(n: Node, policy: GuardPolicy) {
    n.OnConflict? && n.action.Some? && n.action.value.Var? && !policy.allowUpdate
    && exists before, after :: Upper(n.action.value.name) == before + "UPDATE" + after
  }

  ghost predicate HighNode(n: Node, policy: GuardPolicy) {
    || DeniedWrite(n, policy) || SessionCommand(n) || (n.Merge? && policy.readOnly)
    || DeniedWhen(n, policy) || DeniedConflict(n, policy)
  }

  predicate IntoNode(n: Node, policy: GuardPolicy) {
    n.Select? && n.into.Some? && !policy.allowDdl
  }

  /** A read, a write or a command, within at most `left` subquery wrappers; a subquery is a read itself. */
  predicate KnownWithin(n: Node, left: nat)
    decreases n
  {
    if n.Subquery? then left == 0 || KnownWithin(n.arg, left - 1)
    else n.Select? || n.SetOp? || n.Values? || n.Insert? || n.Update? || n.Delete? || n.Merge? || n.Command?
  }

  lemma {:induction false} KnownExactly(n: Node, left: nat)
    ensures IsRead(Unwrap(n, left)) || KindOf(Unwrap(n, left)).Some? <==> KnownWithin(n, left)
    decreases n
  {
    if n.Subquery? && left > 0 {
      KnownExactly(n.arg, left - 1);
    }
  }

  lemma {:induction false} ContainsExactly(s: string, t: string)
    ensures Contains(s, t) <==> exists before, after :: s == before + t + after
    decreases |s|
  {
    if Contains(s, t) {
      var b, a := ContainsSplits(s, t);
    }
    if before, after :| s == before + t + after {
      SplitContains(before, t, after);
    }
  }

  lemma {:induction false} ContainsSplits(s: string, t: string) returns (before: string, after: string)
    requires Contains(s, t)
    ensures s == before + t + after
    decreases |s|
  {
    if s[..|t|] == t {
      before, after := "", s[|t|..];
    } else {
      var b, a := ContainsSplits(s[1..], t);
      before, after := [s[0]] + b, a;
      assert s == [s[0]] + s[1..];
    }
  }

  lemma {:induction false} SplitContains(before: string, t: string, after: string)
    ensures Contains(before + t + after, t)
    decreases |before|
  {
    var s := before + t + after;
    if before == "" {
      assert s[..|t|] == t;
    } else {
      SplitContains(before[1..], t, after);
      assert s[1..] == before[1..] + t + after;
    }
  }

  lemma {:induction false} ConflictExactly(n: Node, policy: GuardPolicy)
    requires n.OnConflict?
    ensures ConflictDenied(n, policy) <==> DeniedConflict(n, policy)
  {
    ContainsExactly(Upper(ConflictName(n)), "UPDATE");
  }

  lemma {:induction false} WhenExactly(n: Node, policy: GuardPolicy)
    ensures WhenDenied(n, policy) <==> DeniedWhen(n, policy)
  {
  }

  // ---------------------------------------------------------------- the parts of the report

  lemma {:induction false} KindsMember(ks: seq<Kind>, stmt: Node, policy: GuardPolicy, v: Violation)
    ensures v in KindViolations(ks, stmt, policy) <==>
      exists k :: k in ks && v in KindVerdict(k, Has(stmt, OfKind(k)), policy)
    decreases |ks|
  {
    if ks != [] {
      KindsMember(ks[1..], stmt, policy, v);
      assert forall k :: k in ks <==> k == ks[0] || k in ks[1..];
    }
  }

  /** What the gate says of a node by its kind alone. */
  predicate KindDenied(n: Node, v: Violation, policy: GuardPolicy) {
    || (v == Violation("statement_type", Critical, BlockIt) && CriticalNode(n, policy))
    || (v == Violation("statement_type", High, BlockIt) && (DeniedWrite(n, policy) || SessionCommand(n)))
  }

  lemma {:induction false} KindDeniedExactly(n: Node, k: Kind, v: Violation, policy: GuardPolicy)
    requires KindOf(n) == Some(k)
    ensures v in KindVerdict(k, true, policy) <==> KindDenied(n, v, policy)
  {
  }

  lemma {:induction false} UnkindIsFine(n: Node, v: Violation, policy: GuardPolicy)
    requires KindOf(n).None?
    ensures !KindDenied(n, v, policy)
  {
  }

  lemma {:induction false} KindsExactly(stmt: Node, policy: GuardPolicy, v: Violation)
    ensures v in KindViolations(MUTATIONS, stmt, policy) <==>
      exists l :: Inside(l, stmt) && KindDenied(l.node, v, policy)
  {
    KindsMember(MUTATIONS, stmt, policy, v);
    if k :| k in MUTATIONS && v in KindVerdict(k, Has(stmt, OfKind(k)), policy) {
      KindFound(stmt, k);
      var l :| Inside(l, stmt) && KindOf(l.node) == Some(k);
      KindDeniedExactly(l.node, k, v, policy);
    }
    if l :| Inside(l, stmt) && KindDenied(l.node, v, policy) {
      if KindOf(l.node).None? {
        UnkindIsFine(l.node, v, policy);
      } else {
        var k := KindOf(l.node).value;
        AllKinds(k);
        KindFound(stmt, k);
        KindDeniedExactly(l.node, k, v, policy);
      }
    }
  }

  lemma {:induction false} IntoMember(ls: seq<Located>, policy: GuardPolicy, v: Violation)
    ensures v in IntoViolations(ls, policy) <==>
      v == Violation("select_into", Critical, BlockIt) && exists l :: l in ls && IntoNode(l.node, policy)
    decreases |ls|
  {
    if ls != [] {
      IntoMember(ls[1..], policy, v);
    }
  }

  lemma {:induction false} WhensMember(ls: seq<Located>, policy: GuardPolicy, v: Violation)
    ensures v in WhenViolations(ls, policy) <==>
      v == Violation("statement_type", High, BlockIt) && exists l :: l in ls && WhenDenied(l.node, policy)
    decreases |ls|
  {
    if ls != [] {
      WhensMember(ls[1..], policy, v);
    }
  }

  lemma {:induction false} ConflictsMember(ls: seq<Located>, policy: GuardPolicy, v: Violation)
    ensures v in ConflictViolations(ls, policy) <==>
      v == Violation("statement_type", High, BlockIt) && exists l :: l in ls && ConflictDenied(l.node, policy)
    decreases |ls|
  {
    if ls != [] {
      ConflictsMember(ls[1..], policy, v);
    }
  }

  lemma {:induction false} IntoExactly(stmt: Node, policy: GuardPolicy, v: Violation)
    ensures v in IntoViolations(FindAll(stmt, IsSelect), policy) <==>
      v == Violation("select_into", Critical, BlockIt) && exists l :: Inside(l, stmt) && IntoNode(l.node, policy)
  {
    IntoMember(FindAll(stmt, IsSelect), policy, v);
    FoundAll(stmt, IsSelect);
  }

  lemma {:induction false} WhensExactly(stmt: Node, policy: GuardPolicy, v: Violation)
    ensures v in WhenViolations(FindAll(stmt, IsWhen), policy) <==>
      v == Violation("statement_type", High, BlockIt) && exists l :: Inside(l, stmt) && DeniedWhen(l.node, policy)
  {
    WhensMember(FindAll(stmt, IsWhen), policy, v);
    FoundAll(stmt, IsWhen);
    forall n
      ensures WhenDenied(n, policy) <==> DeniedWhen(n, policy)
    {
      WhenExactly(n, policy);
    }
  }

  lemma {:induction false} ConflictsExactly(stmt: Node, policy: GuardPolicy, v: Violation)
    ensures v in ConflictViolations(FindAll(stmt, IsOnConflict), policy) <==>
      v == Violation("statement_type", High, BlockIt) && exists l :: Inside(l, stmt) && DeniedConflict(l.node, policy)
  {
    ConflictsMember(FindAll(stmt, IsOnConflict), policy, v);
    FoundAll(stmt, IsOnConflict);
    forall n: Node | n.OnConflict?
      ensures ConflictDenied(n, policy) <==> DeniedConflict(n, policy)
    {
      ConflictExactly(n, policy);
    }
  }

  // ---------------------------------------------------------------- the report

  /** What the gate reports: the violation, and the nodes or the top statement that cause it. */
  ghost predicate GateReports(stmt: Node, policy: GuardPolicy, v: Violation) {
    || (v == Violation("statement_type", Critical, BlockIt)
        && (!KnownWithin(stmt, 50) || exists l :: Inside(l, stmt) && CriticalNode(l.node, policy)))
    || (v == Violation("statement_type", High, BlockIt) && exists l :: Inside(l, stmt) && HighNode(l.node, policy))
    || (v == Violation("select_into", Critical, BlockIt) && exists l :: Inside(l, stmt) && IntoNode(l.node, policy))
    || (v == Violation("locking_read", High, BlockIt) && policy.readOnly && exists l :: Inside(l, stmt) && l.node.Lock?)
  }

  lemma {:induction false} ReportMember(kinds: seq<Violation>, known: bool, into: seq<Violation>, lock: bool,
        whens: seq<Violation>, merge: bool, conflicts: seq<Violation>, v: Violation)
    ensures v in Report(kinds, known, into, lock, whens, merge, conflicts) <==>
      || v in kinds || (!known && v == Violation("statement_type", Critical, BlockIt)) || v in into
      || (lock && v == Violation("locking_read", High, BlockIt)) || v in whens
      || (merge && v == Violation("statement_type", High, BlockIt)) || v in conflicts
  {
  }

  lemma {:induction false} PartsExactly(stmt: Node, policy: GuardPolicy, v: Violation)
    ensures v in CheckStatementType(stmt, policy) <==>
      || v in KindViolations(MUTATIONS, stmt, policy)
      || (!KnownWithin(stmt, 50) && v == Violation("statement_type", Critical, BlockIt))
      || v in IntoViolations(FindAll(stmt, IsSelect), policy)
      || (policy.readOnly && (exists l :: Inside(l, stmt) && l.node.Lock?)
          && v == Violation("locking_read", High, BlockIt))
      || v in WhenViolations(FindAll(stmt, IsWhen), policy)
      || (policy.readOnly && (exists l :: Inside(l, stmt) && l.node.Merge?)
          && v == Violation("statement_type", High, BlockIt))
      || v in ConflictViolations(FindAll(stmt, IsOnConflict), policy)
  {
    KnownExactly(stmt, 50);
    HasIffInside(stmt, IsLock);
    MergeFound(stmt);
    ReportMember(KindViolations(MUTATIONS, stmt, policy), KnownTop(stmt),
                 IntoViolations(FindAll(stmt, IsSelect), policy), policy.readOnly && Has(stmt, IsLock),
                 WhenViolations(FindAll(stmt, IsWhen), policy), policy.readOnly && Has(stmt, OfKind(MergeKind)),
                 ConflictViolations(FindAll(stmt, IsOnConflict), policy), v);
  }

  lemma {:induction false} SomeHigh(stmt: Node, policy: GuardPolicy)
    ensures (exists l :: Inside(l, stmt) && HighNode(l.node, policy)) <==>
      || (exists l :: Inside(l, stmt) && (DeniedWrite(l.node, policy) || SessionCommand(l.node)))
      || (policy.readOnly && exists l :: Inside(l, stmt) && l.node.Merge?)
      || (exists l :: Inside(l, stmt) && DeniedWhen(l.node, policy))
      || (exists l :: Inside(l, stmt) && DeniedConflict(l.node, policy))
  {
  }

  lemma {:induction false} SomeKindDenied(stmt: Node, policy: GuardPolicy, v: Violation)
    ensures (exists l :: Inside(l, stmt) && KindDenied(l.node, v, policy)) <==>
      || (v == Violation("statement_type", Critical, BlockIt)
          && exists l :: Inside(l, stmt) && CriticalNode(l.node, policy))
      || (v == Violation("statement_type", High, BlockIt)
          && exists l :: Inside(l, stmt) && (DeniedWrite(l.node, policy) || SessionCommand(l.node)))
  {
  }

  /** The gate reports a violation exactly for the nodes spelled out, with the severity spelled out. */
  lemma {:induction false} GateReportsExactly(stmt: Node, policy: GuardPolicy, v: Violation)
    ensures v in CheckStatementType(stmt, policy) <==> GateReports(stmt, policy, v)
  {
    PartsExactly(stmt, policy, v);
    KindsExactly(stmt, policy, v);
    IntoExactly(stmt, policy, v);
    WhensExactly(stmt, policy, v);
    ConflictsExactly(stmt, policy, v);
    SomeHigh(stmt, policy);
    SomeKindDenied(stmt, policy, v);
  }
}
