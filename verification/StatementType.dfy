/** The statement gate `check_statement_type`: which writes a policy lets through. */
module StatementType {
  import opened Sequences
  import opened Syntax
  import opened Text
  import opened Traversal
  import opened Policy

  /** The statement classes of the permission table. */
  datatype Kind = InsertKind | UpdateKind | DeleteKind | MergeKind | CommandOf(command: CommandKind)

  function KindOf(n: Node): Option<Kind> {
    match n
    case Insert(_, _, _, _) => Some(InsertKind)
    case Update(_, _, _, _) => Some(UpdateKind)
    case Delete(_, _, _) => Some(DeleteKind)
    case Merge(_, _, _, _, _) => Some(MergeKind)
    case Command(c, _) => Some(CommandOf(c))
    case _ => None
  }

  function OfKind(k: Kind): Node -> bool {
    n => KindOf(n) == Some(k)
  }

  /** `MUTATION_PERMIT`, in its order. */
  const MUTATIONS: seq<Kind> :=
    [InsertKind, UpdateKind, DeleteKind, MergeKind, CommandOf(Drop), CommandOf(Create), CommandOf(Alter),
     CommandOf(TruncateTable), CommandOf(Grant), CommandOf(Copy), CommandOf(RawCommand), CommandOf(Transaction),
     CommandOf(Commit), CommandOf(Rollback), CommandOf(SetVariable)]

  /** Commands no flag permits. */
  predicate NeverPermitted(c: CommandKind) {
    c.Copy? || c.RawCommand? || c.Transaction? || c.Commit? || c.Rollback? || c.SetVariable?
  }

  /** `_permitted`. */
  predicate Permitted(k: Kind, policy: GuardPolicy) {
    match k
    case InsertKind => policy.allowInsert
    case UpdateKind => policy.allowUpdate
    case DeleteKind => policy.allowDelete
    case MergeKind => policy.allowUpdate
    case CommandOf(c) => !NeverPermitted(c) && policy.allowDdl
  }

  /** `DDL_NODES`. */
  predicate IsDdl(k: Kind) {
    k.CommandOf? &&
    (k.command.Drop? || k.command.Create? || k.command.Alter? || k.command.TruncateTable? || k.command.Grant?
     || k.command.Copy? || k.command.RawCommand?)
  }

  predicate IsRead(n: Node) {
    n.Select? || n.SetOp? || n.Subquery? || n.Values?
  }

  const MAX_UNWRAP: nat := 50

  /** `unwrap`. */
  function Unwrap(n: Node, left: nat): Node
    decreases n
  {
    if n.Subquery? && left > 0 then Unwrap(n.arg, left - 1) else n
  }

  method UnwrapTop(stmt: Node) returns (top: Node)
    ensures top == Unwrap(stmt, MAX_UNWRAP)
  {
    top := stmt;
    var seen := 0;
    while top.Subquery? && seen < MAX_UNWRAP
      invariant 0 <= seen <= MAX_UNWRAP
      invariant Unwrap(top, MAX_UNWRAP - seen) == Unwrap(stmt, MAX_UNWRAP)
      decreases MAX_UNWRAP - seen
    {
      top := top.arg;
      seen := seen + 1;
    }
  }

  datatype Write = WriteInsert | WriteUpdate | WriteDelete

  /** `_merge_action`. */
  function MergeAction(action: Option<Node>): Option<Write> {
    match action
    case Some(Update(_, _, _, _)) => Some(WriteUpdate)
    case Some(Insert(_, _, _, _)) => Some(WriteInsert)
    case Some(Delete(_, _, _)) => Some(WriteDelete)
    case Some(Var(v)) => if Upper(v) == "DELETE" then Some(WriteDelete) else None
    case _ => None
  }

  predicate Allows(policy: GuardPolicy, w: Write) {
    match w
    case WriteInsert => policy.allowInsert
    case WriteUpdate => policy.allowUpdate
    case WriteDelete => policy.allowDelete
  }

  const NOT_PERMITTED := Violation("statement_type", High, BlockIt)

  const NOT_PERMITTED_DDL := Violation("statement_type", Critical, BlockIt)

  const SELECT_INTO := Violation("select_into", Critical, BlockIt)

  const LOCKING_READ := Violation("locking_read", High, BlockIt)

  predicate IsWhen(n: Node) { n.When? }

  predicate IsOnConflict(n: Node) { n.OnConflict? }

  predicate IsLock(n: Node) { n.Lock? }

  function KindVerdict(k: Kind, present: bool, policy: GuardPolicy): seq<Violation> {
    if k.MergeKind? || !present || Permitted(k, policy) then []
    else [if IsDdl(k) then NOT_PERMITTED_DDL else NOT_PERMITTED]
  }

  function KindViolation(k: Kind, stmt: Node, policy: GuardPolicy): seq<Violation> {
    KindVerdict(k, Has(stmt, OfKind(k)), policy)
  }

  function KindViolations(ks: seq<Kind>, stmt: Node, policy: GuardPolicy): seq<Violation>
    decreases |ks|, stmt
  {
    if ks == [] then [] else KindViolation(ks[0], stmt, policy) + KindViolations(ks[1..], stmt, policy)
  }

  predicate KnownTop(stmt: Node) {
    var top := Unwrap(stmt, MAX_UNWRAP);
    IsRead(top) || KindOf(top).Some?
  }

  function IntoVerdict(n: Node, policy: GuardPolicy): seq<Violation> {
    if n.Select? && n.into.Some? && !policy.allowDdl then [SELECT_INTO] else []
  }

  function IntoViolations(ls: seq<Located>, policy: GuardPolicy): seq<Violation> {
    if ls == [] then [] else IntoVerdict(ls[0].node, policy) + IntoViolations(ls[1..], policy)
  }

  predicate WhenDenied(n: Node, policy: GuardPolicy) {
    n.When? && MergeAction(n.action).Some? && !Allows(policy, MergeAction(n.action).value)
  }

  function WhenViolations(ls: seq<Located>, policy: GuardPolicy): seq<Violation> {
    if ls == [] then []
    else (if WhenDenied(ls[0].node, policy) then [NOT_PERMITTED] else []) + WhenViolations(ls[1..], policy)
  }

  function ConflictName(n: Node): string {
    if n.OnConflict? && n.action.Some? && n.action.value.Var? then n.action.value.name else ""
  }

  predicate NamesUpdate(name: string) {
    Contains(Upper(name), "UPDATE")
  }

  predicate ConflictDenied(n: Node, policy: GuardPolicy) {
    NamesUpdate(ConflictName(n)) && !policy.allowUpdate
  }

  function ConflictVerdict(n: Node, policy: GuardPolicy): seq<Violation> {
    if ConflictDenied(n, policy) then [NOT_PERMITTED] else []
  }

  function ConflictViolations(ls: seq<Located>, policy: GuardPolicy): seq<Violation> {
    if ls == [] then [] else ConflictVerdict(ls[0].node, policy) + ConflictViolations(ls[1..], policy)
  }

  /** The report, in the order of the checks. */
  function Report(kinds: seq<Violation>, known: bool, into: seq<Violation>, lock: bool, whens: seq<Violation>,
        merge: bool, conflicts: seq<Violation>): seq<Violation>
  {
    kinds + (if known then [] else [NOT_PERMITTED_DDL]) + into + (if lock then [LOCKING_READ] else []) + whens
    + (if merge then [NOT_PERMITTED] else []) + conflicts
  }

  function CheckStatementType(stmt: Node, policy: GuardPolicy): seq<Violation> {
    Report(KindViolations(MUTATIONS, stmt, policy),
           KnownTop(stmt),
           IntoViolations(FindAll(stmt, IsSelect), policy),
           policy.readOnly && Has(stmt, IsLock),
           WhenViolations(FindAll(stmt, IsWhen), policy),
           policy.readOnly && Has(stmt, OfKind(MergeKind)),
           ConflictViolations(FindAll(stmt, IsOnConflict), policy))
  }

  // ---------------------------------------------------------------- the loops

  method JudgeKind(k: Kind, present: bool, policy: GuardPolicy) returns (violations: seq<Violation>)
    ensures violations == KindVerdict(k, present, policy)
  {
    if k.MergeKind? {
      return [];
    }
    if !present || Permitted(k, policy) {
      return [];
    }
    violations := [if IsDdl(k) then NOT_PERMITTED_DDL else NOT_PERMITTED];
  }

  method JudgeKinds(kinds: seq<Kind>, stmt: Node, policy: GuardPolicy) returns (violations: seq<Violation>)
    ensures violations == KindViolations(kinds, stmt, policy)
  {
    violations := [];
    var i := 0;
    while i < |kinds|
      invariant 0 <= i <= |kinds|
      invariant violations + KindViolations(kinds[i..], stmt, policy) == KindViolations(kinds, stmt, policy)
    {
      assert kinds[i..][0] == kinds[i] && kinds[i..][1..] == kinds[i + 1..];
      var more := JudgeKind(kinds[i], Has(stmt, OfKind(kinds[i])), policy);
      AppendNext(violations, more, KindViolations(kinds[i + 1..], stmt, policy));
      violations := violations + more;
      i := i + 1;
    }
  }

  method JudgeInto(selects: seq<Located>, policy: GuardPolicy) returns (violations: seq<Violation>)
    ensures violations == IntoViolations(selects, policy)
  {
    violations := [];
    var i := 0;
    while i < |selects|
      invariant 0 <= i <= |selects|
      invariant violations + IntoViolations(selects[i..], policy) == IntoViolations(selects, policy)
    {
      assert selects[i..][0] == selects[i] && selects[i..][1..] == selects[i + 1..];
      var more := IntoVerdict(selects[i].node, policy);
      AppendNext(violations, more, IntoViolations(selects[i + 1..], policy));
      violations := violations + more;
      i := i + 1;
    }
  }

  method JudgeWhens(whens: seq<Located>, policy: GuardPolicy) returns (violations: seq<Violation>)
    ensures violations == WhenViolations(whens, policy)
  {
    violations := [];
    var i := 0;
    while i < |whens|
      invariant 0 <= i <= |whens|
      invariant violations + WhenViolations(whens[i..], policy) == WhenViolations(whens, policy)
    {
      assert whens[i..][0] == whens[i] && whens[i..][1..] == whens[i + 1..];
      if whens[i].node.When? {
        var action := MergeAction(whens[i].node.action);
        if action.Some? && !Allows(policy, action.value) {
          violations := violations + [NOT_PERMITTED];
        }
      }
      i := i + 1;
    }
  }

  method JudgeConflict(n: Node, policy: GuardPolicy) returns (violations: seq<Violation>)
    ensures violations == ConflictVerdict(n, policy)
  {
    var name := ConflictName(n);
    violations := [];
    if NamesUpdate(name) && !policy.allowUpdate {
      violations := [NOT_PERMITTED];
    }
  }

  method JudgeConflicts(conflicts: seq<Located>, policy: GuardPolicy) returns (violations: seq<Violation>)
    ensures violations == ConflictViolations(conflicts, policy)
  {
    violations := [];
    var i := 0;
    while i < |conflicts|
      invariant 0 <= i <= |conflicts|
      invariant violations + ConflictViolations(conflicts[i..], policy) == ConflictViolations(conflicts, policy)
    {
      assert conflicts[i..][0] == conflicts[i] && conflicts[i..][1..] == conflicts[i + 1..];
      var more := JudgeConflict(conflicts[i].node, policy);
      AppendNext(violations, more, ConflictViolations(conflicts[i + 1..], policy));
      violations := violations + more;
      i := i + 1;
    }
  }

  method JudgeTop(stmt: Node) returns (known: bool)
    ensures known == KnownTop(stmt)
  {
    var top := UnwrapTop(stmt);
    known := IsRead(top) || KindOf(top).Some?;
  }

  method RunCheckStatementType(stmt: Node, policy: GuardPolicy) returns (violations: seq<Violation>)
    ensures violations == CheckStatementType(stmt, policy)
  {
    var kinds := JudgeKinds(MUTATIONS, stmt, policy);
    var known := JudgeTop(stmt);
    var into := JudgeInto(FindAll(stmt, IsSelect), policy);
    var lock := policy.readOnly && Has(stmt, IsLock);
    var whens := JudgeWhens(FindAll(stmt, IsWhen), policy);
    var merge := policy.readOnly && Has(stmt, OfKind(MergeKind));
    var conflicts := JudgeConflicts(FindAll(stmt, IsOnConflict), policy);
    violations := Report(kinds, known, into, lock, whens, merge, conflicts);
  }

  // ---------------------------------------------------------------- severity

  ghost predicate AllSevere(vs: seq<Violation>) {
    forall v :: v in vs ==> v.action.BlockIt? && Rank(v.severity) >= Rank(High)
  }

  lemma {:induction false} KindSevere(k: Kind, present: bool, policy: GuardPolicy)
    ensures AllSevere(KindVerdict(k, present, policy))
  {
  }

  lemma {:induction false} SevereAppend(a: seq<Violation>, b: seq<Violation>)
    requires AllSevere(a) && AllSevere(b)
    ensures AllSevere(a + b)
  {
  }

  lemma {:induction false} KindsSevere(ks: seq<Kind>, stmt: Node, policy: GuardPolicy)
    ensures AllSevere(KindViolations(ks, stmt, policy))
    decreases |ks|
  {
    if ks != [] {
      KindSevere(ks[0], Has(stmt, OfKind(ks[0])), policy);
      KindsSevere(ks[1..], stmt, policy);
      SevereAppend(KindViolation(ks[0], stmt, policy), KindViolations(ks[1..], stmt, policy));
    }
  }

  lemma {:induction false} ListsSevere(ls: seq<Located>, policy: GuardPolicy)
    ensures AllSevere(IntoViolations(ls, policy)) && AllSevere(WhenViolations(ls, policy))
        && AllSevere(ConflictViolations(ls, policy))
    decreases |ls|
  {
    if ls != [] {
      ListsSevere(ls[1..], policy);
    }
  }

  lemma {:induction false} ReportSevere(kinds: seq<Violation>, known: bool, into: seq<Violation>, lock: bool,
        whens: seq<Violation>, merge: bool, conflicts: seq<Violation>)
    requires AllSevere(kinds) && AllSevere(into) && AllSevere(whens) && AllSevere(conflicts)
    ensures AllSevere(Report(kinds, known, into, lock, whens, merge, conflicts))
  {
  }

  /** Whatever the gate reports is at least HIGH and blocks. */
  lemma {:induction false} StatementTypeSevere(stmt: Node, policy: GuardPolicy)
    ensures AllSevere(CheckStatementType(stmt, policy))
  {
    KindsSevere(MUTATIONS, stmt, policy);
    ListsSevere(FindAll(stmt, IsSelect), policy);
    ListsSevere(FindAll(stmt, IsWhen), policy);
    ListsSevere(FindAll(stmt, IsOnConflict), policy);
    ReportSevere(KindViolations(MUTATIONS, stmt, policy), KnownTop(stmt),
                 IntoViolations(FindAll(stmt, IsSelect), policy), policy.readOnly && Has(stmt, IsLock),
                 WhenViolations(FindAll(stmt, IsWhen), policy), policy.readOnly && Has(stmt, OfKind(MergeKind)),
                 ConflictViolations(FindAll(stmt, IsOnConflict), policy));
  }
}
