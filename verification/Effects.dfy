/** What a statement can do to the database, and that the statement gate admits exactly the granted effects. */
module Effects {
  import opened Syntax
  import opened Text
  import opened SqlValues
  import opened Traversal
  import opened Semantics
  import opened Noninterference
  import opened Policy
  import opened StatementType

  /** One change to the database state, with whatever data the run brings. */
  datatype Effect =
    | InsertRows(table: TableName, rows: seq<seq<Value>>)
    | UpdateRows(table: TableName, rows: seq<seq<Value>>)
    | DeleteRows(table: TableName, rows: seq<seq<Value>>)
    | CreateTable(table: TableName, rel: Relation)
    | RunCommand(command: CommandKind, after: Database)
    | LockRows

  /** The table a write names; an action of MERGE or ON CONFLICT writes to the table around it. */
  function Target(n: Node, outer: TableName): TableName {
    if (n.Insert? || n.Update? || n.Delete? || n.Merge?) && n.arg.Table? then RefOf(n.arg) else outer
  }

  /** The conflict actions that update. */
  predicate UpdatesOnConflict(n: Node) {
    n.OnConflict? && n.action.Some? && n.action.value.Var?
    && (Upper(n.action.value.name) == "DO UPDATE" || Upper(n.action.value.name) == "UPDATE")
  }

  /** Effects a node brings about itself; `table` is the table written to. */
  predicate Own(n: Node, table: TableName, e: Effect) {
    match e
    case InsertRows(t, _) => n.Insert? && t == table
    case UpdateRows(t, _) => (n.Update? || UpdatesOnConflict(n)) && t == table
    case DeleteRows(t, _) =>
        (n.Delete? || (n.When? && n.action.Some? && n.action.value.Var? && Upper(n.action.value.name) == "DELETE"))
        && t == table
    case CreateTable(_, _) => n.Select? && n.into.Some?
    case RunCommand(c, _) => n.Command? && n.command == c
    case LockRows => n.Lock? || n.Merge?
  }

  /** Effects a statement may bring about: those of any node in it, its WITH queries included. */
  ghost predicate Can(n: Node, outer: TableName, e: Effect)
    decreases n, 1
  {
    KidsAreSubterms(n);
    Own(n, Target(n, outer), e) || CanAny(n, Kids(n), Target(n, outer), e)
  }

  ghost predicate CanAny(n: Node, ks: seq<Node>, outer: TableName, e: Effect)
    requires Subterms(ks, n)
    decreases n, 0, |ks|
  {
    ks != [] && (Can(ks[0], outer, e) || CanAny(n, ks[1..], outer, e))
  }

  const NOWHERE := TableName("", "")

  /** A run of a statement: any number of its possible effects, in any order. */
  ghost predicate RunOf(stmt: Node, run: seq<Effect>) {
    forall i :: 0 <= i < |run| ==> Can(stmt, NOWHERE, run[i])
  }

  function Apply(db: Database, e: Effect): Database {
    match e
    case InsertRows(t, rows) => if t in db then db[t := Relation(db[t].cols, db[t].rows + rows)] else db
    case UpdateRows(t, rows) => if t in db && |rows| == |db[t].rows| then db[t := Relation(db[t].cols, rows)] else db
    case DeleteRows(t, rows) =>
      if t in db && multiset(rows) <= multiset(db[t].rows) then db[t := Relation(db[t].cols, rows)] else db
    case CreateTable(t, rel) => if t in db then db else db[t := rel]
    case RunCommand(_, after) => after
    case LockRows => db
  }

  function ApplyAll(db: Database, run: seq<Effect>): Database
    decreases |run|
  {
    if run == [] then db else ApplyAll(Apply(db, run[0]), run[1..])
  }

  /** What the policy's flags grant. */
  predicate Granted(e: Effect, policy: GuardPolicy) {
    match e
    case InsertRows(_, _) => policy.allowInsert
    case UpdateRows(_, _) => policy.allowUpdate
    case DeleteRows(_, _) => policy.allowDelete
    case CreateTable(_, _) => policy.allowDdl
    case RunCommand(c, _) =>
      policy.allowDdl && (c.Drop? || c.Create? || c.Alter? || c.TruncateTable? || c.Grant?)
    case LockRows => !policy.readOnly
  }

  // ---------------------------------------------------------------- the verdict, exactly

  lemma {:induction false} KindsEmpty(ks: seq<Kind>, stmt: Node, policy: GuardPolicy)
    ensures KindViolations(ks, stmt, policy) == [] <==>
      forall k :: k in ks && !k.MergeKind? && Has(stmt, OfKind(k)) ==> Permitted(k, policy)
    decreases |ks|
  {
    if ks != [] {
      KindsEmpty(ks[1..], stmt, policy);
    }
  }

  lemma {:induction false} AllKinds(k: Kind)
    ensures k in MUTATIONS
  {
    match k
    case InsertKind => assert MUTATIONS[0] == k;
    case UpdateKind => assert MUTATIONS[1] == k;
    case DeleteKind => assert MUTATIONS[2] == k;
    case MergeKind => assert MUTATIONS[3] == k;
    case CommandOf(c) =>
      match c
      case Drop => assert MUTATIONS[4] == k;
      case Create => assert MUTATIONS[5] == k;
      case Alter => assert MUTATIONS[6] == k;
      case TruncateTable => assert MUTATIONS[7] == k;
      case Grant => assert MUTATIONS[8] == k;
      case Copy => assert MUTATIONS[9] == k;
      case RawCommand => assert MUTATIONS[10] == k;
      case Transaction => assert MUTATIONS[11] == k;
      case Commit => assert MUTATIONS[12] == k;
      case Rollback => assert MUTATIONS[13] == k;
      case SetVariable => assert MUTATIONS[14] == k;
  }

  lemma {:induction false} IntoEmpty(ls: seq<Located>, policy: GuardPolicy)
    ensures IntoViolations(ls, policy) == [] <==>
      forall l :: l in ls && l.node.Select? && l.node.into.Some? ==> policy.allowDdl
    decreases |ls|
  {
    if ls != [] {
      IntoEmpty(ls[1..], policy);
    }
  }

  lemma {:induction false} WhensEmpty(ls: seq<Located>, policy: GuardPolicy)
    ensures WhenViolations(ls, policy) == [] <==> forall l :: l in ls ==> !WhenDenied(l.node, policy)
    decreases |ls|
  {
    if ls != [] {
      WhensEmpty(ls[1..], policy);
    }
  }

  lemma {:induction false} ConflictsEmpty(ls: seq<Located>, policy: GuardPolicy)
    ensures ConflictViolations(ls, policy) == [] <==> forall l :: l in ls ==> !ConflictDenied(l.node, policy)
    decreases |ls|
  {
    if ls != [] {
      ConflictsEmpty(ls[1..], policy);
    }
  }

  predicate KindAllowed(n: Node, policy: GuardPolicy) {
    KindOf(n).Some? && !KindOf(n).value.MergeKind? ==> Permitted(KindOf(n).value, policy)
  }

  predicate IntoAllowed(n: Node, policy: GuardPolicy) {
    n.Select? && n.into.Some? ==> policy.allowDdl
  }

  predicate LockAllowed(n: Node, policy: GuardPolicy) {
    n.Lock? || n.Merge? ==> !policy.readOnly
  }

  predicate ConflictAllowed(n: Node, policy: GuardPolicy) {
    n.OnConflict? ==> !ConflictDenied(n, policy)
  }

  /** What the gate asks of one node. */
  predicate NodeAllowed(n: Node, policy: GuardPolicy) {
    KindAllowed(n, policy) && IntoAllowed(n, policy) && LockAllowed(n, policy) && !WhenDenied(n, policy)
        && ConflictAllowed(n, policy)
  }

  lemma {:induction false} FoundAll(stmt: Node, p: Node -> bool)
    ensures forall l :: l in FindAll(stmt, p) <==> Inside(l, stmt) && p(l.node)
  {
    forall l
      ensures l in FindAll(stmt, p) <==> Inside(l, stmt) && p(l.node)
    {
      FoundIffInside(stmt, p, l);
    }
  }

  lemma {:induction false} KindFound(stmt: Node, k: Kind)
    ensures Has(stmt, OfKind(k)) <==> exists l :: Inside(l, stmt) && KindOf(l.node) == Some(k)
  {
    HasIffInside(stmt, OfKind(k));
    assert forall l: Located :: OfKind(k)(l.node) <==> KindOf(l.node) == Some(k);
  }

  lemma {:induction false} KindsNodewise(stmt: Node, policy: GuardPolicy)
    ensures KindViolations(MUTATIONS, stmt, policy) == [] <==> forall l ::
        Inside(l, stmt) ==> KindAllowed(l.node, policy)
  {
    KindsEmpty(MUTATIONS, stmt, policy);
    forall k: Kind
      ensures k in MUTATIONS
      ensures Has(stmt, OfKind(k)) <==> exists l :: Inside(l, stmt) && KindOf(l.node) == Some(k)
    {
      AllKinds(k);
      KindFound(stmt, k);
    }
  }

  lemma {:induction false} IntoNodewise(stmt: Node, policy: GuardPolicy)
    ensures IntoViolations(FindAll(stmt, IsSelect), policy) == [] <==> forall l ::
        Inside(l, stmt) ==> IntoAllowed(l.node, policy)
  {
    IntoEmpty(FindAll(stmt, IsSelect), policy);
    FoundAll(stmt, IsSelect);
  }

  lemma {:induction false} WhensNodewise(stmt: Node, policy: GuardPolicy)
    ensures WhenViolations(FindAll(stmt, IsWhen), policy) == [] <==> forall l ::
        Inside(l, stmt) ==> !WhenDenied(l.node, policy)
  {
    WhensEmpty(FindAll(stmt, IsWhen), policy);
    FoundAll(stmt, IsWhen);
  }

  lemma {:induction false} ConflictsNodewise(stmt: Node, policy: GuardPolicy)
    ensures ConflictViolations(FindAll(stmt, IsOnConflict), policy) == [] <==> forall l ::
        Inside(l, stmt) ==> ConflictAllowed(l.node, policy)
  {
    ConflictsEmpty(FindAll(stmt, IsOnConflict), policy);
    FoundAll(stmt, IsOnConflict);
  }

  lemma {:induction false} MergeFound(stmt: Node)
    ensures Has(stmt, OfKind(MergeKind)) <==> exists l :: Inside(l, stmt) && l.node.Merge?
  {
    KindFound(stmt, MergeKind);
    assert forall l: Located :: KindOf(l.node) == Some(MergeKind) <==> l.node.Merge?;
  }

  lemma {:induction false} LocksNodewise(stmt: Node, policy: GuardPolicy)
    ensures !(policy.readOnly && Has(stmt, IsLock)) && !(policy.readOnly && Has(stmt, OfKind(MergeKind))) <==>
      forall l :: Inside(l, stmt) ==> LockAllowed(l.node, policy)
  {
    HasIffInside(stmt, IsLock);
    MergeFound(stmt);
  }

  lemma {:induction false} ReportEmpty(kinds: seq<Violation>, known: bool, into: seq<Violation>, lock: bool,
        whens: seq<Violation>, merge: bool, conflicts: seq<Violation>)
    ensures Report(kinds, known, into, lock, whens, merge, conflicts) == [] <==>
      kinds == [] && known && into == [] && !lock && whens == [] && !merge && conflicts == []
  {
  }

  /** The gate is a condition on every node, plus a known top statement. */
  lemma {:induction false} GateIsNodewise(stmt: Node, policy: GuardPolicy)
    ensures CheckStatementType(stmt, policy) == [] <==>
      KnownTop(stmt) && forall l :: Inside(l, stmt) ==> NodeAllowed(l.node, policy)
  {
    KindsNodewise(stmt, policy);
    IntoNodewise(stmt, policy);
    WhensNodewise(stmt, policy);
    ConflictsNodewise(stmt, policy);
    LocksNodewise(stmt, policy);
    ReportEmpty(KindViolations(MUTATIONS, stmt, policy), KnownTop(stmt),
                IntoViolations(FindAll(stmt, IsSelect), policy), policy.readOnly && Has(stmt, IsLock),
                WhenViolations(FindAll(stmt, IsWhen), policy), policy.readOnly && Has(stmt, OfKind(MergeKind)),
                ConflictViolations(FindAll(stmt, IsOnConflict), policy));
  }

  // ---------------------------------------------------------------- effects against grants

  lemma {:induction false} CanComesFromNode(l: Located, outer: TableName, e: Effect, root: Node)
    requires Inside(l, root) && Can(l.node, outer, e)
    ensures exists k, t :: Inside(k, root) && Own(k.node, t, e)
    decreases l.node, 1
  {
    KidsAreSubterms(l.node);
    if !Own(l.node, Target(l.node, outer), e) {
      CanAnyComesFromNode(l, Kids(l.node), Target(l.node, outer), e, root);
    }
  }

  lemma {:induction false} CanAnyComesFromNode(l: Located, ks: seq<Node>, outer: TableName, e: Effect, root: Node)
    requires Subterms(ks, l.node) && Inside(l, root) && (forall k :: k in ks ==> k in Kids(l.node))
        && CanAny(l.node, ks, outer, e)
    ensures exists k, t :: Inside(k, root) && Own(k.node, t, e)
    decreases l.node, 0, |ks|
  {
    if Can(ks[0], outer, e) {
      KidInside(l, ks[0], root);
      CanComesFromNode(Below(ks[0], l), outer, e, root);
    } else {
      CanAnyComesFromNode(l, ks[1..], outer, e, root);
    }
  }

  lemma {:induction false} UpdateNames()
    ensures Contains("DO UPDATE", "UPDATE") && Contains("UPDATE", "UPDATE")
  {
    assert "DO UPDATE"[1..][1..][1..] == "UPDATE";
    assert Contains("UPDATE", "UPDATE");
    assert Contains(" UPDATE", "UPDATE") by {
      assert " UPDATE"[1..] == "UPDATE";
    }
    assert Contains("O UPDATE", "UPDATE") by {
      assert "O UPDATE"[1..] == " UPDATE";
    }
    assert "DO UPDATE"[1..] == "O UPDATE";
  }

  lemma {:induction false} WriteIsGranted(n: Node, t: TableName, e: Effect, policy: GuardPolicy)
    requires Own(n, t, e) && NodeAllowed(n, policy) && (e.UpdateRows? || e.DeleteRows?)
    ensures Granted(e, policy)
  {
    UpdateNames();
  }

  lemma {:induction false} OwnIsGranted(n: Node, t: TableName, e: Effect, policy: GuardPolicy)
    requires Own(n, t, e) && NodeAllowed(n, policy)
    ensures Granted(e, policy)
  {
    if e.UpdateRows? || e.DeleteRows? {
      WriteIsGranted(n, t, e, policy);
    }
  }

  /** A passing statement can only bring about effects the policy's flags grant. */
  lemma {:induction false} EffectsAreGranted(stmt: Node, policy: GuardPolicy, e: Effect)
    requires CheckStatementType(stmt, policy) == [] && Can(stmt, NOWHERE, e)
    ensures Granted(e, policy)
  {
    RootInside(stmt);
    GateIsNodewise(stmt, policy);
    CanComesFromNode(Root(stmt), NOWHERE, e, stmt);
    var k, t :| Inside(k, stmt) && Own(k.node, t, e);
    OwnIsGranted(k.node, t, e, policy);
  }

  lemma {:induction false} NodeReaches(r: Located, l: Located, outer: TableName) returns (t: TableName)
    requires l in Walk(r)
    ensures forall e :: Own(l.node, t, e) ==> Can(r.node, outer, e)
    decreases r.node, 1
  {
    KidsAreSubterms(r.node);
    if l == r {
      t := Target(r.node, outer);
    } else {
      t := NodeReachesBelow(r, Kids(r.node), l, Target(r.node, outer));
    }
  }

  lemma {:induction false} NodeReachesBelow(r: Located, ks: seq<Node>, l: Located, outer: TableName)
    returns (t: TableName)
    requires Subterms(ks, r.node) && l in WalkAll(r, ks)
    ensures forall e :: Own(l.node, t, e) ==> CanAny(r.node, ks, outer, e)
    decreases r.node, 0, |ks|
  {
    if l in Walk(Below(ks[0], r)) {
      t := NodeReaches(Below(ks[0], r), l, outer);
    } else {
      t := NodeReachesBelow(r, ks[1..], l, outer);
    }
  }

  /** The conflict actions are those the parser knows. */
  ghost predicate ParsedConflicts(stmt: Node) {
    forall l :: Inside(l, stmt) && l.node.OnConflict? ==>
      (NamesUpdate(ConflictName(l.node)) ==> UpdatesOnConflict(l.node))
  }

  /** Some effect of the node on `t` is not granted. */
  ghost predicate Refused(n: Node, t: TableName, policy: GuardPolicy) {
    exists e :: Own(n, t, e) && !Granted(e, policy)
  }

  /** An effect of the node itself, or of the action under a WHEN. */
  lemma {:induction false} DeniedEffect(n: Node, policy: GuardPolicy) returns (w: Node)
    requires !NodeAllowed(n, policy)
    requires n.OnConflict? && ConflictDenied(n, policy) ==> UpdatesOnConflict(n)
    ensures w == n || w in Kids(n)
    ensures forall t :: Refused(w, t, policy)
  {
    w := n;
    if n.When? && n.action.Some? && !n.action.value.Var? {
      w := n.action.value;
      assert w in OptList(n.action);
    }
    forall t
      ensures Refused(w, t, policy)
    {
      if w.Insert? {
        assert Own(w, t, InsertRows(t, []));
      } else if w.Update? || w.OnConflict? {
        assert Own(w, t, UpdateRows(t, []));
      } else if w.Delete? || w.When? {
        assert Own(w, t, DeleteRows(t, []));
      } else if w.Select? {
        assert Own(w, t, CreateTable(t, Relation([], [])));
      } else if w.Command? {
        assert Own(w, t, RunCommand(w.command, map[]));
      } else {
        assert Own(w, t, LockRows);
      }
    }
  }

  lemma {:induction false} DeniedIsPossible(stmt: Node, l: Located, policy: GuardPolicy)
    requires Inside(l, stmt) && !NodeAllowed(l.node, policy) && ParsedConflicts(stmt)
    ensures exists e :: Can(stmt, NOWHERE, e) && !Granted(e, policy)
  {
    var w := DeniedEffect(l.node, policy);
    var at := l;
    if w != l.node {
      KidInside(l, w, stmt);
      at := Below(w, l);
    }
    var t := NodeReaches(Root(stmt), at, NOWHERE);
    assert Refused(w, t, policy);
    var e :| Own(w, t, e) && !Granted(e, policy);
    assert Can(stmt, NOWHERE, e);
  }

  /**
   * The gate is exact: a statement with a known top passes if and only if every effect it may bring
   * about, through WITH queries, MERGE actions, ON CONFLICT DO UPDATE and SELECT INTO alike, is granted.
   */
  lemma {:induction false} GateAdmitsExactlyGranted(stmt: Node, policy: GuardPolicy)
    requires ParsedConflicts(stmt)
    ensures CheckStatementType(stmt, policy) == [] <==>
      KnownTop(stmt) && forall e :: Can(stmt, NOWHERE, e) ==> Granted(e, policy)
  {
    GateIsNodewise(stmt, policy);
    if CheckStatementType(stmt, policy) == [] {
      forall e | Can(stmt, NOWHERE, e)
        ensures Granted(e, policy)
      {
        EffectsAreGranted(stmt, policy, e);
      }
    } else if KnownTop(stmt) {
      var l :| Inside(l, stmt) && !NodeAllowed(l.node, policy);
      DeniedIsPossible(stmt, l, policy);
    }
  }

  // ---------------------------------------------------------------- runs

  /** Under an accepted read-only policy a passing statement has no effect at all, not even a row lock. */
  lemma {:induction false} ReadOnlyHasNoEffect(stmt: Node, policy: GuardPolicy, run: seq<Effect>, db: Database)
    requires Accepted(policy) && policy.readOnly
    requires CheckStatementType(stmt, policy) == [] && RunOf(stmt, run)
    ensures run == [] && ApplyAll(db, run) == db
  {
    if run != [] {
      EffectsAreGranted(stmt, policy, run[0]);
      assert false;
    }
  }

  /** `d2` still has every table of `d1` with its rows in place, and maybe more rows. */
  ghost predicate Extends(d1: Database, d2: Database) {
    forall t :: t in d1 ==> t in d2 && d1[t].cols == d2[t].cols && d1[t].rows <= d2[t].rows
  }

  lemma {:induction false} ExtendsTrans(a: Database, b: Database, c: Database)
    requires Extends(a, b) && Extends(b, c)
    ensures Extends(a, c)
  {
  }

  lemma {:induction false} InsertExtends(e: Effect, policy: GuardPolicy, db: Database)
    requires !policy.allowUpdate && !policy.allowDelete && !policy.allowDdl && Granted(e, policy)
    ensures Extends(db, Apply(db, e)) && Apply(db, e).Keys == db.Keys
  {
  }

  lemma {:induction false} GrantedOnlyExtends(policy: GuardPolicy, run: seq<Effect>, db: Database)
    requires !policy.allowUpdate && !policy.allowDelete && !policy.allowDdl
    requires forall i :: 0 <= i < |run| ==> Granted(run[i], policy)
    ensures Extends(db, ApplyAll(db, run)) && ApplyAll(db, run).Keys == db.Keys
    decreases |run|
  {
    if run != [] {
      InsertExtends(run[0], policy, db);
      GrantedOnlyExtends(policy, run[1..], Apply(db, run[0]));
      ExtendsTrans(db, Apply(db, run[0]), ApplyAll(db, run));
    }
  }

  lemma {:induction false} RunIsGranted(stmt: Node, policy: GuardPolicy, run: seq<Effect>)
    requires CheckStatementType(stmt, policy) == [] && RunOf(stmt, run)
    ensures forall i :: 0 <= i < |run| ==> Granted(run[i], policy)
  {
    forall i | 0 <= i < |run|
      ensures Granted(run[i], policy)
    {
      EffectsAreGranted(stmt, policy, run[i]);
    }
  }

  /** Without the update, delete and DDL flags a passing statement only ever adds rows. */
  lemma {:induction false} InsertOnlyKeepsRows(stmt: Node, policy: GuardPolicy, run: seq<Effect>, db: Database)
    requires !policy.allowUpdate && !policy.allowDelete && !policy.allowDdl
    requires CheckStatementType(stmt, policy) == [] && RunOf(stmt, run)
    ensures Extends(db, ApplyAll(db, run)) && ApplyAll(db, run).Keys == db.Keys
  {
    RunIsGranted(stmt, policy, run);
    GrantedOnlyExtends(policy, run, db);
  }

  /** The same tables, none with more rows. */
  ghost predicate NoLarger(d1: Database, d2: Database) {
    d1.Keys == d2.Keys && forall t :: t in d1 ==> |d2[t].rows| <= |d1[t].rows|
  }

  lemma {:induction false} SubMultisetSize(a: multiset<seq<Value>>, b: multiset<seq<Value>>)
    requires a <= b
    ensures |a| <= |b|
  {
    assert b == a + (b - a);
  }

  lemma {:induction false} NoInsertShrinks(e: Effect, policy: GuardPolicy, db: Database)
    requires !policy.allowInsert && !policy.allowDdl && Granted(e, policy)
    ensures NoLarger(db, Apply(db, e))
  {
    if e.DeleteRows? && e.table in db && multiset(e.rows) <= multiset(db[e.table].rows) {
      SubMultisetSize(multiset(e.rows), multiset(db[e.table].rows));
    }
  }

  lemma {:induction false} GrantedNeverGrows(policy: GuardPolicy, run: seq<Effect>, db: Database)
    requires !policy.allowInsert && !policy.allowDdl
    requires forall i :: 0 <= i < |run| ==> Granted(run[i], policy)
    ensures NoLarger(db, ApplyAll(db, run))
    decreases |run|
  {
    if run != [] {
      NoInsertShrinks(run[0], policy, db);
      GrantedNeverGrows(policy, run[1..], Apply(db, run[0]));
    }
  }

  /** Without the insert and DDL flags no table appears, disappears or gains rows. */
  lemma {:induction false} NoInsertNoGrowth(stmt: Node, policy: GuardPolicy, run: seq<Effect>, db: Database)
    requires !policy.allowInsert && !policy.allowDdl
    requires CheckStatementType(stmt, policy) == [] && RunOf(stmt, run)
    ensures NoLarger(db, ApplyAll(db, run))
  {
    RunIsGranted(stmt, policy, run);
    GrantedNeverGrows(policy, run, db);
  }
}
