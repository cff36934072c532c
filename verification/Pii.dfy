/** Table-scoped PII columns: `check_pii_columns`. */
module Pii {
  import opened Syntax
  import opened Text
  import opened Traversal
  import opened Semantics
  import opened Policy
  import opened Tables
  import opened ColumnAllowlist

  type PiiConfig = map<string, set<string>>

  const PII_COLUMN := Violation("pii_column", High, BlockIt)

  /** A classified reference, the key it matched and its classified columns. */
  datatype Entry = Entry(table: Located, key: string, columns: set<string>)

  function FirstClassified(cands: seq<string>, configured: PiiConfig): Option<string> {
    if cands == [] then None
    else if Lower(cands[0]) in configured && configured[Lower(cands[0])] != {} then Some(Lower(cands[0]))
    else FirstClassified(cands[1..], configured)
  }

  /** `_matched_pii_columns`. */
  function MatchedPii(t: Node, configured: PiiConfig): (key: Option<string>)
    requires t.Table?
    ensures key.Some? ==> key.value in configured && configured[key.value] != {}
  {
    FirstClassifiedIn(KeyCandidates(t), configured);
    FirstClassified(KeyCandidates(t), configured)
  }

  /** The tables with classified columns. */
  function ClassifiedKeys(configured: PiiConfig): set<string> {
    set k | k in configured && configured[k] != {}
  }

  lemma {:induction false} FirstClassifiedIn(cands: seq<string>, configured: PiiConfig)
    ensures FirstClassified(cands, configured).Some? ==>
      FirstClassified(cands, configured).value in configured
          && configured[FirstClassified(cands, configured).value] != {}
  {
    if cands != [] {
      FirstClassifiedIn(cands[1..], configured);
    }
  }

  lemma {:induction false} ClassifiedOfOne(a: string, configured: PiiConfig)
    ensures FirstClassified([a], configured) == if Lower(a) in ClassifiedKeys(configured) then Some(Lower(a)) else None
  {
    assert [a][1..] == [];
  }

  lemma {:induction false} ClassifiedOfThree(a: string, b: string, c: string, configured: PiiConfig)
    ensures var keys := ClassifiedKeys(configured);
      FirstClassified([a, b, c], configured) ==
        if Lower(a) in keys then Some(Lower(a))
        else if Lower(b) in keys then Some(Lower(b))
        else if Lower(c) in keys then Some(Lower(c))
        else None
  {
    assert [a, b, c][1..] == [b, c] && [b, c][1..] == [c];
    ClassifiedOfOne(c, configured);
  }

  lemma {:induction false} LowerDotted(db: string, name: string)
    ensures Lower(db + "." + name) == Lower(db) + "." + Lower(name)
  {
    LowerAppend(db + ".", name);
    LowerAppend(db, ".");
    assert Lower(".") == ".";
  }

  /** A reference is classified exactly under its own key, schema and name folded. */
  lemma {:induction false} MatchedPiiExactly(t: Node, configured: PiiConfig)
    requires t.Table?
    ensures MatchedPii(t, configured) == OwnKey(Lower(t.db), Lower(t.name), ClassifiedKeys(configured))
  {
    LowerDotted(t.db, t.name);
    LowerDotted("public", t.name);
    LowerTwice(t.db);
    assert Lower("public") == "public";
    if t.db == "" {
      ClassifiedOfOne(t.name, configured);
    } else if Lower(t.db) == "public" {
      assert "public" + "." + t.name == "public." + t.name;
      assert "public" + "." + Lower(t.name) == "public." + Lower(t.name);
      ClassifiedOfThree(t.db + "." + t.name, "public." + t.name, t.name, configured);
    } else {
      ClassifiedOfOne(t.db + "." + t.name, configured);
    }
  }

  method FindMatchedPii(t: Node, configured: PiiConfig) returns (key: Option<string>)
    requires t.Table?
    ensures key == MatchedPii(t, configured)
  {
    var cands := KeyCandidates(t);
    var i := 0;
    while i < |cands|
      invariant 0 <= i <= |cands|
      invariant FirstClassified(cands[i..], configured) == FirstClassified(cands, configured)
    {
      var key := Lower(cands[i]);
      assert cands[i..][0] == cands[i] && cands[i..][1..] == cands[i + 1..];
      if key in configured && configured[key] != {} {
        return Some(key);
      }
      i := i + 1;
    }
    return None;
  }

  function EntryOf(t: Located, configured: PiiConfig): Option<Entry> {
    if !t.node.Table? then None
    else
      var key := MatchedPii(t.node, configured);
      if key.Some? then Some(Entry(t, key.value, configured[key.value])) else None
  }

  /** The classified references of the statement. */
  function Mapped(tables: seq<Located>, configured: PiiConfig): (r: seq<Entry>)
    ensures forall e :: e in r <==> e.table in tables && EntryOf(e.table, configured) == Some(e)
  {
    if tables == [] then []
    else
      var e := EntryOf(tables[0], configured);
      (if e.Some? then [e.value] else []) + Mapped(tables[1..], configured)
  }

  /** The entries whose nearest SELECT is `sel`. */
  function InSelect(mapped: seq<Entry>, sel: nat): (r: seq<Entry>)
    ensures forall e :: e in r <==> e in mapped && NearestSelect(e.table.up) == Some(sel)
  {
    if mapped == [] then []
    else (if NearestSelect(mapped[0].table.up) == Some(sel) then [mapped[0]] else []) + InSelect(mapped[1..], sel)
  }

  /** `_scope_tables`. */
  function ScopeTables(up: seq<Tag>, mapped: seq<Entry>): seq<Entry> {
    if NearestSelect(up).None? then mapped else InSelect(mapped, NearestSelect(up).value)
  }

  /** `_source_names`. */
  function SourceNames(t: Node): set<string>
    requires t.Table?
  {
    {Lower(t.name)} + (if t.alias != "" then {Lower(t.alias)} else {})
  }

  predicate NamedEntry(e: Entry, q: string) {
    e.table.node.Table? && q in SourceNames(e.table.node)
  }

  function WithName(entries: seq<Entry>, q: string): (r: seq<Entry>)
    ensures forall e :: e in r <==> e in entries && NamedEntry(e, q)
  {
    if entries == [] then [] else (if NamedEntry(entries[0], q) then [entries[0]] else []) + WithName(entries[1..], q)
  }

  // ---------------------------------------------------------------- reports

  /** The markers flagged so far and the violations. */
  datatype Report = Report(flagged: set<(string, string)>, out: seq<Violation>)

  function Flag(r: Report, key: string, mark: string): Report {
    if (key, mark) in r.flagged then r else Report(r.flagged + {(key, mark)}, r.out + [PII_COLUMN])
  }

  function FlagAll(r: Report, entries: seq<Entry>, mark: string): Report
    decreases |entries|
  {
    if entries == [] then r else FlagAll(Flag(r, entries[0].key, mark), entries[1..], mark)
  }

  /** One USING column against the sources joined so far. */
  function FlagUsing(r: Report, active: seq<Entry>, name: string): Report
    decreases |active|
  {
    if active == [] then r
    else FlagUsing(if name in active[0].columns then Flag(r, active[0].key, name) else r, active[1..], name)
  }

  function FlagUsings(r: Report, active: seq<Entry>, names: seq<string>): Report
    decreases |names|
  {
    if names == [] then r else FlagUsings(FlagUsing(r, active, Lower(names[0])), active, names[1..])
  }

  // ---------------------------------------------------------------- joins

  /** `_is_within`: following the parents of `t` leads to the source of join `i` of `s`. */
  predicate IsWithin(t: Located, s: Located, i: nat)
    requires s.node.Select? && i < |s.node.joins|
  {
    s.node.joins[i].Join? && t in Walk(Below(s.node.joins[i].arg, Below(s.node.joins[i], s)))
  }

  predicate InSomeJoin(t: Located, s: Located) {
    s.node.Select? && exists i :: 0 <= i < |s.node.joins| && IsWithin(t, s, i)
  }

  /** The entries outside every join. */
  function OutsideJoins(scoped: seq<Entry>, s: Located): (r: seq<Entry>)
    ensures forall e :: e in r <==> e in scoped && !InSomeJoin(e.table, s)
  {
    if scoped == [] then []
    else (if InSomeJoin(scoped[0].table, s) then [] else [scoped[0]]) + OutsideJoins(scoped[1..], s)
  }

  /** Join `i` brings its own entries into play. */
  function Activate(active: seq<Entry>, scoped: seq<Entry>, s: Located, i: nat): (r: seq<Entry>)
    requires s.node.Select? && i < |s.node.joins|
    ensures forall e :: e in r <==> e in active || (e in scoped && IsWithin(e.table, s, i))
    decreases |scoped|
  {
    if scoped == [] then active
    else
      Activate(if scoped[0] !in active && IsWithin(scoped[0].table, s, i) then active + [scoped[0]] else active,
               scoped[1..], s, i)
  }

  function FlagJoin(r: Report, active: seq<Entry>, j: Node): Report {
    if !j.Join? then r
    else FlagUsings(if IsNatural(j) then FlagAll(r, active, "NATURAL JOIN") else r, active, j.using)
  }

  function FlagJoins(r: Report, active: seq<Entry>, scoped: seq<Entry>, s: Located, i: nat): Report
    requires s.node.Select? && i <= |s.node.joins|
    decreases |s.node.joins| - i
  {
    if i == |s.node.joins| then r
    else
      var now := Activate(active, scoped, s, i);
      FlagJoins(FlagJoin(r, now, s.node.joins[i]), now, scoped, s, i + 1)
  }

  function FlagSelects(r: Report, selects: seq<Located>, mapped: seq<Entry>): Report
    decreases |selects|
  {
    if selects == [] then r
    else
      var s := selects[0];
      if !s.node.Select? then FlagSelects(r, selects[1..], mapped)
      else
        var scoped := InSelect(mapped, s.node.id);
        FlagSelects(FlagJoins(r, OutsideJoins(scoped, s), scoped, s, 0), selects[1..], mapped)
  }

  // ---------------------------------------------------------------- stars and columns

  function StarCandidates(star: Located, mapped: seq<Entry>): seq<Entry> {
    var scoped := ScopeTables(star.up, mapped);
    if star.up != [] && star.up[0].ColumnTag? && star.up[0].table != "" then WithName(scoped, Lower(star.up[0].table))
    else scoped
  }

  function FlagStars(r: Report, stars: seq<Located>, mapped: seq<Entry>): Report
    decreases |stars|
  {
    if stars == [] then r
    else
      FlagStars(if UnderCount(stars[0].up) then r else FlagAll(r, StarCandidates(stars[0], mapped), "*"),
                stars[1..], mapped)
  }

  function ColumnCandidates(col: Located, mapped: seq<Entry>): seq<Entry>
    requires col.node.Column?
  {
    var scoped := ScopeTables(col.up, mapped);
    if col.node.table != "" then WithName(scoped, Lower(col.node.table)) else scoped
  }

  predicate WholeRow(col: Node, e: Entry)
    requires col.Column?
  {
    col.table == "" && NamedEntry(e, Lower(col.name))
  }

  function FlagColumn(r: Report, entries: seq<Entry>, col: Node): Report
    requires col.Column?
    decreases |entries|
  {
    if entries == [] then r
    else
      var e := entries[0];
      FlagColumn(
        if WholeRow(col, e) then Flag(r, e.key, "*")
        else if Lower(col.name) in e.columns then Flag(r, e.key, Lower(col.name))
        else r,
        entries[1..], col)
  }

  function FlagColumns(r: Report, cols: seq<Located>, mapped: seq<Entry>): Report
    decreases |cols|
  {
    if cols == [] then r
    else FlagColumns(if cols[0].node.Column? then FlagColumn(r, ColumnCandidates(cols[0], mapped), cols[0].node)
        else r, cols[1..], mapped)
  }

  /** The three passes over the statement. */
  function PiiReport(selects: seq<Located>, stars: seq<Located>, cols: seq<Located>, mapped: seq<Entry>): Report {
    FlagColumns(FlagStars(FlagSelects(Report({}, []), selects, mapped), stars, mapped), cols, mapped)
  }

  function CheckPii(stmt: Node, tables: seq<Located>, policy: GuardPolicy): seq<Violation> {
    if policy.piiColumns.None? || policy.piiColumns.value == map[] then []
    else
      var mapped := Mapped(tables, policy.piiColumns.value);
      if mapped == [] then []
      else PiiReport(FindAll(stmt, IsSelect), FindAll(stmt, IsStar), FindAll(stmt, IsColumn), mapped).out
  }

  // ---------------------------------------------------------------- the loops

  method FindEntry(t: Located, configured: PiiConfig) returns (e: Option<Entry>)
    ensures e == EntryOf(t, configured)
  {
    e := None;
    if t.node.Table? {
      var key := FindMatchedPii(t.node, configured);
      if key.Some? {
        e := Some(Entry(t, key.value, configured[key.value]));
      }
    }
  }

  method CollectMapped(tables: seq<Located>, configured: PiiConfig) returns (mapped: seq<Entry>)
    ensures mapped == Mapped(tables, configured)
  {
    mapped := [];
    var i := 0;
    while i < |tables|
      invariant 0 <= i <= |tables|
      invariant mapped + Mapped(tables[i..], configured) == Mapped(tables, configured)
    {
      assert tables[i..][0] == tables[i] && tables[i..][1..] == tables[i + 1..];
      var e := FindEntry(tables[i], configured);
      if e.Some? {
        mapped := mapped + [e.value];
      }
      i := i + 1;
    }
  }

  method RunFlagAll(r0: Report, entries: seq<Entry>, mark: string) returns (r: Report)
    ensures r == FlagAll(r0, entries, mark)
  {
    r := r0;
    var i := 0;
    while i < |entries|
      invariant 0 <= i <= |entries|
      invariant FlagAll(r, entries[i..], mark) == FlagAll(r0, entries, mark)
    {
      assert entries[i..][0] == entries[i] && entries[i..][1..] == entries[i + 1..];
      r := Flag(r, entries[i].key, mark);
      i := i + 1;
    }
  }

  method RunFlagUsings(r0: Report, active: seq<Entry>, names: seq<string>) returns (r: Report)
    ensures r == FlagUsings(r0, active, names)
  {
    r := r0;
    var i := 0;
    while i < |names|
      invariant 0 <= i <= |names|
      invariant FlagUsings(r, active, names[i..]) == FlagUsings(r0, active, names)
    {
      assert names[i..][0] == names[i] && names[i..][1..] == names[i + 1..];
      var name := Lower(names[i]);
      ghost var r1 := r;
      var k := 0;
      while k < |active|
        invariant 0 <= k <= |active|
        invariant FlagUsing(r, active[k..], name) == FlagUsing(r1, active, name)
      {
        assert active[k..][0] == active[k] && active[k..][1..] == active[k + 1..];
        if name in active[k].columns {
          r := Flag(r, active[k].key, name);
        }
        k := k + 1;
      }
      i := i + 1;
    }
  }

  /** The join-order walk of one SELECT; `active` grows join by join. */
  method RunJoins(r0: Report, s: Located, mapped: seq<Entry>) returns (r: Report)
    requires s.node.Select?
    ensures r == FlagJoins(r0, OutsideJoins(InSelect(mapped, s.node.id), s), InSelect(mapped, s.node.id), s, 0)
  {
    var scoped := InSelect(mapped, s.node.id);
    var joins := s.node.joins;
    var active := OutsideJoins(scoped, s);
    ghost var first := active;
    r := r0;
    var i := 0;
    while i < |joins|
      invariant 0 <= i <= |joins|
      invariant FlagJoins(r, active, scoped, s, i) == FlagJoins(r0, first, scoped, s, 0)
    {
      var k := 0;
      ghost var before := active;
      while k < |scoped|
        invariant 0 <= k <= |scoped|
        invariant Activate(active, scoped[k..], s, i) == Activate(before, scoped, s, i)
      {
        assert scoped[k..][0] == scoped[k] && scoped[k..][1..] == scoped[k + 1..];
        if scoped[k] !in active && IsWithin(scoped[k].table, s, i) {
          active := active + [scoped[k]];
        }
        k := k + 1;
      }
      assert scoped[k..] == [];
      assert active == Activate(before, scoped, s, i);
      if joins[i].Join? {
        if IsNatural(joins[i]) {
          r := RunFlagAll(r, active, "NATURAL JOIN");
        }
        r := RunFlagUsings(r, active, joins[i].using);
      }
      i := i + 1;
    }
  }

  method RunSelects(r0: Report, selects: seq<Located>, mapped: seq<Entry>) returns (r: Report)
    ensures r == FlagSelects(r0, selects, mapped)
  {
    r := r0;
    var i := 0;
    while i < |selects|
      invariant 0 <= i <= |selects|
      invariant FlagSelects(r, selects[i..], mapped) == FlagSelects(r0, selects, mapped)
    {
      assert selects[i..][0] == selects[i] && selects[i..][1..] == selects[i + 1..];
      if selects[i].node.Select? {
        r := RunJoins(r, selects[i], mapped);
      }
      i := i + 1;
    }
  }

  method RunStarPass(r0: Report, stars: seq<Located>, mapped: seq<Entry>) returns (r: Report)
    ensures r == FlagStars(r0, stars, mapped)
  {
    r := r0;
    var i := 0;
    while i < |stars|
      invariant 0 <= i <= |stars|
      invariant FlagStars(r, stars[i..], mapped) == FlagStars(r0, stars, mapped)
    {
      assert stars[i..][0] == stars[i] && stars[i..][1..] == stars[i + 1..];
      if !UnderCount(stars[i].up) {
        r := RunFlagAll(r, StarCandidates(stars[i], mapped), "*");
      }
      i := i + 1;
    }
  }

  method RunColumnPass(r0: Report, cols: seq<Located>, mapped: seq<Entry>) returns (r: Report)
    ensures r == FlagColumns(r0, cols, mapped)
  {
    r := r0;
    var i := 0;
    while i < |cols|
      invariant 0 <= i <= |cols|
      invariant FlagColumns(r, cols[i..], mapped) == FlagColumns(r0, cols, mapped)
    {
      assert cols[i..][0] == cols[i] && cols[i..][1..] == cols[i + 1..];
      if cols[i].node.Column? {
        r := RunColumn(r, ColumnCandidates(cols[i], mapped), cols[i].node);
      }
      i := i + 1;
    }
  }

  method RunColumn(r0: Report, entries: seq<Entry>, col: Node) returns (r: Report)
    requires col.Column?
    ensures r == FlagColumn(r0, entries, col)
  {
    r := r0;
    var i := 0;
    while i < |entries|
      invariant 0 <= i <= |entries|
      invariant FlagColumn(r, entries[i..], col) == FlagColumn(r0, entries, col)
    {
      var e := entries[i];
      assert entries[i..][0] == e && entries[i..][1..] == entries[i + 1..];
      if WholeRow(col, e) {
        r := Flag(r, e.key, "*");
      } else if Lower(col.name) in e.columns {
        r := Flag(r, e.key, Lower(col.name));
      }
      i := i + 1;
    }
  }

  method RunPiiReport(selects: seq<Located>, stars: seq<Located>, cols: seq<Located>, mapped: seq<Entry>)
    returns (r: Report)
    ensures r == PiiReport(selects, stars, cols, mapped)
  {
    r := RunSelects(Report({}, []), selects, mapped);
    r := RunStarPass(r, stars, mapped);
    r := RunColumnPass(r, cols, mapped);
  }

  method RunCheckPii(stmt: Node, tables: seq<Located>, policy: GuardPolicy) returns (violations: seq<Violation>)
    ensures violations == CheckPii(stmt, tables, policy)
  {
    if policy.piiColumns.None? || policy.piiColumns.value == map[] {
      return [];
    }
    var mapped := CollectMapped(tables, policy.piiColumns.value);
    if mapped == [] {
      return [];
    }
    var r := RunPiiReport(FindAll(stmt, IsSelect), FindAll(stmt, IsStar), FindAll(stmt, IsColumn), mapped);
    return r.out;
  }
}
