# A verified model of ko-sqlguard

ko-sqlguard decides from a SQL syntax tree alone whether a statement may be forwarded to a database. Each of
its checks is a syntactic walk that claims something about what the statement *means*. This project models the
statement tree, the checks, the guard pipeline and guarded execution, gives queries a denotational semantics,
and proves for every statement and every database what a passing (or failing) check implies.

`dafny verify dfyconfig.toml` checks the whole project. Every lemma carries `{:induction false}`: every induction is
an explicit recursive call, and none is left to the verifier.

## How it is built

* **Statements** (`Syntax`, `Traversal`). One node type, as in the parser's class hierarchy. `find_all` is the
  breadth-first walk of the parser, proved to visit exactly the nodes of the tree; ancestors are kept as tags.
* **Meaning** (`SqlValues`, `Semantics`). A query maps a database and the rows of the enclosing queries to a
  relation: three-valued logic, LIKE, comma/CROSS/inner/outer/NATURAL/USING/LATERAL joins, WITH scoping, set
  operations, aggregation over one group, correlated subqueries, whole-row references and LIMIT/FETCH. The
  result of scalar functions, arithmetic, casts and named aggregates is any function of their arguments.
* **Noninterference** (`Scoping`, `Noninterference`, `Origins`). `NeedsQuery` lists every table, column, star and
  join column a query reads, with the sources in scope there. One theorem, `QuerySame`, says that a query whose
  needs are visible under a view of the database returns the same relation on any two databases that agree on
  that view; another, `ReadsAreRooted`, says every need is an occurrence of the tree bound by the right SELECT.
  The table, column and PII theorems and the correlation theorem are instances.
* **The checks** are written as the code writes them: loops over lists, sets and maps, early exits, depth and node
  budgets, a mutable union-find object. Each method is proved equal to a specification function, and the theorems
  are about that function. The union-find object is a class whose trees are proved to be the connected components
  of the unions made.
* **Verdicts** (`GuardVerdict`, `GateVerdict`, `ColumnVerdict`, `PiiVerdict`, `CartesianVerdict`, `TautologyVerdict`,
  `InferenceVerdict`, `CostVerdict`, parts of `Limiting` and `TableAllowlist`). For every check one theorem says exactly
  when it reports, in terms of the fields of the nodes, lexical positions and the policy, without the functions the
  check is computed with. The bounds of the code (50 parentheses, depth 200, 10000 nodes), its violation codes and
  severities appear there as literals.
* **Execution** drives a connection object that logs every call; the driver decides the outcome of every call.

Every check takes the statement after identifier normalisation. An absent name or alias is the empty string. Table
and SELECT nodes carry an `id`, standing for node identity; `UniqueIds` says ids are not shared.

## What was found

Some statements one might expect to hold of the code do not. For each there is a concrete input, the exact condition
under which the statement holds, and a theorem that carries that condition:

* `check_tables` compares display labels, so a quoted table name containing a dot can hide behind a qualified
  reference (`DottedNameIsHidden`). It passes exactly when every reference matches or repeats an earlier label
  (`CheckTablesExact`); the guarantee holds wherever one label means one table (`LabelsTell`, true of names without
  dots).
* The product check only looks at SELECTs with a comma or CROSS JOIN. Its verdict is right about a SELECT exactly if
  there is one, or if no two relations are apart (`VerdictRightExactly`); every other SELECT with relations apart is
  missed although its rows can be spliced (`MissedProduct`), the shortest being `a JOIN b ON TRUE`
  (`OnTrueJoinPasses`).
* A column alias list on a table (`t AS a(x)`) is not seen by the column and PII checks (`AliasListEscapes`,
  `AliasListEscapesPii`). On `SELECT alias.name FROM t AS alias(columns)` what they promise holds exactly when `name`
  is not in the list (`ColumnCheckHoldsExactly`, `PiiCheckHoldsExactly`).
* A whole-row reference through a source name that is not lower case is not seen by the column check
  (`UpperCaseRowEscapes`). On the statements `SELECT name FROM t AS alias` it passes, what it promises holds exactly
  when `name` is not the alias (`RowNameHoldsExactly`).
* A star anywhere below COUNT is skipped by the PII check, not only the argument of COUNT (`CountedStarEscapesPii`).
  It passes `SELECT COUNT((SELECT * FROM t AS alias(columns)))` whatever is classified, and what it promises holds
  exactly when `t` is not classified (`CountedStarHoldsExactly`).
* Folding ignores NULL, so `x = x` is constant true although it is not TRUE on NULL. A folded comparison, IN or LIKE has
  its verdict exactly where its left side is not NULL (`LeafExact`), and a folded predicate exactly where it is
  `Decided`: of an OR one TRUE part is enough, of an AND one FALSE part (`VerdictExactly`). A flagged root filters
  nothing exactly if it is decided in every row (`FlaggedRootKeepsExactly`); `name = 'x' OR 1 = 1` is, also where name
  is NULL (`OrTrueKeepsEverything`).
* A subquery over an unqualified column counts as uncorrelated although the column may be the outer row's
  (`UnqualifiedFollowsTheRow`). `(SELECT name FROM t AS alias)` over a one-row table is independent of the outer row
  exactly when `name` is a column of `t` (`UncorrelatedHoldsExactly`).
* `max_limit` alone leaves a query without a bound unbounded: it bounds every query that reads a source exactly when a
  default limit is set too (`MaximumNeedsDefault`). A bound that is not an integer literal (`FETCH FIRST ROW ONLY`,
  `LIMIT 1e2`) is replaced by `max_limit` and can thereby be raised (`RaisedExactly`, `FetchFirstRowIsRaised`).

## Model

| member | source | states |
|---|---|---|
| Traversal.BfsIsPermutation | src/ko_sqlguard/checks/_ast.py:59-60 | the breadth-first walk behind every search visits each occurrence of each node of the statement exactly once |
| Traversal.FoundIffInside | src/ko_sqlguard/checks/_ast.py:59-60 | a search returns exactly the occurrences in the tree that satisfy its predicate |
| Traversal.FoundByLevel | src/ko_sqlguard/checks/_ast.py:59-60 | a search yields the nodes level by level |
| Traversal.ChildrenExactly | src/ko_sqlguard/checks/_ast.py:59-60 | the walk descends into every field of every kind of node that holds nodes, and into nothing else |
| Traversal.TagExactly | src/ko_sqlguard/checks/pii.py:132-140 | a position tells of each node above it whether it is a SELECT and which, a COUNT, or a column and its qualifier |
| Text.CaseExactly | src/ko_sqlguard/checks/pii.py:35-39 | case folding exchanges the 26 letters for their counterparts and leaves everything else alone |
| SqlValues.MatchesItself | src/ko_sqlguard/checks/tautology.py:182-183 | every string, read as a LIKE pattern, matches itself, wildcards included |
| SqlValues.AllPercentMatches | src/ko_sqlguard/checks/tautology.py:171-172 | a non-empty pattern of percent signs matches every string |
| SqlValues.CompareSelf | src/ko_sqlguard/checks/tautology.py:44-45 | a non-NULL value compared with itself gives TRUE for =, <=, >= and FALSE for the other operators |
| Origins.ReadsAreRooted | src/ko_sqlguard/checks/_ast.py:63-78 | everything a query reads is an occurrence in its tree, and the sources in scope there are those of an enclosing SELECT bound by lexical scoping |
| Noninterference.QuerySame | src/ko_sqlguard/checks/allowlist.py:19-41 | a query whose reads are all visible under a view returns the same relation on any two databases that agree on that view |
| Tables.ScopePhysicalTables | src/ko_sqlguard/checks/_ast.py:63-78 | the loops over scopes and sources return the first occurrence of every physical node, in order |
| Tables.FindRealTables | src/ko_sqlguard/checks/_ast.py:81-108 | the two passes with their shared seen-set return the union of what the resolver and the statement-wide pass accept, each node once |
| Tables.GlobalPassExact | src/ko_sqlguard/checks/_ast.py:102-106 | the statement-wide pass returns exactly the base-table references of lexical scoping except unqualified ones named like some WITH query |
| Tables.RealTablesExact | src/ko_sqlguard/checks/_ast.py:81-108 | with a correct resolver the reported tables are precisely the references bound to base tables, each once; when it raises, only namesakes of WITH queries are missed |
| Tables.TablesFound | src/ko_sqlguard/checks/_ast.py:81-108 | the reported tables are the base-table references wherever the resolver is correct, or it raises and no base-table reference is named like a WITH query |
| TableAllowlist.FindMatch | src/ko_sqlguard/checks/allowlist.py:11-16 | the loop returns the first candidate key of the reference that is in the allowlist |
| TableAllowlist.MatchTableExactly | src/ko_sqlguard/checks/_ast.py:111-124 | a reference is listed exactly under its own key: the name without a schema; for schema public in any case the written schema, public and the bare name in this order; for any other schema the dotted name only |
| TableAllowlist.RunCheckTables | src/ko_sqlguard/checks/allowlist.py:19-41 | the loop with its seen-set of labels computes the report the theorems are about |
| TableAllowlist.CheckTablesExact | src/ko_sqlguard/checks/allowlist.py:26-40 | no violation if and only if every reference matches the allowlist or has a label that occurred earlier |
| TableAllowlist.CheckTablesPasses | src/ko_sqlguard/checks/allowlist.py:19-41 | on names without dots the check passes if and only if every reference matches the allowlist |
| TableAllowlist.TablesPassExactly | src/ko_sqlguard/checks/allowlist.py:19-41 | the check is silent if and only if every reference has its own key in the allowlist or a label that occurred earlier |
| PipelineMeaning.TablesAlike | src/ko_sqlguard/checks/allowlist.py:30-40 | whatever the table allowlist reports is table_not_allowed, HIGH and blocking |
| TableAllowlist.PlainLabelsTell | src/ko_sqlguard/checks/allowlist.py:26-29 | references whose names have no dots have one label only if they name one table, which is what the guarantees ask |
| TableAllowlist.DottedNameIsHidden | src/ko_sqlguard/checks/allowlist.py:26-29 | a concrete pair of references where a dotted name hides an unlisted table behind an earlier label |
| TableAllowlist.TableNoninterference | src/ko_sqlguard/checks/allowlist.py:19-41 | if the table check passes, whether the resolver succeeds or raises with no namesake of a WITH query, the statement returns the same relation on databases that agree on the tables whose own key is listed, however WITH clauses nest and reuse table names; references with one label must be one table |
| ColumnAllowlist.RunResolveDerived | src/ko_sqlguard/checks/allowlist.py:218-247 | the search through column aliases and projections returns the base table and column behind a derived column |
| ColumnSources.BehindExactly | src/ko_sqlguard/checks/allowlist.py:210-247 | a derived column resolves to a table and column if and only if the first matching name of the column list, or else the first projection of that name, is that column of the first fitting table inside |
| ColumnSources.DerivedExactly | src/ko_sqlguard/checks/allowlist.py:76-92 | a name is a derived table if and only if a LATERAL source or else a subquery over a SELECT carries it, the last one counting |
| ColumnSources.StarReadsExactly | src/ko_sqlguard/checks/allowlist.py:107-113 | the tables a bare star stands for are those anywhere in the SELECT around it |
| ColumnMeaning.ColumnsForExactly | src/ko_sqlguard/checks/allowlist.py:57-75 | the column list of a reference is the one under its own key among the tables with column lists |
| ColumnVerdict.QualifiedExact | src/ko_sqlguard/checks/allowlist.py:138-173 | a qualified reference is reported if and only if the last restricted source of that name does not allow it, or it resolves through a derived table to a forbidden column, or no source has the name; WITH names pass |
| ColumnVerdict.UnqualifiedExact | src/ko_sqlguard/checks/allowlist.py:174-206 | an unqualified reference is reported if and only if it names a restricted source, or the single table or every restricted one forbids it |
| ColumnVerdict.StarExact | src/ko_sqlguard/checks/allowlist.py:97-117 | t.* is reported if and only if a restricted source is called t; * if and only if its SELECT reads a restricted table or no table; the star of COUNT(*) never |
| ColumnAllowlist.RunCheckColumns | src/ko_sqlguard/checks/allowlist.py:44-207 | the loops over tables, derived tables, stars, USING lists and columns compute the report the theorem is about |
| ColumnVerdict.CheckColumnsExact | src/ko_sqlguard/checks/allowlist.py:44-207 | the check is silent if and only if no restricted table is referenced or every star, column and USING name in the statement is allowed |
| PipelineMeaning.ColumnsAlike | src/ko_sqlguard/checks/allowlist.py:250-270 | whatever the column allowlist reports is column_not_allowed, HIGH and blocking |
| ColumnMeaning.UnqualifiedAgainst | src/ko_sqlguard/checks/allowlist.py:174-206 | an unqualified name that passes is an allowed column of every restricted reference and not the whole row of one |
| ColumnMeaning.QualifiedBindOk | src/ko_sqlguard/checks/allowlist.py:138-173 | a qualified name that passes is visible in every source in scope that the qualifier can mean, however scopes nest |
| ColumnMeaning.ColumnNoninterference | src/ko_sqlguard/checks/allowlist.py:44-207 | if the table and column checks pass on a ready statement, its result is the same on databases that agree on the allowed columns of restricted tables and on unrestricted allowed tables |
| Provisos.AliasListEscapes | src/ko_sqlguard/checks/allowlist.py:138-147 | a statement with a column alias list passes both checks although its result depends on a hidden column |
| Provisos.UpperCaseRowEscapes | src/ko_sqlguard/checks/allowlist.py:176-190 | a whole-row reference through an upper-case source name passes both checks although its result depends on a hidden column |
| Provisos.AliasListEscapesPii | src/ko_sqlguard/checks/pii.py:152-175 | a statement with a column alias list passes the PII check although its result depends on a classified column |
| Provisos.CountedStarEscapesPii | src/ko_sqlguard/checks/pii.py:132-134 | a star nested below COUNT passes the PII check although the count tells whether a classified value is NULL |
| SingleSource.ColumnCheckHoldsExactly | src/ko_sqlguard/checks/allowlist.py:138-147 | on SELECT alias.name FROM t AS alias(columns) with name allowed and something hidden the checks pass, and the result is independent of hidden columns if and only if the alias list does not introduce name |
| SingleSource.PiiCheckHoldsExactly | src/ko_sqlguard/checks/pii.py:152-175 | on the same statements with name unclassified the PII check passes, and the result is independent of classified columns if and only if the alias list does not introduce name |
| SingleSource.RowNameHoldsExactly | src/ko_sqlguard/checks/allowlist.py:174-190 | on the passing statements SELECT name FROM t AS alias the result is independent of hidden columns if and only if name is not the alias as written |
| SingleSource.CountedStarHoldsExactly | src/ko_sqlguard/checks/pii.py:132-134 | SELECT COUNT((SELECT * FROM t AS alias(columns))) passes the PII check whatever is classified, and its result is independent of classified columns if and only if t is not classified; classified names are folded as the policy stores them |
| Pii.FindMatchedPii | src/ko_sqlguard/checks/pii.py:11-22 | the loop returns the first folded candidate key with classified columns |
| Pii.MatchedPiiExactly | src/ko_sqlguard/checks/pii.py:11-22 | a reference is classified exactly under its own key, schema and name folded, among the tables with classified columns |
| Pii.RunJoins | src/ko_sqlguard/checks/pii.py:104-130 | the join-order walk with its growing active list flags exactly the sources joined so far |
| Pii.RunCheckPii | src/ko_sqlguard/checks/pii.py:75-176 | the three passes over SELECTs, stars and columns compute the report the theorem is about |
| PiiMeaning.CheckPiiExact | src/ko_sqlguard/checks/pii.py:75-176 | the check is silent if and only if no star stands for a classified source, no column names a classified column or row, and no USING or NATURAL join touches one |
| PiiVerdict.PiiReportedExactly | src/ko_sqlguard/checks/pii.py:75-176 | the check reports if and only if a classified reference is exposed: by a star in its SELECT and not below COUNT, by a column in its SELECT of a classified name or unqualified of the name of the reference, or by a NATURAL join or a USING column once the reference has joined; qualifiers must name the reference |
| PipelineMeaning.PiiAlike | src/ko_sqlguard/checks/pii.py:53-72 | whatever the PII check reports is pii_column, HIGH and blocking |
| PiiMeaning.SafeProjectionUsable | src/ko_sqlguard/checks/pii.py:132-151 | a SELECT that reads no classified base table directly is never reported for its stars, columns or joins: projections of derived tables and WITH queries stay usable by an outer star |
| PiiMeaning.OnlyClassifiedSelectsMatter | src/ko_sqlguard/checks/pii.py:75-176 | the check is silent if and only if the SELECTs that read a classified base table directly, and what stands outside every SELECT, are quiet |
| PiiMeaning.PiiNoninterference | src/ko_sqlguard/checks/pii.py:75-176 | if the PII report is empty and no nested reference can name an outer classified column, the result is the same on databases that differ in classified columns only, through stars, whole rows, USING and NATURAL |
| UnionFind.LinkedIsLeast | src/ko_sqlguard/checks/cartesian.py:31-53 | being linked is contained in every reflexive, symmetric and transitive relation that contains the unions made |
| UnionFind.Dsu.Add | src/ko_sqlguard/checks/cartesian.py:37-38 | a new label becomes its own class and nothing else changes |
| UnionFind.Dsu.Find | src/ko_sqlguard/checks/cartesian.py:40-47 | find terminates, returns the root of the class, and path compression changes no class and no representative |
| UnionFind.Dsu.Union | src/ko_sqlguard/checks/cartesian.py:49-50 | the parent map stays an acyclic forest whose trees are the classes of all unions made so far, this one included |
| UnionFind.Dsu.Components | src/ko_sqlguard/checks/cartesian.py:52-53 | the count is the number of classes of the unions that meet the given labels |
| UnionFind.OneComponent | src/ko_sqlguard/checks/cartesian.py:52-53 | there is at most one class among the labels if and only if any two labels are linked |
| Cartesian.AndEqualities | src/ko_sqlguard/checks/cartesian.py:62-85 | the stack loop returns what the worklist specification yields within the node budget |
| Cartesian.AndEqualitiesExact | src/ko_sqlguard/checks/cartesian.py:62-85 | the result is a prefix and a sub-multiset of the AND-connected equalities, and all of them when at most 10000 nodes are visited |
| CartesianMeaning.ConjunctsTrue | src/ko_sqlguard/checks/cartesian.py:62-85 | every equality of a predicate that the walk may return is TRUE wherever the predicate is TRUE |
| Cartesian.JudgeProduct | src/ko_sqlguard/checks/cartesian.py:112-187 | the per-SELECT loops over a fresh union-find decide exactly the flagging condition |
| Cartesian.RunCheckCartesian | src/ko_sqlguard/checks/cartesian.py:106-188 | the loop over the top-level SELECTs computes the report the theorems are about |
| CartesianMeaning.CheckCartesianExact | src/ko_sqlguard/checks/cartesian.py:106-188 | the check is silent if and only if it is off or no top-level SELECT has both a comma or CROSS JOIN and two relations that no chain of drawn equalities links |
| CartesianVerdict.ProductExactly | src/ko_sqlguard/checks/cartesian.py:122-141 | a join makes a SELECT a candidate if and only if it is not LATERAL, has no ON and no USING, and has kind CROSS or neither kind nor side |
| CartesianVerdict.AndedExactly | src/ko_sqlguard/checks/cartesian.py:62-85 | the walk over a predicate yields exactly the equalities among the first 10000 nodes that AND and parentheses reach, the right side of an AND first |
| CartesianVerdict.ConnectedExactly | src/ko_sqlguard/checks/cartesian.py:88-103 | two names are connected if and only if a chain of equalities of ON and WHERE clauses between qualified columns, or of USING lists, leads from one to the other |
| CartesianVerdict.FlaggedSpelled | src/ko_sqlguard/checks/cartesian.py:112-187 | a SELECT is flagged if and only if it has a comma or CROSS JOIN and two of its labels are not connected, or it has two relations but no two labels |
| CartesianVerdict.CartesianReportedExactly | src/ko_sqlguard/checks/cartesian.py:106-188 | the check reports if and only if it is on and such a SELECT is the statement, an operand of its set operation or directly wrapped by it |
| CartesianVerdict.CommaReported | src/ko_sqlguard/checks/cartesian.py:134-137 | FROM a, b without a WHERE clause is reported whenever the two labels differ |
| CartesianMeaning.FlaggedExactly | src/ko_sqlguard/checks/cartesian.py:112-187 | a SELECT over comma, CROSS and inner joins is flagged if and only if it has a comma or CROSS JOIN and two relations are apart |
| CartesianVerdict.PlainFlaggedSpelled | src/ko_sqlguard/checks/cartesian.py:112-187 | the same with the comma and CROSS JOIN spelled out on the fields of the join |
| CartesianMeaning.VerdictRightExactly | src/ko_sqlguard/checks/cartesian.py:122-141 | flagging agrees with "two relations are apart" if and only if there is a comma or CROSS JOIN or nothing is apart |
| CartesianMeaning.TogetherMeansLinked | src/ko_sqlguard/checks/cartesian.py:142-187 | where nothing is apart, in every row any two relations, whatever joins them, are linked by a chain of column equalities that are TRUE in that row; no ON equality may use a relation joined later (OnScoped) |
| CartesianMeaning.PassMeansLinked | src/ko_sqlguard/checks/cartesian.py:106-188 | no violation on a product candidate means that in every row any two relations are joined by a chain of column equalities that are TRUE in that row; no ON equality may use a relation joined later (OnScoped) |
| CartesianMeaning.FlaggedMeansProduct | src/ko_sqlguard/checks/cartesian.py:106-188 | a violation on AND-ed equalities means two relations are unlinked and any two rows can be spliced along a component boundary into another row |
| CartesianMeaning.MissedProduct | src/ko_sqlguard/checks/cartesian.py:122-141 | without a comma or CROSS JOIN a SELECT of AND-ed equalities with two relations apart is not flagged although any two rows splice into another row |
| CartesianMeaning.OnTrueJoinPasses | src/ko_sqlguard/checks/cartesian.py:122-141 | the concrete case: an ON TRUE join is never flagged although every combination of rows is a row |
| Tautology.Lit | src/ko_sqlguard/checks/tautology.py:81-94 | the paren-peeling loop returns the value of a literal of any kind |
| Tautology.FindNullTest | src/ko_sqlguard/checks/tautology.py:48-64 | the peeling loops return the operand and polarity of a NULL test |
| Tautology.FindInHit | src/ko_sqlguard/checks/tautology.py:154-164 | the loop over an IN list reports exactly a list that contains its left side |
| Tautology.EvalConst | src/ko_sqlguard/checks/tautology.py:107-201 | the recursive folder as the code runs it, with its depth cap, peeling loops and IN loop, computes the verdict the theorems are about |
| TautologyVerdict.LikeFoldsExactly | src/ko_sqlguard/checks/tautology.py:165-186 | LIKE folds, and then to true, if and only if the pattern is a non-empty string of percent signs, or has no wildcard and is the text on its left, or both sides are one column |
| TautologyVerdict.InFoldsExactly | src/ko_sqlguard/checks/tautology.py:152-164 | IN folds, and then to true, if and only if it has no subquery and its list holds the literal value or the column on its left |
| TautologyVerdict.CmpFoldsExactly | src/ko_sqlguard/checks/tautology.py:145-201 | a comparison folds to b if and only if it compares one column with itself and b is the answer of =, >= or <=, or two literals and b is their comparison; an ordering needs literals of one kind |
| TautologyVerdict.NullOrNotExactly | src/ko_sqlguard/checks/tautology.py:48-78 | an OR is a NULL complement if and only if its sides test the same operand for NULL and for NOT NULL, in either order and either spelling |
| TautologyVerdict.FoldsExactly | src/ko_sqlguard/checks/tautology.py:107-201 | a predicate folds to b at depth d if and only if d < 200 and the folding rules, spelled out for every kind of node, give b within 200 - d levels |
| TautologyVerdict.PercentReported | src/ko_sqlguard/checks/tautology.py:171-172 | WHERE x LIKE '%' is reported whatever x is |
| Tautology.ConstEvalSound | src/ko_sqlguard/checks/tautology.py:107-201 | a predicate folded to b never evaluates to the opposite of b, and evaluates to b on every row where no operand is NULL |
| Tautology.LeafExact | src/ko_sqlguard/checks/tautology.py:142-198 | a comparison, IN or LIKE that folds never evaluates to the opposite, and has its verdict in a row if and only if its left operand is not NULL there; literals always |
| Tautology.VerdictExactly | src/ko_sqlguard/checks/tautology.py:107-201 | a folded verdict is the truth value of the predicate in a row if and only if it is decided there: folded parts by their leaves, unfolded parts by their own value, one TRUE part of an OR or one FALSE part of an AND being enough |
| Tautology.GroundedIsExact | src/ko_sqlguard/checks/tautology.py:107-201 | a verdict is exact on every row where some reason for it is decided by folded leaves alone, whatever the unfolded parts are |
| Tautology.NoNullIsGrounded | src/ko_sqlguard/checks/tautology.py:107-201 | on a row without NULL operands every folded verdict is grounded |
| Tautology.SelfEqualityNeedsValue | src/ko_sqlguard/checks/tautology.py:145-151 | a column equated with itself is folded to true, and is TRUE exactly where the column is not NULL |
| Tautology.CapOnlyLoses | src/ko_sqlguard/checks/tautology.py:104-113 | from any start depth the capped folder returns nothing or the verdict of the uncapped one |
| Tautology.DepthMonotone | src/ko_sqlguard/checks/tautology.py:104-113 | a smaller start depth is never less informative |
| Tautology.CapIsSlack | src/ko_sqlguard/checks/tautology.py:104-113 | on predicates nested less deep than the cap the capped and uncapped folders agree |
| Tautology.RootHitExact | src/ko_sqlguard/checks/tautology.py:229-236 | a predicate is hit if and only if it, or an OR inside it, has a constant-true part |
| Tautology.RunCheckTautology | src/ko_sqlguard/checks/tautology.py:224-248 | the loops with their hit flag and break compute the report |
| Tautology.CheckTautologyExact | src/ko_sqlguard/checks/tautology.py:224-248 | the check reports if and only if something in a WHERE, HAVING or ON predicate is flagged |
| TautologyVerdict.TautologyReportedExactly | src/ko_sqlguard/checks/tautology.py:208-248 | the check reports if and only if it is on and a WHERE, HAVING or ON of a join that is not LATERAL folds to true or holds an OR of which one side does |
| Tautology.HitFiltersNothing | src/ko_sqlguard/checks/tautology.py:229-247 | replacing a flagged node by TRUE under AND, OR, NOT and parentheses leaves the kept rows unchanged where its verdict is decided in every row |
| Tautology.FlaggedRootKeepsExactly | src/ko_sqlguard/checks/tautology.py:229-247 | as a WHERE clause a flagged root keeps every row if and only if its verdict is decided in every row |
| Tautology.OrTrueKeepsEverything | src/ko_sqlguard/checks/tautology.py:229-247 | p OR v = v is flagged and keeps every row whatever p is and whatever is NULL |
| Inference.PeelParen | src/ko_sqlguard/checks/inference.py:67-72 | the bounded loop removes at most 50 parentheses |
| Inference.FindInnerSelect | src/ko_sqlguard/checks/inference.py:75-91 | the bounded loop finds the SELECT under parentheses and redundant subquery wrappers |
| InferenceVerdict.ConstantExactly | src/ko_sqlguard/checks/inference.py:94-117 | an expression is constant if and only if it is built from literals and NULL by minus, casts and arithmetic, at most 50 levels deep, with at most 50 parentheses in a row |
| InferenceVerdict.InnerSelectExactly | src/ko_sqlguard/checks/inference.py:75-91 | an operand stands for a SELECT if and only if that lies within one to 50 subquery wrappers, with at most 50 parentheses before each |
| Inference.UncorrelatedExact | src/ko_sqlguard/checks/inference.py:135-147 | a subquery counts as uncorrelated if and only if every qualified column in it names a table, alias or WITH query in it |
| InferenceVerdict.SelfContainedExactly | src/ko_sqlguard/checks/inference.py:120-147 | the same with the names spelled out: the folded names and aliases of the tables in it and of its WITH queries |
| Inference.RootProbeExact | src/ko_sqlguard/checks/inference.py:156-220 | a predicate is flagged if and only if some comparison, BETWEEN, IN list, IS NULL or EXISTS in it probes an uncorrelated SELECT |
| Inference.RunCheckInference | src/ko_sqlguard/checks/inference.py:265-297 | the literal-comparison pass and the loop over predicate roots compute the report |
| Inference.CheckInferenceExact | src/ko_sqlguard/checks/inference.py:223-297 | the check reports if and only if two constants are compared anywhere or a row filter contains a probe |
| InferenceVerdict.InferenceReportedExactly | src/ko_sqlguard/checks/inference.py:223-297 | the check reports if and only if it is on and two constants are compared anywhere, or a row filter holds a self-contained subquery compared with a constant, between constants, in a list of constants or checked for NULL, or under EXISTS |
| InferenceMeaning.UncorrelatedIsRowInvariant | src/ko_sqlguard/checks/inference.py:135-147 | with qualified columns and source names apart, an uncorrelated subquery is the same relation for every outer row |
| InferenceMeaning.ProbeIsRowInvariant | src/ko_sqlguard/checks/inference.py:156-220 | every flagged comparison, BETWEEN, IN list, IS NULL or EXISTS has one truth value across all outer rows |
| InferenceMeaning.LiteralComparisonIsRowInvariant | src/ko_sqlguard/checks/inference.py:223-241 | a comparison of two constants has one truth value whatever the row |
| InferenceMeaning.ProbeKeepsAllOrNone | src/ko_sqlguard/checks/inference.py:156-200 | as a WHERE clause a flagged probe keeps every row or none |
| InferenceMeaning.UnqualifiedFollowsTheRow | src/ko_sqlguard/checks/inference.py:143-147 | an unqualified column makes a subquery count as uncorrelated although its value is the outer row's |
| SingleSource.UncorrelatedHoldsExactly | src/ko_sqlguard/checks/inference.py:143-147 | (SELECT name FROM t AS alias) counts as uncorrelated, and over a one-row table is the same for all outer rows if and only if name is a column of t |
| StatementType.RunCheckStatementType | src/ko_sqlguard/checks/statement_type.py:19-137 | the loops over the permission table, SELECT INTO, WHEN actions and conflict actions compute the report |
| StatementType.StatementTypeSevere | src/ko_sqlguard/checks/statement_type.py:19-137 | everything the gate reports blocks with severity HIGH or above |
| GateVerdict.GateReportsExactly | src/ko_sqlguard/checks/statement_type.py:19-150 | the gate reports a violation if and only if some node spelled out calls for it: CRITICAL for DDL without its flag, COPY, raw commands, SELECT INTO and an unknown top within 50 wrappers, HIGH for writes, session commands, MERGE and its actions, ON CONFLICT DO UPDATE and locks without theirs |
| Effects.GateIsNodewise | src/ko_sqlguard/checks/statement_type.py:19-137 | the gate passes if and only if the top statement is known and every node of the tree is permitted |
| Effects.EffectsAreGranted | src/ko_sqlguard/checks/statement_type.py:19-150 | every effect a passing statement may bring about is granted by the policy's flags |
| Effects.GateAdmitsExactlyGranted | src/ko_sqlguard/checks/statement_type.py:19-150 | a statement passes if and only if its top is known and every possible effect, through WITH, MERGE, ON CONFLICT DO UPDATE and SELECT INTO, is granted |
| Effects.ReadOnlyHasNoEffect | src/ko_sqlguard/policy.py:641-650 | under an accepted read-only policy no run of a passing statement has any effect, not even a row lock |
| Effects.InsertOnlyKeepsRows | src/ko_sqlguard/checks/_ast.py:19-36 | without the update, delete and DDL flags every run keeps all tables and rows in place |
| Effects.NoInsertNoGrowth | src/ko_sqlguard/checks/_ast.py:19-36 | without the insert and DDL flags no run adds a table or makes one larger |
| Limiting.RewriteIsBoundedPrefix | src/ko_sqlguard/checks/limit.py:35-93 | a rewritten query returns the first k rows of the query without its bound, with 1 <= k <= max_limit |
| Limiting.InjectedExactly | src/ko_sqlguard/checks/limit.py:49-65 | a query without a bound that reads a source returns exactly the first min(default_limit, max_limit) rows, default_limit without a maximum, and is left alone without a default |
| Limiting.CappedExactly | src/ko_sqlguard/checks/limit.py:67-93 | an integer bound within the maximum is kept; any larger or other bound gives exactly the first max_limit rows of the query without it; without a maximum nothing changes |
| Limiting.LeftAlone | src/ko_sqlguard/checks/limit.py:39-43 | whatever is no SELECT or set operation over a source is left alone |
| Limiting.RowsAreBounded | src/ko_sqlguard/checks/limit.py:35-93 | with both limits set, a SELECT or set operation that reads a source returns at most max_limit rows |
| SingleSource.MaximumNeedsDefault | src/ko_sqlguard/checks/limit.py:50-52 | under max_limit every SELECT or set operation that reads a source returns at most max_limit rows, on every database, if and only if a default limit is set |
| Limiting.ApplyLimitIdempotent | src/ko_sqlguard/checks/limit.py:35-93 | applying the rewrite twice equals applying it once, and the second time reports nothing |
| Limiting.LiteralNeverRaised | src/ko_sqlguard/checks/limit.py:81-91 | an existing integer bound is never raised |
| Limiting.RaisedExactly | src/ko_sqlguard/checks/limit.py:67-79 | a bound is raised if and only if it is no integer literal, a source is read and a larger maximum is set |
| Limiting.FetchFirstRowIsRaised | src/ko_sqlguard/checks/limit.py:67-79 | FETCH FIRST ROW ONLY is replaced by a larger bound |
| Pipeline.ParseWithFallback | src/ko_sqlguard/guard.py:38-52 | the retry loop returns the parse of the first dialect that succeeds |
| Pipeline.FindStop | src/ko_sqlguard/guard.py:196-202 | the loop finds a blocking violation of sufficient severity if there is one |
| Pipeline.RunCheck | src/ko_sqlguard/guard.py:61-245 | size limits, parsing, statement count, checks, rewrite and rendering produce the verdict the theorems are about |
| GuardVerdict.RefusedWith | src/ko_sqlguard/guard.py:69-115 | a text with too many characters, no encoding, too many bytes or nothing but blanks is refused with the first reason that applies, CRITICAL |
| GuardVerdict.AdmittedExactly | src/ko_sqlguard/guard.py:69-158 | a statement is admitted if and only if the text is within the limits and not blank and the first dialect that parses it gives exactly that one statement, normalised |
| GuardVerdict.NotOneStatement | src/ko_sqlguard/guard.py:117-151 | a text no dialect parses, or that holds no or several statements, is refused |
| GuardVerdict.ContentExactly | src/ko_sqlguard/guard.py:163-169 | the denylists are handed every node of the statement but queries, numbers and bounds that are missing or a number |
| GuardVerdict.CheckedExactly | src/ko_sqlguard/guard.py:160-245 | the whole result for an admitted statement: blocked with all reports if one of the nine holds a blocking violation of sufficient severity; otherwise passed as written, or the rendered rewrite, or blocked because it cannot be rendered |
| GuardVerdict.BlockedExactly | src/ko_sqlguard/guard.py:160-245 | an admitted statement is blocked if and only if one of the nine reports stops it or its rewrite cannot be rendered |
| GuardVerdict.ForwardedIsClean | src/ko_sqlguard/guard.py:170-208 | where MEDIUM stops, a forward-safe statement has no product, tautology or inference violation, and under any policy no denylist violation that stops |
| Pipeline.Enforce | src/ko_sqlguard/guard.py:247-252 | returns the cleared text if and only if the verdict is forward-safe |
| PipelineMeaning.ForwardSafeMeans | src/ko_sqlguard/guard.py:61-245 | a forward-safe result comes from exactly one statement, nothing reported stops it, and the text is the original or the rendered rewrite |
| PipelineMeaning.GatesHold | src/ko_sqlguard/policy.py:660-677 | under a production policy nothing the statement gate, the table and column allowlists or the PII check report is ever downgraded, so a forward-safe statement has none of it |
| PipelineMeaning.ForwardedReads | src/ko_sqlguard/guard.py:210-238 | the rewritten tree reads nothing the statement did not read |
| PipelineMeaning.ForwardedPassesGate | src/ko_sqlguard/guard.py:210-238 | the rewritten tree passes the statement gate again |
| PipelineMeaning.EndToEnd | src/ko_sqlguard/guard.py:61-245 | under a production read-only policy with both limits, a forward-safe text is one statement whose forwarded tree has no effect, depends on allowlisted tables only and returns at most max_limit rows; the resolver is correct or raises with no namesake of a WITH query |
| PipelineMeaning.EndToEndColumns | src/ko_sqlguard/guard.py:61-245 | under a production policy the forwarded tree of a ready statement depends only on allowed columns of restricted tables and on unrestricted allowed tables |
| PipelineMeaning.EndToEndPii | src/ko_sqlguard/guard.py:61-245 | under a production policy the forwarded tree of a ready statement does not depend on classified columns |
| Applicability.PremisesHold | src/ko_sqlguard/guard.py:61-245 | for every locked policy that shows one column of one table and classifies another and every non-blank text, the premises of all three end-to-end theorems hold of a sample statement, on databases that differ in an unlisted table, a hidden column and a classified column |
| Applicability.TheoremsApply | src/ko_sqlguard/guard.py:61-245 | all three end-to-end theorems apply to it: the forwarded statement returns the visible non-NULL value on all those databases |
| Rewriting.BfsSkipsJunk | src/ko_sqlguard/checks/limit.py:35-93 | searches over trees that differ in literal bounds and numbers only yield the same content in the same order |
| Rewriting.LexicalTablesRewritten | src/ko_sqlguard/checks/limit.py:35-93 | the rewrite adds no base table, and keeps all when the old bound was literal |
| Recheck.FindingsIgnoreBound | src/ko_sqlguard/guard.py:160-172 | every check reports the same on a query whatever its literal top-level bound |
| Recheck.RewrittenTreePasses | src/ko_sqlguard/guard.py:160-245 | checking a rewritten tree gives PASS with no further rewrite and the same non-limit violations |
| Recheck.RecheckPasses | src/ko_sqlguard/guard.py:61-245 | if the rendered text is read back as the rewritten tree, checking it again passes it unchanged |
| ExecutionSafety.ExplainSends | src/ko_sqlguard/cost.py:55-75 | an EXPLAIN call sends nothing but the EXPLAIN of the text with the same parameters, and yields a plan only after its own cursor was opened, executed, fetched and closed in this order |
| Execution.RunExplain | src/ko_sqlguard/cost.py:55-75 | the EXPLAIN cursor is opened, used and closed on every path, and the plan is returned only if every call succeeds |
| Execution.RunCostGuard | src/ko_sqlguard/cost.py:78-147 | without thresholds nothing is sent; otherwise any failure or excess blocks |
| CostVerdict.CostGuardExactly | src/ko_sqlguard/cost.py:78-147 | the guard lets a text through if and only if no threshold is set, or the plan is known and well-formed with cost (0 if missing) <= the cost threshold and rows (0 if missing, truncated) <= the row limit, where set; it raises on a malformed number |
| CostVerdict.JudgedExactly | src/ko_sqlguard/cost.py:95-147 | a plan above a threshold is blocked with one HIGH violation for each threshold it is above, a missing plan with explain_failed |
| CostVerdict.ExplainExactly | src/ko_sqlguard/cost.py:31-75 | only an EXPLAIN with ANALYZE false is sent, its cursor is closed on every path, and a plan is returned if and only if opening, executing and fetching succeed |
| Execution.ExecuteGuarded | src/ko_sqlguard/integrations.py:20-66 | production check, guard, cost check, cursor, execution and close happen in this order with these outcomes |
| ExecutionSafety.OutcomeExactly | src/ko_sqlguard/integrations.py:20-66 | which outcome a call has, on the policy, the verdict, the numbers of the plan and the driver alone |
| ExecutionSafety.RunIsJustified | src/ko_sqlguard/integrations.py:35-66 | over any run and any driver failures the log splits into one segment per call; every text a call sends is the text cleared for that very call or its EXPLAIN, and if the call checks a threshold the text directly follows that call's own EXPLAIN, same parameters, within both thresholds |
| ExecutionSafety.NoUncheckedExecution | src/ko_sqlguard/integrations.py:35-66 | in the segment of a cost-checked call no text other than the EXPLAIN is executed without that call's own affordable EXPLAIN just before it |
| ExecutionSafety.OnlyReturnedCursorsStayOpen | src/ko_sqlguard/integrations.py:53-66 | over any run the cursors left open are exactly those handed to the callers |
| ExecutionSafety.NoProductionNoCalls | src/ko_sqlguard/integrations.py:36-41 | a call that demands a production policy touches the connection only under one and only for a forward-safe text |
| ExecutionSafety.ReturnedMeansExecuted | src/ko_sqlguard/integrations.py:39-66 | a call that returns has just executed the cleared text, successfully, on the cursor it returns |

## Left out

- Parsing, rendering, dialects and identifier normalisation (sqlglot): arbitrary functions of the frontend; statements start normalised.
- The scope resolver of sqlglot: taken to be lexical scoping, with a switch for the case that it raises.
- The name denylists (`checks/functions.py`, `checks/catalog.py`) and `checks/where.py`: set membership; in the pipeline they are arbitrary functions of the statement's nodes other than queries, literal bounds and numbers.
- Case folding beyond ASCII, and blank text other than space, tab and line ends.
- Query clauses outside the tree: GROUP BY lists, ORDER BY, OFFSET, DISTINCT, window functions, QUALIFY, WITH RECURSIVE, LIKE escapes, VALUES column aliases beyond renaming, INTERSECT ALL and EXCEPT ALL counts, FETCH WITH TIES.
- Outer references inside LIMIT: the bound is evaluated without rows.
- Run-time errors and implicit coercion: an error yields NULL, and values of different kinds are unequal and unordered.
- Functions with side effects: scalar functions and aggregates are functions of their arguments.
- Float rounding of numeric literals: a literal has one exact value, shared by folder and semantics.
- Rendered-text equality in the tautology check: two operands are the same when their trees are equal.
- Older sqlglot releases, where limiting a set operation wraps it in a SELECT: the bound is set on the operation itself.
- RecursionError, pydantic mechanics, reason and fix texts of violations, JSON decoding of plans (a plan is two readings, each missing, known or malformed), and a driver `close()` that itself fails.
- `checks/schema.py`, `semantic.py`, `cli.py`, the evaluation scripts and telemetry: plumbing.
- Tautology.VerdictExactly: IS [NOT] NULL treats a whole row as a value that is not NULL. In PostgreSQL a row with some NULL fields is neither NULL nor NOT NULL, so `t IS NULL OR t IS NOT NULL`, which folds to true, is FALSE on it; the tree does not tell `x IS NOT NULL` from `NOT x IS NULL`, so the difference is not modelled. The same holds of Tautology.ConstEvalSound.
- TableAllowlist.TableNoninterference: has no search path, so `t` and `public.t` are unrelated tables of a database, and a table is visible if its own key is listed, written as the reference writes it. For INSERT, UPDATE, DELETE and MERGE this theorem and its column and PII counterparts hold by construction, since a write returns no relation; what a write may change is the subject of Effects.
- PiiMeaning.PiiNoninterference: excludes references from a nested SELECT that could name an outer classified column (the check resolves a column in its nearest SELECT), column alias lists on classified tables, and stars that stand deeper inside COUNT than as its argument; the last two are shown necessary by Provisos.AliasListEscapesPii and Provisos.CountedStarEscapesPii, with exact conditions on one source in SingleSource. Classification keys are matched as the check matches them, without a search path: `{"public.customers": ["email"]}` does not cover a bare `customers`, so the theorem promises nothing about that reference; write keys bare, or qualify references.
- ColumnMeaning.ColumnNoninterference: excludes column alias lists on restricted tables, NATURAL joins, unqualified or USING columns that some restricted table of a several-table statement does not allow, references that share a name or alias but not their allowed columns (the last one decides, ColumnVerdict.Last), and an unqualified column named like a restricted source whose name is not lower case; see Provisos.AliasListEscapes, Provisos.UpperCaseRowEscapes and, for the exact conditions on one source, SingleSource. Search paths are not modelled: `t` and `public.t` are two tables, matched under their own keys only.
- CartesianMeaning.PassMeansLinked: covers comma, CROSS and inner ON joins of distinctly labelled sources in which no ON equality uses a relation joined only later (`OnScoped`; a database rejects such a statement); outer joins, USING and NATURAL are covered by the union-find theorems only. The same holds of CartesianMeaning.TogetherMeansLinked.
- PipelineMeaning.EndToEndColumns: on ready statements only, as ColumnMeaning.ColumnNoninterference.
- PipelineMeaning.EndToEndPii: on ready statements only, as PiiMeaning.PiiNoninterference.
- Limiting.RowsAreBounded: a parenthesised top-level statement is returned unchanged by the source and is not covered.
- Effects.GateAdmitsExactlyGranted: requires that a conflict action that mentions UPDATE is one of the parser's updating actions.
