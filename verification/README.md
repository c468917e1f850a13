# YachtSQL: a verified model of its plan rewrites and of the state plans run against

This project models, in Dafny, the parts of the YachtSQL engine that are hardest to get right by reading: the
rewrites from one plan or expression to another, and the shared state that plans run on. Each file is one module,
and every theorem is about all inputs, all rows, all runs or all interleavings.

How it fits together:

* **Values, expressions, evaluation** (`ir.dfy`, `evaluator.dfy`, with the laws of its operators in
  `value_laws.dfy`). Expressions carry the constructors of `yachtsql_ir`. Evaluation is three-valued (section 8.12 of
  ISO/IEC 9075:1992) and may fail, as the evaluator of the executor does, for example on `5 AND TRUE`. It is
  compositional, so every rewrite shares one congruence law.
* **The optimizer** (`predicates.dfy`, `equikeys.dfy`, `key_types.dfy`, `pushdown.dfy`, `exact_pushdown.dfy`,
  `plans.dfy`, `plan_semantics.dfy`, `plan_proof.dfy`, `translation.dfy`, `exact_plans.dfy`, `round_trip.dfy`, over
  `tables.dfy`, `sorting.dfy` and `result_sets.dfy`). A plan means the set of results it may produce on a database:
  rows in order, or a failure; several, because a sort leaves ties unordered. The physical operators are
  specifications of the operators in `crates/executor/src/executor/concurrent/`; `table_laws.dfy` and
  `sort_order.dfy` say what they mean as bags of rows and on the values of sort keys, and `plan_shape.dfy` what
  planning does to a query.
* **The SQL planner's rewrites** (`aggregate_rewrite.dfy`, `canonical_names.dfy`, `window_rewrite.dfy`,
  `udf_inline.dfy`, `grouping_sets.dfy`).
* **Shared state** (`table_protocol.dfy`, `conflicts.dfy`, `catalog_state.dfy`, `catalog_laws.dfy`,
  `concurrent_catalog.dfy`, `access_sets.dfy`, `plan_cache.dfy`). Code that changes fields in place is a class here
  too; each of its methods is proved to do what a function on values says, and the theorems over runs are about that
  function.
* **Null bitmaps and sums** (`bit_words.dfy`, `null_bitmap.dfy`, `bitmap_sums.dfy`) and **aggregate states**
  (`aggregate_states.dfy`).

## What does not hold, and when it does

Where a natural statement is false of the code, the model keeps the code, a lemma gives an input for which the
statement fails, and another says exactly when it holds. Only for lambdas (below) is that one way.

* A hash join compares keys as hash-table keys, a nested loop compares them with SQL equality. They differ on a pair
  of an INT64 and a FLOAT64 (`EquiKeys.MixedKeysMissed`), and pair by pair the difference is exactly the mixed keys
  (`EquiKeys.EquiKeysExact`). On all tables of the declared types the two joins are equal exactly when no choice of
  kinds of values the types admit lets every key match and one of them mix INT64 with FLOAT64
  (`Pushdown.HashJoinIff`): when each key is safe by itself (`EquiKeys.SafeKeyTypesExact`), say, or one of them can
  never match (`KeyTypes.SafeKeysSuffice`).
* Of two numbers exactly one of less, equal and greater holds, except for an INT64 and a FLOAT64 that are close and not
  the same, which are equal and ordered, and a NUMERIC and another type of the same amount, which are neither
  (`ValueLaws.EqualAndLess`; exactly when: `TrichotomyIff`).
* Moving a conjunct below a join changes on which rows it is evaluated, so a failure can disappear
  (`ExactPlans.FailureHidden`) or appear (`ExactPlans.FailureExposed`). On all tables of the declared types the pushed
  form gives what the query gives, failures included, exactly when no moved predicate can fail on its side and each
  pair of rows fails under the whole filter if and only if its sides pass and it fails under what stayed above
  (`ExactPushdown.PushdownExactIff`; on plans over two stored tables: `ExactPlans.ScanPlanIff`). Where every filter on
  an inner join is such, a query and its plan are equal (`ExactPlans.PlanExact`); filters none of whose conjuncts move
  are (`ExactPushdown.StayingExact`), and filters that cannot fail (`ExactPlans.TotalIsExact`). For all queries the
  two plans agree wherever neither fails (`Translation.PlanAgrees`).
* Planning a query and turning the plan back gives the query itself exactly when the query is canonical
  (`RoundTrip.RoundTripIdentity`). A filter on an inner join does not rule that out when all its conjuncts stay above
  the join.
* Two aggregates that differ only in ORDER BY, LIMIT, filter or IGNORE NULLS share a column
  (`AggregateRewrite.OrderByConfused`), as do `COUNT(DISTINCT x)` and `COUNT(distinctx)` (`DistinctConfused`), and
  calls over `x AND yandz` and `xandy AND z` (`CanonicalNames.AndConfused`). A rewritten call has its own value,
  whatever aggregates compute, exactly when its name was not recorded before or the call first recorded under it is
  the same (`CallRightIff`); names agree exactly when the functions do and what is printed between the parentheses
  does (`NamesCollideIff`; argument by argument: `ArgumentsIff`, and for columns `ColumnArgumentsIff` and
  `ColumnNameIff`). Over columns, numbers, functions and operators printed as symbols names tell expressions
  (`CanonicalNames.NameReadsBack`), so plain calls over them never share a column by mistake
  (`CanonicalNames.SelectRight`). An aggregate under IS DISTINCT FROM or in a lambda is not extracted
  (`DistinctFromMissed`; exactly which are: `RewriteComplete`).
* An item with two different window calls gets one column for both (`WindowRewrite.TwoCallsConfused`). The item is
  still right exactly when giving every call the first call's value leaves its outcome as it is (`ItemRightIff`); for
  items that use every call, exactly when the calls are one and the same (`OneColumnIff`). A call under IS NULL is not
  found (`IsNullMissed`; exactly which are: `ReplaceComplete`). The remapping by name turns a reference to the second
  of two columns of one name into one to the first (`RemapPicksFirst`; exactly when it changes nothing:
  `RemapIdentity`).
* A parameter of a SQL function without argument or default is looked up in the caller's row
  (`UdfInline.MissingArgumentCaptured`); exactly those parameters are left unbound (`EachParameterBound`), and the
  body means what it means with the others bound (`CallSound`). Inlining a lambda applied to itself never ends
  (`SelfApplicationDiverges`); it ends whenever no argument passed to a lambda parameter becomes a lambda
  (`FirstOrderTerminates`), and that is one way only.
* CUBE builds its masks in 32 bits: the number of grouping sets is right exactly up to 30 expressions
  (`GroupingSets.CubeWidth`).
* Statements whose access sets conflict can lose an update (`TableProtocol.LostUpdate`). Any two statements that write
  back what they took for writing, with given access sets, end as in both serial orders, in every interleaving and on
  every database, exactly when the access sets do not conflict (`Conflicts.BothOrdersIff`), and as in some serial
  order exactly when they conflict on at most one name, which only one of them may write (`Conflicts.SomeOrderIff`).
* With a search path a statement may acquire a table that its lock set then does not have under the name it uses
  (`CatalogState.SearchPathMisses`; exactly when it has it: `LookupIff`). A scan then falls back on the catalog; an
  INSERT, UPDATE or DELETE looks in the lock set only. Rolling back in the concurrent catalog restores the table map
  exactly when the run left the table names as they were (`ConcurrentRollbackIff`).
* A CTE's name is hidden for everything collected after it, so a stored table of that name may be read without being
  recorded, by the CTE's own query (`AccessSets.OwnNameMissed`), where the CTE is never computed (`ElseBranchMissed`),
  or by another input of a parallel union (`ParallelUnionMissed`). What a CALL or EXECUTE IMMEDIATE runs, the input of
  a GAP_FILL and a block with an EXCEPTION part are not looked into at all (`HiddenMissed`). A table read in a run is
  missed exactly when it is no target and a CTE of its name is collected before each of its scans (`MissedIff`);
  extraction is complete for all runs of a plan exactly when no name within reach is like that (`CompleteIff`, with
  `ReachesIff` saying which names are within reach).
* A change of a form that `invalidates_cache` does not list can leave a stale cached plan
  (`PlanCache.UnlistedChangeStale`): SET, CALL, EXECUTE IMMEDIATE, a block, or a multi-operation ALTER TABLE wrapped
  in IF. After `SET SEARCH_PATH` a query answers with the columns of the table the old path led to (`SetPathStale`).
  After a query and then any statement no stale plan is left for the query exactly when the statement is of a listed
  form and succeeds, or planning the query gives what it gave (`TwoCallsIff`). A run stays coherent exactly when each
  of its calls is like that for all that is kept (`RunCoherentIff`), and all runs do exactly when every statement is
  (`CoherenceIff`).
* A bit left set past the end of a null bitmap makes a pushed value read as NULL (`NullBitmaps.StalePush`; exactly
  when an operation does what it should: `ApplyRefinesIff`).
* MIN and MAX merge rightly over some kinds of values exactly when those kinds can be compared
  (`AggregateStates.ExtremeMergesIff`), and the default STRING_AGG state is a left identity exactly when the delimiter
  does not show (`DefaultLeftIdentityIff`).

## Model

| member | source | states |
|---|---|---|
| Ir.ChildrenOfWithChildren | crates/ir/src/expr/mod.rs:18-238 | replacing the direct sub-expressions of any form and reading them back gives the replacements: the reading and rebuilding all rewrites use agree |
| Evaluator.EvalByChildren | crates/executor/src/ir_evaluator/mod.rs:145-300 | the outcome of a form depends only on the outcomes of its direct sub-expressions, short cuts of AND, OR, CASE, IN and BETWEEN included |
| Evaluator.EvalCongruence | crates/executor/src/ir_evaluator/mod.rs:145-300 | a form rebuilt from other sub-expressions, on another row and in another scope, has the same outcome if each sub-expression has |
| ValueLaws.Connectives | crates/executor/src/ir_evaluator/mod.rs:1960-1982 | with FALSE below NULL below TRUE, AND is the smaller of its operands, OR the larger, and NOT turns the order round |
| ValueLaws.ConnectivesFail | crates/executor/src/ir_evaluator/mod.rs:1960-1982 | a value that is no truth value fails, unless the other operand decides by itself |
| ValueLaws.NullCompares | crates/executor/src/ir_evaluator/mod.rs:1841-1892 | a comparison with NULL is NULL |
| ValueLaws.ComparesByOrder | crates/executor/src/ir_evaluator/mod.rs:1886-1958 | on two values of one type `<`, `<=`, `>` and `>=` are those of the order of numbers, texts and booleans, and `=` is identity |
| ValueLaws.NumbersByAmount | crates/executor/src/ir_evaluator/mod.rs:1886-1941 | numbers of any types are ordered by their amounts |
| ValueLaws.Incomparable | crates/executor/src/ir_evaluator/mod.rs:1886-1958 | ordering two values that are neither numbers nor of one type fails; they are not equal |
| ValueLaws.TrichotomyIff | crates/executor/src/ir_evaluator/mod.rs:1827-1941 | of two numbers exactly one of less, equal and greater holds if and only if they are not an INT64 and a FLOAT64 that are close but not the same, nor a NUMERIC and another type of the same amount |
| ValueLaws.EqualAndLess | crates/executor/src/ir_evaluator/mod.rs:1844-1905 | INT64 1 and a FLOAT64 half of the tolerance above it are both equal and ordered; INT64 1 and NUMERIC 1 are neither |
| ValueLaws.InMeans | crates/executor/src/ir_evaluator/mod.rs:990-1017 | IN is TRUE if an item is equal, else NULL if one is NULL, else FALSE |
| ValueLaws.InFails | crates/executor/src/ir_evaluator/mod.rs:990-1017 | IN fails if and only if an item fails and none before it is equal |
| ValueLaws.InOperand | crates/executor/src/ir_evaluator/mod.rs:990-1017 | the failure or NULL of its operand decides an IN, whatever the items |
| ValueLaws.BetweenNumbers | crates/executor/src/ir_evaluator/mod.rs:1055-1080 | BETWEEN over numbers holds if and only if the amount lies between the two |
| ValueLaws.CaseMeans | crates/executor/src/ir_evaluator/mod.rs:774-805 | CASE gives the result of the first clause taken, whatever follows, and fails if a condition before it does |
| ValueLaws.CaseElse | crates/executor/src/ir_evaluator/mod.rs:774-805 | where no clause is taken CASE gives its ELSE, and NULL without one |
| ValueLaws.LikeMeans | crates/executor/src/ir_evaluator/mod.rs:1082-1107 | LIKE over texts is what the matcher says, NOT LIKE the opposite, and NULL with a NULL |
| ValueLaws.DistinctMeans | crates/executor/src/ir_evaluator/mod.rs:962-988 | IS DISTINCT FROM is never NULL: FALSE for two NULLs, TRUE for one, and the opposite of equality for none |
| ValueLaws.NegatedForms | crates/executor/src/ir_evaluator/mod.rs:962-1107 | NOT IN, NOT BETWEEN, NOT LIKE and IS NOT DISTINCT FROM are NOT over the plain forms |
| ValueLaws.SignMeans | crates/executor/src/ir_evaluator/mod.rs:543-574 | minus turns a number's amount round, keeps its type and is undone by itself |
| ValueLaws.ComplementMeans | crates/executor/src/ir_evaluator/mod.rs:566-572 | an INT64 and its complement add up to -1 |
| ValueLaws.IsNullMeans | crates/executor/src/ir_evaluator/mod.rs:956-960 | IS NULL and IS NOT NULL are TRUE or FALSE, and fail only with their operand |
| Names.UpperIsCapital | crates/executor/src/concurrent_catalog.rs:198-215 | upper-casing turns each small letter into its capital and changes nothing else |
| Predicates.CombinePredicatesLoop | crates/optimizer/src/planner.rs:197-203 | the left-to-right fold of conjuncts is the conjunction CombineIsTrue and SplitCombine speak of |
| Predicates.SplitIsTrue | crates/optimizer/src/planner.rs:182-195 | a predicate is TRUE exactly when all its split conjuncts are, for any nesting of AND, any NULLs and any failures |
| Predicates.CombineIsTrue | crates/optimizer/src/planner.rs:197-203 | a combination is TRUE exactly when all its conjuncts are |
| Predicates.SplitCombine | crates/optimizer/src/planner.rs:182-203 | splitting a combination of conjuncts gives exactly those conjuncts, in order |
| Predicates.CombineSplit | crates/optimizer/src/planner.rs:182-203 | combining what was split gives the predicate back if and only if its ANDs nest to the left |
| Predicates.MergeOperandSides | crates/optimizer/src/planner.rs:117-180 | the early-exit loop over operands computes the join of all the operands' sides |
| Predicates.ClassifierSound | crates/optimizer/src/planner.rs:91-180 | on resolved predicates Left means every index is below the left width, Right means every index is at or above it and only forms the shifter rewrites occur, whatever the form |
| PlanShape.ClassifierIff | crates/optimizer/src/planner.rs:91-180 | the classifier answers Left if and only if every part of the predicate reads left columns or nothing and some part reads, Right likewise, and nothing if and only if the predicate reads nothing |
| Predicates.LeftReadsLeft | crates/optimizer/src/planner.rs:350-358 | a predicate over left columns has the same outcome on the left row as on the joined row |
| Predicates.ShiftReadsRight | crates/optimizer/src/planner.rs:205-277 | the shifted predicate on the right row has the outcome of the original on the joined row |
| Predicates.ShiftNeverSaturates | crates/optimizer/src/planner.rs:205-277 | on a right-side predicate the saturating subtraction loses nothing: adding the width back restores the predicate |
| Predicates.PartitionLoop | crates/optimizer/src/planner.rs:336-348 | the loop filling three lists keeps every conjunct once, in order, in the list PartitionSound speaks of |
| Predicates.PartitionSound | crates/optimizer/src/planner.rs:325-401 | all conjuncts are TRUE on the joined row exactly when the left ones are on the left row, the shifted right ones on the right row, and the rest on the joined row |
| PlanShape.ConjunctsMoved | crates/optimizer/src/planner.rs:325-401 | exactly the left conjuncts move to the left, exactly the right ones, re-indexed, to the right, and the others stay |
| EquiKeys.CollectEquiKeys | crates/optimizer/src/planner.rs:26-66 | the recursion that pushes onto two lists succeeds exactly when every conjunct is a key, and then appends exactly the keys, left and right in step |
| EquiKeys.ExtractEquiJoinKeys | crates/optimizer/src/planner.rs:8-24 | extraction gives the keys EquiKeysExact speaks of, or none |
| EquiKeys.ExtractedKeysInRange | crates/optimizer/src/planner.rs:26-82 | from a resolved condition left keys read only left columns, and right keys, re-indexed, only right columns |
| PlanShape.ExtractableIff | crates/optimizer/src/planner.rs:8-82 | keys are extracted if and only if every conjunct equates a left column with a right one, in either order |
| EquiKeys.EquiKeysExact | crates/optimizer/src/planner.rs:8-82 | a pair has all keys non-null and equal as hash keys if and only if the condition is TRUE on the joined row and no key pairs an INT64 with a close FLOAT64; the condition never fails |
| EquiKeys.MixedKeysMissed | crates/executor/src/executor/concurrent/join.rs:196-284 | INT64 1 and FLOAT64 1.0 satisfy the condition and are missed by the hash table |
| EquiKeys.SafeKeyTypesExact | crates/executor/src/ir_evaluator/mod.rs:1827-1884 | for two declared types hash equality and SQL equality agree on all their values if and only if the types are safe |
| EquiKeys.RestoredResolved | crates/optimizer/src/planner.rs:1184-1234 | the condition rebuilt from keys in range exists and is resolved in the joined schema |
| EquiKeys.ExtractRestored | crates/optimizer/src/planner.rs:1184-1234 | extracting keys from a rebuilt condition gives the same keys back |
| EquiKeys.RestoreExtracted | crates/optimizer/src/planner.rs:1184-1234 | rebuilding from extracted keys gives the condition itself if and only if it is a left-nested chain of left column = right column |
| Tables.KeepPairs | crates/executor/src/executor/concurrent/join.rs:13-183 | filtering the pairs of two row lists by p equals pairing filtered lists and filtering again, whenever p splits into a left, a right and a joint part; order and repeats included |
| Tables.DedupAbsorbs | crates/executor/src/executor/concurrent/set_ops.rs:14-51 | removing repeats from the front part early changes nothing |
| TableLaws.FilterMeans | crates/executor/src/executor/concurrent/dql.rs:83-120 | a filter fails if and only if its condition fails on some row, and else keeps each row, as often as it is there, if and only if the condition is TRUE on it |
| TableLaws.ProjectMeans | crates/executor/src/executor/concurrent/dql.rs:122-167 | a projection fails if and only if an item fails on some row, and else has on each row the values of the items |
| TableLaws.ValuesMeans | crates/executor/src/executor/concurrent/dql.rs:364-393 | constant rows fail if and only if an expression in them does, and else are its values |
| TableLaws.LeftJoinMeans | crates/executor/src/executor/concurrent/join.rs:13-183 | a left outer join is, as a bag, the matching pairs and each left row without a match once, with NULLs on the right |
| TableLaws.RightJoinMeans | crates/executor/src/executor/concurrent/join.rs:13-183 | a right outer join likewise |
| TableLaws.JoinFails | crates/executor/src/executor/concurrent/join.rs:13-183 | a join fails if and only if its condition fails on some pair |
| TableLaws.JoinMeans | crates/executor/src/executor/concurrent/join.rs:13-183 | else it is the bag of its matching pairs and, on outer sides, of the rows without a match |
| TableLaws.CrossMeans | crates/executor/src/executor/concurrent/join.rs:185-194 | a cross join pairs every left row with every right one, whatever condition it is given |
| TableLaws.SetOpMeans | crates/executor/src/executor/concurrent/set_ops.rs:14-140 | with ALL the set operations are sum, meet and difference of bags, without it union, meet and difference of sets with each row once |
| TableLaws.DedupPrefix | crates/executor/src/executor/concurrent/set_ops.rs:34-51 | dropping repeats keeps first occurrences in order |
| TableLaws.LimitMeans | crates/executor/src/executor/concurrent/dql.rs:269-292 | the rows from the offset on, as many as the limit allows |
| Sorting.RowOrder | crates/executor/src/executor/concurrent/dql.rs:202-267 | the row comparison, with ASC/DESC and NULLS FIRST/LAST per key, is antisymmetric and transitive on rows of sortable key types (which order it is: the SortOrder rows) |
| Sorting.SortRowsSorts | crates/executor/src/executor/concurrent/dql.rs:202-267 | a stable sort is one of the arrangements a Sort may produce: ordered, and a permutation |
| Sorting.SortRowsStable | crates/executor/src/executor/concurrent/dql.rs:216-258 | in it rows with equal keys stay in the order they came in |
| SortOrder.TextOrder | crates/executor/src/executor/concurrent/mod.rs:105-125 | texts are compared by their first difference, a beginning standing before what it begins |
| SortOrder.KeyColumn | crates/executor/src/executor/concurrent/dql.rs:216-224 | a row sorts by the value of its key, and as NULL where that fails |
| SortOrder.OneKeySorted | crates/executor/src/executor/concurrent/dql.rs:202-267 | rows are sorted by one key if and only if its values that are not NULL ascend (ASC) or descend (DESC) and the NULLs come first (NULLS FIRST) or last (NULLS LAST), whatever the direction |
| SortOrder.RowsCompare | crates/executor/src/executor/concurrent/dql.rs:216-258 | by several keys one row comes before another if and only if the first key on which they differ puts it there, and ties if they agree on all |
| SortOrder.SeveralKeysSorted | crates/executor/src/executor/concurrent/dql.rs:202-267 | rows are sorted by several keys if and only if any two stand in that order |
| Sorting.TopNExact | crates/executor/src/executor/concurrent/dql.rs:294-312 | a TopN may produce exactly what a Sort followed by a Limit may |
| SortOrder.TopNKeepsFirst | crates/executor/src/executor/concurrent/dql.rs:294-312 | a TopN by one key may produce exactly the sorted selections, as many rows as the limit allows, that leave out no row the key puts before one kept |
| SortOrder.TopNAscending | crates/executor/src/executor/concurrent/dql.rs:294-312 | by one ascending key no row left out has a smaller value than one kept |
| Plans.PlanKeepsSchema | crates/optimizer/src/optimized_logical_plan.rs:401-470 | planning keeps the schema, so the width subtracted from key indices is the width added back |
| PlanShape.PlanIsNormal | crates/optimizer/src/planner.rs:401-470 | in every plan an inner join by nested loops has no condition or a conjunct that is no key, a hash join is inner, and no limit without offset stands right above a sort |
| PlanSemantics.ScanSees | crates/executor/src/executor/concurrent/dql.rs:17-45 | a scan gives the rows stored last under the name, in whatever case, and fails where there are none |
| PlanSemantics.CteIsSeen | crates/optimizer/src/optimized_logical_plan.rs:401-470 | a query that just scans its one CTE has the results of the CTE's query |
| PlanSemantics.RowsFitSchema | crates/optimizer/src/optimized_logical_plan.rs:401-470 | every row any plan produces has the width and types of the plan's schema |
| KeyTypes.KeysTrue | crates/executor/src/executor/concurrent/join.rs:196-284 | a condition that makes a hash join is TRUE on a pair exactly when each pair of its key values is equal in SQL |
| KeyTypes.SafeKeysSuffice | crates/executor/src/executor/concurrent/join.rs:196-284 | the key types of a join are safe where each pair of types is, or where one pair shares no equal values |
| Pushdown.HashJoinExact | crates/executor/src/executor/concurrent/join.rs:196-284 | on safe key types a hash join yields, row for row, and fails on, what the nested loop does |
| Pushdown.HashJoinIff | crates/executor/src/executor/concurrent/join.rs:196-284 | on all tables of the declared types a hash join computes what the nested loop does if and only if no choice of kinds the types admit lets every key match and one mix INT64 with FLOAT64 |
| Pushdown.ConditionSplits | crates/optimizer/src/planner.rs:336-401 | a joined row passes the filter exactly when its parts pass the combined left, right and remaining predicates, absent ones included |
| Pushdown.PushdownExact | crates/optimizer/src/planner.rs:325-401 | filtering an inner join equals joining the filtered sides and filtering by the rest, same rows in the same order, whenever both give a table |
| Pushdown.PushedFails | crates/optimizer/src/planner.rs:350-401 | a failing side fails the join before and after pushing |
| PlanProof.PushedResults | crates/optimizer/src/planner.rs:350-401 | the plan built for a filter on an inner join may produce exactly the pushed join of what its sides may produce |
| PlanProof.SortLimitResults | crates/optimizer/src/planner.rs:1080-1111 | over sets of results, Sort then Limit and the fused TopN are the same |
| PlanProof.FoldIsUnion | crates/optimizer/src/planner.rs:1276-1290 | two or more inputs folded into binary unions, each dropping repeats, give the one union of all, and fail when one does |
| PlanProof.UnionResults | crates/optimizer/src/planner.rs:1276-1290 | the same over the results plans may produce |
| Translation.PlanAgrees | crates/optimizer/src/planner.rs:296-549 | for every resolved query over Scan, Filter, Project, Aggregate, Join, Sort, Limit, Distinct, Values, set operations and CTEs, and every database: each table the query may give the optimized plan may give too, and the other way round, wherever neither fails |
| Translation.CtesAgree | crates/optimizer/src/planner.rs:564-582 | planning the queries of a chain of CTEs and turning them back leaves databases that agree |
| Translation.BackKeepsSchema | crates/optimizer/src/planner.rs:1121-1344 | `into_logical` keeps the schema |
| Translation.BackSame | crates/optimizer/src/planner.rs:1121-1344 | the logical plan `into_logical` gives may produce exactly what the optimized plan may, failures included, and not only for plans `plan` made |
| Translation.ReplannableQuery | crates/optimizer/src/planner.rs:564-582 | the optimized plan of a well-planned query turns back into a well-planned query, so it can be planned again |
| Translation.RoundTripAgrees | crates/optimizer/src/planner.rs:1121-1344 | `into_logical` of `plan` of a query agrees with the query |
| ResultSets.AgreeWithoutFailure | crates/optimizer/src/planner.rs:296-549 | for sets of results without a failure, agreement is equality |
| ExactPushdown.JoinFailsIff | crates/executor/src/executor/concurrent/join.rs:13-183 | a filtered inner join fails if and only if on some pair of rows the join condition fails, or holds and the filter fails |
| ExactPushdown.PushdownSame | crates/optimizer/src/planner.rs:325-401 | where pushing is exact the pushed form gives the same table or the same failure, on every pair of tables and on failing sides |
| ExactPushdown.PushdownExactIff | crates/optimizer/src/planner.rs:336-401 | on all tables of the declared types a filter on an inner join and its pushed form are equal, failures included, if and only if no moved predicate can fail on its side and each pair fails under the whole filter exactly when its sides pass and it fails under what stayed |
| ExactPushdown.StayingExact | crates/optimizer/src/planner.rs:336-401 | a left-nested filter no conjunct of which moves is pushed exactly, whatever it and the join condition fail on |
| ExactPlans.TotalIsExact | crates/optimizer/src/planner.rs:336-401 | where neither the conjuncts nor the join condition can fail, pushing is exact |
| ExactPlans.PlanExact | crates/optimizer/src/planner.rs:296-549 | where every filter on an inner join is pushed exactly, a query and its optimized plan may produce exactly the same results, failures included |
| ExactPlans.SameCtes | crates/optimizer/src/planner.rs:564-582 | the same for chains of CTEs planned and turned back |
| ExactPlans.ScanPlanIff | crates/optimizer/src/planner.rs:325-401 | for a filter on an inner join of two stored tables: query and plan may produce the same on every database if and only if the filter is pushed exactly |
| ExactPlans.FailureHidden | crates/optimizer/src/planner.rs:336-401 | a concrete query that fails while its pushed plan gives no rows |
| ExactPlans.FailureExposed | crates/optimizer/src/planner.rs:336-401 | a concrete query that gives no rows while its pushed plan fails |
| RoundTrip.RoundTripIdentity | crates/optimizer/src/planner.rs:1121-1344 | `into_logical` of `plan` is the query itself if and only if the query is canonical: cross joins without condition, hash-joinable conditions left-nested chains of left = right, filters on inner joins left-nested with no conjunct that leaves them |
| RoundTrip.PostIsWhole | crates/optimizer/src/planner.rs:336-401 | the conjuncts kept above a join recombine to the whole filter if and only if none was pushed and it was left-nested |
| RoundTrip.HashJoinIdentity | crates/optimizer/src/planner.rs:1184-1234 | a hash join turns back into the join it came from if and only if both sides do and the condition is canonical |
| RoundTrip.CtesIdentity | crates/optimizer/src/planner.rs:564-582 | a chain of CTEs comes back unchanged if and only if each query is canonical |
| AggregateRewrite.NameForgets | crates/parser/src/planner.rs:2793-2811 | calls that differ only in filter, ORDER BY, LIMIT and IGNORE NULLS have one canonical name |
| AggregateRewrite.NameTellsIff | crates/parser/src/planner.rs:2793-2811 | on the same arguments two names are equal if and only if function and DISTINCT are |
| AggregateRewrite.NamesCollideIff | crates/parser/src/planner.rs:2793-2811 | whatever their arguments, two calls share a name if and only if the functions are one and the printed arguments agree, the word DISTINCT counting as text |
| AggregateRewrite.ArgumentsIff | crates/parser/src/planner.rs:2793-2811 | arguments of any form that print without commas print alike if and only if each does (when each does: CanonicalNames.NameReadsBack) |
| AggregateRewrite.ColumnArgumentsIff | crates/parser/src/planner.rs:2817-2826 | columns without commas in their names are printed alike if and only if they are the same names, case aside |
| AggregateRewrite.ColumnNameIff | crates/parser/src/planner.rs:2817-2825 | two columns, qualified or not, without dots in their names, print alike if and only if they are the same, case aside |
| AggregateRewrite.DistinctConfused | crates/parser/src/planner.rs:2807-2811 | over different arguments names can collide: `COUNT(DISTINCT x)` and `COUNT(distinctx)` have one name |
| CanonicalNames.OperatorTells | crates/parser/src/planner.rs:2828-2856 | on the same operands, whatever they are, two names agree if and only if the operators do |
| CanonicalNames.UnaryTells | crates/parser/src/planner.rs:2857-2865 | the same for unary operators |
| CanonicalNames.CastTells | crates/parser/src/planner.rs:2817-2915 | the same for casts, which tell SAFE_CAST from CAST and the printed type |
| CanonicalNames.OperationTells | crates/parser/src/planner.rs:2817-2856 | over columns named with letters, digits and underscores, qualified or not, the names of two operations printed as symbols agree if and only if the operators and both operands do, case aside |
| CanonicalNames.NameReadsBack | crates/parser/src/planner.rs:2817-2915 | names can be read back: two expressions of any depth built from such columns, numbers, functions, unary operators and operators printed as symbols have one name if and only if they are the same, the case of names and aliases aside |
| CanonicalNames.AndConfused | crates/parser/src/planner.rs:2828-2856 | AND is printed without spaces: `x AND yandz` has the name of `xandy AND z` |
| CanonicalNames.CallNameIff | crates/parser/src/planner.rs:2793-2811 | two calls over any number of such arguments have one name if and only if function, DISTINCT and arguments agree, the case of names aside |
| CanonicalNames.OperatorsApart | crates/parser/src/planner.rs:2268-2300 | `SUM(a + b)` and `SUM(a - b)` in one SELECT, whatever the operands and whatever is planned later: each has its own value on the rows of the grouped table |
| CanonicalNames.SelectRight | crates/parser/src/planner.rs:1912-2072 | a whole SELECT whose aggregates are plain calls over such arguments: every item that is rewritten has its own value, HAVING, ORDER BY and the other items included, if aggregates do not depend on the case of names |
| AggregateRewrite.RewriteGrows | crates/parser/src/planner.rs:2258-2747 | rewriting only appends to the lists and keeps as many names as aggregates, each named as its field after the keys |
| AggregateRewrite.RewriteSound | crates/parser/src/planner.rs:2258-2747 | on group values followed by aggregate values, for any later state of the lists, the rewritten expression has the outcome of the original on the group, if the columns it reads are grouped and equal names mean equal values |
| AggregateRewrite.RewriteAllSound | crates/parser/src/planner.rs:2258-2747 | the same for sub-expressions rewritten one after the other while the lists grow |
| AggregateRewrite.RewriteComplete | crates/parser/src/planner.rs:2258-2747 | no aggregate call is left in the rewritten expression if and only if each sat under forms the rewrite descends into |
| AggregateRewrite.DistinctFromMissed | crates/parser/src/planner.rs:2740-2747 | `SUM(x) IS DISTINCT FROM 1` keeps its call, which then has no value |
| AggregateRewrite.CallReads | crates/parser/src/planner.rs:2268-2300 | the column that replaces a call holds the value of the call first recorded under its name |
| AggregateRewrite.CallRightIff | crates/parser/src/planner.rs:2268-2300 | in any group the rewritten call has the call's own value, whatever aggregates compute, if and only if its name was not recorded yet or the call first recorded under it is the same |
| AggregateRewrite.OrderByConfused | crates/parser/src/planner.rs:2793-2811 | a call recorded first answers for one with another ORDER BY |
| AggregateRewrite.CollectGrows | crates/parser/src/planner.rs:2916-3011 | collecting the aggregates of HAVING or ORDER BY only appends, and keeps the lists aligned |
| AggregateRewrite.CollectMeans | crates/parser/src/planner.rs:2916-3011 | collecting records the name of every call of HAVING or ORDER BY and no other, each new one once, with the planned form of the first call that has it |
| AggregateRewrite.CollectFailsIff | crates/parser/src/planner.rs:2916-3011 | it fails if and only if some call cannot be planned, in HAVING one whose name is not recorded by then |
| AggregateRewrite.SpacesDropped | crates/parser/src/planner.rs:2749-2751 | naming a call by its text drops all spaces and nothing else |
| AggregateRewrite.SpacesDroppedAnywhere | crates/parser/src/planner.rs:2749-2751 | wherever they stand |
| AggregateRewrite.RunGrows | crates/parser/src/planner.rs:1912-2072 | over every run of SELECT items, HAVING and ORDER BY, indices handed out stay valid and the number of names is the number of aggregates and of fields less keys |
| AggregateRewrite.SelectSound | crates/parser/src/planner.rs:1912-2072 | an item rewritten in the middle of planning a SELECT is right on the rows of the finished grouped table |
| AggregateRewrite.PureItemRight | crates/parser/src/planner.rs:1931-1949 | an item that is a call by itself has a column of its own with its own value, whatever its text and whatever is planned later |
| AggregateRewrite.Collector.constructor | crates/parser/src/planner.rs:1756-1759 | the shared lists start empty, with the fields of the grouping keys |
| AggregateRewrite.Collector.Push | crates/parser/src/planner.rs:1937-1949 | names, aggregates and fields grow together by one |
| AggregateRewrite.Collector.Replace | crates/parser/src/planner.rs:2258-2747 | the in-place rewrite over shared lists gives the expression and lists of the rewrite proved sound, and never touches earlier entries |
| AggregateRewrite.Collector.ExtractAggregates | crates/parser/src/planner.rs:2233-2256 | the names reported are exactly those this call added |
| AggregateRewrite.Collector.CollectParsed | crates/parser/src/planner.rs:2916-3011 | the in-place walk over a parsed HAVING or ORDER BY appends each new aggregate once, in order, and stops at the first that cannot be planned |
| WindowRewrite.DetectorIsExtractor | crates/parser/src/planner.rs:1576-1645 | the detector is true if and only if the extractor finds a call, and the extractor finds the first one in reading order |
| WindowRewrite.ReplaceSound | crates/parser/src/planner.rs:1647-1702 | on the row extended by the call's value the replaced expression has the outcome of the original, if all its window calls have that value |
| WindowRewrite.ReplaceComplete | crates/parser/src/planner.rs:1647-1702 | no window call is left in the replaced item if and only if each sat under forms the rewrite looks into |
| WindowRewrite.IsNullMissed | crates/parser/src/planner.rs:1603-1645 | a call under IS NULL is not found, stays, and has no value where the item is evaluated |
| WindowRewrite.ReplaceMeans | crates/parser/src/planner.rs:1647-1702 | a replaced item means the item with every call, equal or not, given the value of the one column |
| WindowRewrite.ItemRightIff | crates/parser/src/planner.rs:1603-1702 | a replaced item is right if and only if giving every call the first call's value leaves its outcome as it is |
| WindowRewrite.OneColumnIff | crates/parser/src/planner.rs:1603-1702 | an item that uses every call (arithmetic, comparisons, functions and casts over calls) is right over its one column, on every row and for all values, if and only if its calls are the same, frames included |
| WindowRewrite.TwoCallsConfused | crates/parser/src/planner.rs:1603-1653 | `w1 = w2` over two calls with different values becomes TRUE |
| WindowRewrite.PlanItems | crates/parser/src/planner.rs:1522-1567 | the two loops, with their list of positions and running offset, give each item with a call the column of its own call |
| WindowRewrite.ProjectionSound | crates/parser/src/planner.rs:1522-1567 | every item of the projection, on the input row extended by all collected calls' values, has the outcome of the item written |
| WindowRewrite.RemapIdentity | crates/parser/src/planner.rs:1704-1748 | remapping by name changes nothing if and only if each column has the place of the first field with its name and, for a qualified column, its table |
| WindowRewrite.RemapQualified | crates/parser/src/planner.rs:1704-1716 | a qualified column gets the place of the one field with its name and table, whatever other tables have such a column |
| WindowRewrite.RemapUnqualified | crates/parser/src/planner.rs:1704-1716 | an unqualified column gets the least place with its name |
| WindowRewrite.ReplacedSettled | crates/parser/src/planner.rs:1522-1574 | an item whose columns have their places in the input keeps them in the extended schema, the new column included, if the fields added have names of their own |
| WindowRewrite.RemapPicksFirst | crates/parser/src/planner.rs:1704-1748 | a reference to the second of two columns of one name becomes one to the first |
| WindowRewrite.SelectSound | crates/parser/src/planner.rs:1522-1574 | the finished projection, replaced and remapped, has the outcomes of the items written, for items whose columns have the places of the fields they stand for in the input |
| UdfInline.FuelIrrelevant | crates/parser/src/expr_planner.rs:2414-2748 | a result of the substitution, once reached, does not depend on how many lambda applications were allowed |
| UdfInline.SelfApplicationDiverges | crates/parser/src/expr_planner.rs:2466-2486 | with `f` bound to `x -> x(x)`, inlining `f(f)` ends after no number of applications |
| UdfInline.StaysNoLambda | crates/parser/src/expr_planner.rs:2414-2748 | an argument that is not syntactically a lambda, nor a parameter or call that yields one, does not become one |
| UdfInline.FirstOrderTerminates | crates/parser/src/expr_planner.rs:2414-2748 | inlining ends, after one level of lambda application, whenever no argument passed to a lambda parameter becomes a lambda |
| UdfInline.SubstituteSound | crates/parser/src/expr_planner.rs:2414-2748 | simultaneous substitution: the inlined body in the caller's row has the outcome of the body with parameters bound to the values of the arguments, arguments never substituted again, lambda calls reduced |
| UdfInline.SubstituteParameters | crates/parser/src/expr_planner.rs:2371-2388 | the loop over parameters builds the map EachParameterBound speaks of |
| UdfInline.EachParameterBound | crates/parser/src/expr_planner.rs:2371-2385 | with distinct names each parameter is bound to its own argument, else to its default, else not at all |
| UdfInline.CallSound | crates/parser/src/expr_planner.rs:1500-1517 | a whole call of a SQL function means its body with parameters bound to the call's arguments and defaults |
| UdfInline.MissingArgumentCaptured | crates/parser/src/expr_planner.rs:2374-2382 | a parameter left unbound is read from the caller's row |
| GroupingSets.AddKeyPlaces | crates/parser/src/planner.rs:6211-6225 | adding a grouping expression never renumbers earlier ones and answers with the place of one with the same key |
| GroupingSets.AddKeysPlace | crates/parser/src/planner.rs:6227-6237 | each of a list of expressions gets the place of one with its key, below the number of keys |
| GroupingSets.IdentifierKeyIff | crates/parser/src/planner.rs:6198-6209 | two names have one key if and only if they are the same, case aside |
| GroupingSets.DottedKeyIff | crates/parser/src/planner.rs:6198-6209 | two dotted names have one key if and only if their parts are the same, case aside |
| GroupingSets.ExpandRollup | crates/parser/src/planner.rs:6239-6245 | the loop counting down yields the sets RollupIsPrefixes speaks of |
| GroupingSets.RollupIsPrefixes | crates/parser/src/planner.rs:6239-6245 | ROLLUP yields exactly the prefixes of its list, each once |
| GroupingSets.ExpandCube | crates/parser/src/planner.rs:6247-6260 | the loop over masks, testing bits, yields the sets CubeIsSublists speaks of |
| GroupingSets.CubeIsSublists | crates/parser/src/planner.rs:6247-6260 | CUBE of n expressions, n at most 30, yields 2^n sets, exactly the order-preserving sublists of its list |
| GroupingSets.CubeDistinct | crates/parser/src/planner.rs:6247-6260 | the sets differ pairwise when the indices do |
| GroupingSets.CubeEnds | crates/parser/src/planner.rs:6247-6260 | the first set is the whole list, the last the empty one |
| GroupingSets.CubeWidth | crates/parser/src/planner.rs:6247-6260 | there are 2^n sets if and only if n is at most 30 |
| GroupingSets.GroupByInRange | crates/parser/src/planner.rs:1776-1884 | every index in every grouping set of any GROUP BY clause is below the number of grouping keys |
| GroupingSets.GroupByYields | crates/parser/src/planner.rs:1776-1884 | for every list of items the grouping sets are exactly, in order: all beginnings for a ROLLUP, from the longest, all sublists for a CUBE of up to 30, the list itself for a plain member of GROUPING SETS, as places of expressions with the same keys, each set after the places of the plain items; none when all items are plain |
| GroupingSets.KeysMentioned | crates/parser/src/planner.rs:1776-1884 | every grouping key is an expression of the clause, names looked up among the aliases |
| GroupingSets.GroupPlanner.constructor | crates/parser/src/planner.rs:1778-1783 | planning a GROUP BY starts without keys and sets |
| GroupingSets.GroupPlanner.AddExpr | crates/parser/src/planner.rs:6211-6225 | the list and the key map grow together as AddKeyPlaces describes |
| GroupingSets.GroupPlanner.AddExprs | crates/parser/src/planner.rs:6227-6237 | the loop over expressions gives the places AddKeysPlace describes |
| GroupingSets.GroupPlanner.AddOneSet | crates/parser/src/planner.rs:1815-1852 | one member of GROUPING SETS, a ROLLUP or CUBE inside included |
| GroupingSets.GroupPlanner.AddOneItem | crates/parser/src/planner.rs:1786-1869 | one item of GROUP BY, ROLLUP, CUBE, GROUPING SETS or a plain expression, adds what GroupByYields says |
| GroupingSets.GroupPlanner.PlanGroupBy | crates/parser/src/planner.rs:1786-1884 | the loop over all items, then prefixing every set with the plain expressions, gives, from a fresh planner, exactly the sets the clause stands for (Yields) |
| TableProtocol.NamesNeverChange | crates/executor/src/concurrent_catalog.rs:514-519 | no interleaving of any statements' steps adds or removes a table name |
| TableProtocol.FailureChangesNothing | crates/executor/src/async_executor.rs:127-137 | no step of a statement that fails before its commit changes any table, whatever runs beside it |
| TableProtocol.RunKeepsInv | crates/executor/src/concurrent_catalog.rs:222-255 | in every interleaving of non-conflicting statements each one's copies, answer and written tables stay what they would be alone |
| TableProtocol.SerialIsHolds | crates/executor/src/async_executor.rs:105-145 | running non-conflicting statements one after the other, in any order, gives each its answer on the first database |
| TableProtocol.Serializable | crates/executor/src/concurrent_catalog.rs:60-97 | once all are done, the tables equal those of running the statements one after the other, in every order |
| TableProtocol.SameAnswers | crates/executor/src/async_executor.rs:127-144 | each statement's result or error is the one it gives when its turn comes in that order |
| TableProtocol.LostUpdate | crates/executor/src/concurrent_catalog.rs:90-97 | two overlapping appends to one table both succeed and one row is lost, as in no serial order |
| Conflicts.SerialSchedule | crates/executor/src/async_executor.rs:105-145 | running one statement after the other is one of the interleavings, with the serial tables and answers |
| Conflicts.OrdersDiffer | crates/executor/src/concurrent_catalog.rs:60-97 | for access sets in conflict there are two statements, which write back every copy taken for writing, a database and a schedule that ends unlike one of the serial orders |
| Conflicts.NoConflictBothOrders | crates/executor/src/concurrent_catalog.rs:60-97 | without conflict, statements that change only copies taken for writing end, in every interleaving, as in both serial orders |
| Conflicts.BothOrdersIff | crates/executor/src/concurrent_catalog.rs:60-97 | any two statements with given access sets that write back all they took for writing end, in every interleaving on every database, with the tables and answers of both serial orders, if and only if the access sets do not conflict |
| Conflicts.NoOrder | crates/executor/src/concurrent_catalog.rs:222-255 | for access sets that conflict both ways, or on two names, there are two such statements, a database and a schedule that ends unlike every serial order: a lost update, or one statement seeing half of the other |
| Conflicts.SomeOrderIff | crates/executor/src/concurrent_catalog.rs:222-255 | they end as in some serial order, always, if and only if the access sets conflict on at most one name, which only one of them may write |
| CatalogState.RunKeepsSchemas | crates/executor/src/concurrent_catalog.rs:257-405 | over every run of operations live schemas are the metadata keys and disjoint from dropped ones |
| CatalogState.RunKeepsUpper | crates/executor/src/concurrent_catalog.rs:257-519 | over every run all keys stay upper-cased |
| CatalogState.RunKeepsApart | crates/executor/src/concurrent_catalog.rs:257-519 | over every run what is kept of a dropped schema is tables under its name and defaults of those tables, as DropUndropRestores needs |
| CatalogState.ResolvesToFirst | crates/executor/src/concurrent_catalog.rs:202-215 | a name without a dot that is no table stands for the first schema of the search path that has it, else for itself |
| CatalogState.AlteredOptions | crates/executor/src/concurrent_catalog.rs:394-405 | altering a schema sets the options named and keeps the others, and fails on a schema that is not there |
| CatalogLaws.UnderIff | crates/executor/src/concurrent_catalog.rs:318-336 | a qualified table is under its own schema and no other, one whose name starts alike included |
| CatalogLaws.SchemaOfQualified | crates/executor/src/catalog.rs:272-292 | a name of two parts has the first as its schema |
| CatalogLaws.FailingKeeps | crates/executor/src/concurrent_catalog.rs:257-519 | a failing operation of any kind changes nothing |
| CatalogLaws.SucceedsIff | crates/executor/src/concurrent_catalog.rs:422-519 | when creating, dropping, renaming, replacing and updating tables succeed |
| CatalogLaws.SchemaSucceedsIff | crates/executor/src/concurrent_catalog.rs:257-405 | when creating, dropping, restoring and altering schemas succeed, IF EXISTS, IF NOT EXISTS and RESTRICT included |
| CatalogLaws.SchemaKept | crates/executor/src/concurrent_catalog.rs:257-388 | where such a statement has nothing to do, or is not allowed, nothing changes |
| CatalogLaws.DroppedSchemaRefuses | crates/executor/src/catalog.rs:272-292 | the plain catalog refuses a new table under a dropped schema, the concurrent one only an existing name |
| CatalogLaws.OwnName | crates/executor/src/concurrent_catalog.rs:202-215 | a dotted name, or that of a table there is, stands for itself whatever the search path |
| CatalogLaws.PathIsUsed | crates/executor/src/concurrent_catalog.rs:202-215 | after setting the search path an unknown name is found in the first schema named, in whatever case |
| CatalogLaws.DefaultsStored | crates/executor/src/concurrent_catalog.rs:435-438 | setting the defaults of a table sets those and nothing else |
| CatalogLaws.CommitForgets | crates/executor/src/concurrent_catalog.rs:181-196 | after a commit, or before any begin, a rollback changes nothing |
| CatalogLaws.OwnWritesSeen | crates/executor/src/concurrent_catalog.rs:60-84 | a statement sees what it wrote into its own copies, and else its copies for reading |
| CatalogLaws.TableFrame | crates/executor/src/concurrent_catalog.rs:422-519 | they change no other part of the catalog, and no table but those they name |
| CatalogLaws.TableStored | crates/executor/src/concurrent_catalog.rs:422-519 | what is stored is there afterwards, and updating a missing table adds none |
| CatalogLaws.CreateDrop | crates/executor/src/concurrent_catalog.rs:422-473 | dropping a table just created gives the catalog back |
| CatalogLaws.RenameBack | crates/executor/src/concurrent_catalog.rs:480-498 | renaming back gives the catalog back |
| CatalogLaws.ReplaceBack | crates/executor/src/concurrent_catalog.rs:500-519 | putting the old table back gives the catalog back |
| CatalogLaws.CreateDropSchema | crates/executor/src/concurrent_catalog.rs:257-348 | a schema just created has the options given, and dropping it leaves only what is kept for UNDROP |
| CatalogState.DropMakesGone | crates/executor/src/concurrent_catalog.rs:296-348 | DROP SCHEMA CASCADE of a live schema succeeds, leaves no table under it, and keeps its tables, defaults and metadata |
| CatalogState.RunStaysGone | crates/executor/src/concurrent_catalog.rs:257-519 | any run that touches no name under the schema keeps it dropped, and what was kept unchanged |
| CatalogState.UndropRestores | crates/executor/src/concurrent_catalog.rs:354-388 | in both catalogs UNDROP brings back exactly the tables and metadata kept, with the defaults kept beside them or never taken away, and touches no table and no default outside the schema |
| CatalogState.DropUndropRestores | crates/executor/src/concurrent_catalog.rs:296-388 | in both catalogs (the plain one: `catalog.rs` 143 to 220): drop with CASCADE, any run touching no name under the schema, then UNDROP: its tables, column defaults and metadata are exactly as before, and tables and defaults outside are as the run left them |
| CatalogState.PlainRollbackExact | crates/executor/src/catalog.rs:86-100 | in the plain catalog, rollback after any run without begin or commit restores the table map exactly |
| CatalogState.ConcurrentRollbackIff | crates/executor/src/concurrent_catalog.rs:143-196 | in the concurrent catalog it does if and only if the run left the table names as they were |
| CatalogState.LookupIff | crates/executor/src/concurrent_catalog.rs:60-79 | a lookup after acquiring succeeds if and only if some recorded name resolves to the upper-cased name, and then gives the catalog's table |
| CatalogState.AcquiredIsFound | crates/executor/src/concurrent_catalog.rs:222-255 | with an empty search path every name recorded as Read or Write is found once acquiring succeeds |
| CatalogState.SearchPathMisses | crates/executor/src/concurrent_catalog.rs:202-215 | with a search path an acquired table may not be found |
| CatalogState.AcquireCommitIdentity | crates/executor/src/concurrent_catalog.rs:81-97 | acquiring and committing without changes leaves the catalog as it is |
| ConcurrentCatalog.SharedCatalog.constructor | crates/executor/src/concurrent_catalog.rs:127-141 | a new catalog is empty |
| ConcurrentCatalog.SharedCatalog.ResolveTableName | crates/executor/src/concurrent_catalog.rs:202-215 | the loop over the search path finds the first schema that has the table |
| ConcurrentCatalog.SharedCatalog.CreateSchema | crates/executor/src/concurrent_catalog.rs:257-294 | error cases and whole new state |
| ConcurrentCatalog.SharedCatalog.TakeTables | crates/executor/src/concurrent_catalog.rs:318-336 | the removal loop moves exactly the tables under a schema, and their defaults |
| ConcurrentCatalog.SharedCatalog.DropSchema | crates/executor/src/concurrent_catalog.rs:296-348 | missing, restricted and cascading cases, and whole new state |
| ConcurrentCatalog.SharedCatalog.UndropSchema | crates/executor/src/concurrent_catalog.rs:354-388 | existing, never dropped and restored cases, and whole new state |
| ConcurrentCatalog.SharedCatalog.AlterSchemaOptions | crates/executor/src/concurrent_catalog.rs:394-405 | options are merged into those of an existing schema only |
| ConcurrentCatalog.SharedCatalog.SetPath | crates/executor/src/concurrent_catalog.rs:414-416 | the new search path and nothing else |
| ConcurrentCatalog.SharedCatalog.CreateTable | crates/executor/src/concurrent_catalog.rs:422-433 | fails on an existing name, else adds exactly that table |
| ConcurrentCatalog.SharedCatalog.DropTable | crates/executor/src/concurrent_catalog.rs:467-473 | fails on a missing name, else removes exactly that table |
| ConcurrentCatalog.SharedCatalog.RenameTable | crates/executor/src/concurrent_catalog.rs:480-498 | fails on a missing or taken name, else moves the table and keeps the rest |
| ConcurrentCatalog.SharedCatalog.ReplaceTable | crates/executor/src/concurrent_catalog.rs:500-507 | fails on a missing name, else replaces exactly that table |
| ConcurrentCatalog.SharedCatalog.CreateOrReplaceTable | crates/executor/src/concurrent_catalog.rs:509-512 | adds or replaces exactly that table |
| ConcurrentCatalog.SharedCatalog.UpdateTable | crates/executor/src/concurrent_catalog.rs:514-519 | writes into an existing table only, so it never adds a name |
| ConcurrentCatalog.SharedCatalog.SetTableDefaults | crates/executor/src/concurrent_catalog.rs:435-438 | the defaults of one table and nothing else |
| ConcurrentCatalog.SharedCatalog.Begin | crates/executor/src/concurrent_catalog.rs:143-153 | the snapshot is the table map |
| ConcurrentCatalog.SharedCatalog.Commit | crates/executor/src/concurrent_catalog.rs:181-183 | forgets the snapshot |
| ConcurrentCatalog.SharedCatalog.Rollback | crates/executor/src/concurrent_catalog.rs:185-196 | the loop over the snapshot writes into tables that still exist, and only those |
| ConcurrentCatalog.SharedCatalog.AcquireTableLocks | crates/executor/src/concurrent_catalog.rs:222-255 | in any order of names: fails exactly when a required table is missing, else the lock set holds exactly the resolved tables for reading and writing |
| ConcurrentCatalog.TableLockSet.constructor | crates/executor/src/concurrent_catalog.rs:32-38 | a new lock set holds no copy |
| ConcurrentCatalog.TableLockSet.AddReadTable | crates/executor/src/concurrent_catalog.rs:52-54 | adds one copy for reading |
| ConcurrentCatalog.TableLockSet.AddWriteTable | crates/executor/src/concurrent_catalog.rs:56-58 | adds one copy for writing |
| ConcurrentCatalog.TableLockSet.GetTable | crates/executor/src/concurrent_catalog.rs:60-70 | a copy for writing first, else one for reading, under the upper-cased name |
| ConcurrentCatalog.TableLockSet.UpdateCopy | crates/executor/src/concurrent_catalog.rs:81-84 | a statement's change goes into its own copies |
| ConcurrentCatalog.TableLockSet.CommitWritesTo | crates/executor/src/concurrent_catalog.rs:90-97 | writing back table by table, in any order, gives the catalog with all changed copies, no name added or removed |
| ConcurrentCatalog.PlainCatalog.Begin | crates/executor/src/catalog.rs:86-90 | the snapshot is the table map |
| ConcurrentCatalog.PlainCatalog.Rollback | crates/executor/src/catalog.rs:96-100 | the table map becomes the snapshot |
| ConcurrentCatalog.PlainCatalog.DropSchema | crates/executor/src/catalog.rs:143-186 | all cases of the plain catalog, which keeps the tables and leaves their defaults where they are |
| ConcurrentCatalog.PlainCatalog.UndropSchema | crates/executor/src/catalog.rs:188-220 | existing, never dropped and restored cases, the loop putting the tables back one by one |
| ConcurrentCatalog.PlainCatalog.CreateTable | crates/executor/src/catalog.rs:272-292 | fails on an existing name, else adds exactly that table |
| AccessSets.CollectWrites | crates/executor/src/plan.rs:1119-1309 | collecting a plan records exactly its targets as written, on top of what was recorded |
| AccessSets.WriteWins | crates/executor/src/plan.rs:32-44 | a name is recorded as written if and only if it is a target, wherever and whenever it is also read |
| AccessSets.RecordedIff | crates/executor/src/plan.rs:1119-1309 | a name is recorded if and only if it is a target, or some scan of it is collected before every CTE of its name |
| AccessSets.EntryIs | crates/executor/src/plan.rs:32-44 | how a name is recorded, by the order of its uses: written if it is a target; else read if it is read before any optional write; else as an optional write |
| AccessSets.CanAcquireIff | crates/executor/src/concurrent_catalog.rs:222-255 | the access set of a plan can be acquired if and only if every name that is a target, or read, by a scan no CTE hides or as a snapshot's source, before any optional write of it, resolves to a table |
| AccessSets.WriteCopyIff | crates/executor/src/concurrent_catalog.rs:222-255 | there is a copy for writing of exactly the tables a name resolves to that is a target, or written optionally before any read of it |
| AccessSets.ReadCopyIff | crates/executor/src/concurrent_catalog.rs:222-255 | and one for reading of exactly those a name resolves to that is read first and no target |
| AccessSets.OptionalCopy | crates/executor/src/plan.rs:1199-1223 | with an empty search path the table of a statement with IF EXISTS is copied for writing if and only if it exists, and not asked for |
| AccessSets.ReachesIff | crates/executor/src/executor/concurrent/dql.rs:17-45 | the names some run of a plan reads from the store, CTE names staying known once computed, are those within reach: loops, jumps, branches, caught errors, bodies not looked into and parallel joins and unions, each input of which runs whatever becomes of the others, included |
| AccessSets.MissedIff | crates/executor/src/plan.rs:1112-1309 | a name read in a run is missed if and only if it is no target and a CTE of that name is collected before each of its scans |
| AccessSets.CompleteIff | crates/executor/src/plan.rs:1112-1309 | extraction is complete for all runs of a plan if and only if each name within reach is a target or has a scan collected before every CTE of its name |
| AccessSets.ExtractComplete | crates/executor/src/plan.rs:1112-1309 | in particular where no scanned table has the name of a CTE and nothing is run that was not looked into; and every target is recorded |
| AccessSets.OwnNameMissed | crates/executor/src/plan.rs:1161-1174 | `WITH t AS (SELECT .. FROM t) SELECT .. FROM t` reads the stored table and does not record it |
| AccessSets.ElseBranchMissed | crates/executor/src/executor/concurrent/scripting.rs:296-331 | an ELSE branch that scans the name of a CTE of the THEN branch reads the stored table, which is not recorded |
| AccessSets.ParallelUnionMissed | crates/executor/src/executor/concurrent/set_ops.rs:24-32 | an input of a parallel union that scans the name of another input's CTE may read the stored table, which is not recorded |
| AccessSets.HiddenMissed | crates/executor/src/plan.rs:1285-1309 | the table scanned in a block with an EXCEPTION part, or in what a CALL runs, is read and nothing is recorded |
| AccessSets.StatementFindsItsTables | crates/executor/src/concurrent_catalog.rs:222-255 | from plan to tables: where extraction is complete, once the access set is acquired with an empty search path a lookup of any target, or of any name a run reads from the store, succeeds and gives the stored table |
| AccessSets.AccessCollector.RecordRead | crates/executor/src/plan.rs:32-34 | a read never overwrites what is recorded |
| AccessSets.AccessCollector.RecordWrite | crates/executor/src/plan.rs:36-38 | a write always overwrites |
| AccessSets.AccessCollector.RecordWriteOptional | crates/executor/src/plan.rs:40-44 | an optional write is recorded as such where nothing is recorded yet (what that means: EntryIs and OptionalCopy) |
| AccessSets.AccessCollector.CollectAccesses | crates/executor/src/plan.rs:1119-1309 | the walk that fills the access set and the CTE names in place computes the collection the lemmas speak of |
| AccessSets.AccessCollector.CollectEach | crates/executor/src/plan.rs:1119-1309 | the loop over inputs |
| AccessSets.AccessCollector.CollectEachCte | crates/executor/src/plan.rs:1119-1309 | the loop over CTEs, which names each before looking into it |
| PlanCache.CacheableNeverInvalidates | crates/executor/src/async_executor.rs:30-77 | no form of plan is both kept and a reason to forget the kept ones |
| PlanCache.CacheAfter | crates/executor/src/async_executor.rs:30-145 | a call empties the cache if and only if its plan is of one of the sixteen defining forms and succeeds; otherwise it adds its plan if that is one of the forms of queries, and drops plans only to make room |
| PlanCache.StepCoherentIff | crates/executor/src/async_executor.rs:105-145 | one call keeps every cached plan equal to what planning would now give if and only if it empties the cache or changes the planning of no kept query |
| PlanCache.RunCoherentIff | crates/executor/src/async_executor.rs:105-153 | over a whole run the cache is coherent after every call if and only if each call of the run is like that |
| PlanCache.CoherenceIff | crates/executor/src/async_executor.rs:105-153 | the caches of all runs stay coherent if and only if every statement, of whatever form, either is of a listed form and succeeds or leaves the planning of every cacheable query as it is |
| PlanCache.DisciplinedKeeps | crates/executor/src/async_executor.rs:58-77 | that holds when what planning sees changes only through successful statements of listed forms |
| PlanCache.ExecuteRefines | crates/executor/src/async_executor.rs:105-145 | where it holds one call keeps the cache coherent, and has the state and result it would have without a cache |
| PlanCache.RunRefines | crates/executor/src/async_executor.rs:105-153 | the same over every sequential run, whatever the bounded cache evicts |
| PlanCache.TwoCallsIff | crates/executor/src/async_executor.rs:105-145 | after a cached query and then any statement no stale plan is left for the query if and only if the statement is of a listed form and succeeds, or planning the query gives what it gave |
| PlanCache.UnlistedChangeStale | crates/parser/src/planner.rs:4343-4358 | a change of an unlisted form that changes the planning of a cached query leaves the stale plan in the cache |
| PlanCache.SetPathStale | crates/executor/src/executor/concurrent/scripting.rs:215-220 | a query, SET SEARCH_PATH, the query again: with the cache the last answer has the columns of the table the old path led to, without it those of the new one |
| PlanCache.AsyncQueryExecutor.ExecuteSql | crates/executor/src/async_executor.rs:105-145 | lookup, planning, caching, running and clearing, in place, as Execute says |
| PlanCache.AsyncQueryExecutor.ExecuteBatch | crates/executor/src/async_executor.rs:147-153 | a batch is its statements one after the other |
| BitWords.ShiftTest | crates/storage/src/bitmap.rs:43-51 | shifting a word down and masking with one tests the bit in place |
| BitWords.WithBitBits | crates/storage/src/bitmap.rs:58-70 | setting or clearing one bit changes that bit only |
| BitWords.MaskBits | crates/storage/src/bitmap.rs:112-127 | masking with (1 << r) - 1 keeps exactly the bits below r |
| BitWords.NoBitsZero | crates/storage/benches/bitmap_bench.rs:370-378 | a word without set bits is zero, so the loop over set bits ends only when none is left |
| BitWords.DropLowest | crates/storage/benches/bitmap_bench.rs:370-378 | w & (w - 1) clears the lowest set bit and no other |
| BitWords.CountDropped | crates/storage/benches/bitmap_bench.rs:370-378 | and lowers the bit count by one |
| NullBitmaps.SetRefines | crates/storage/src/bitmap.rs:58-70 | setting replaces one element of the sequence, or nothing outside it, and keeps a zero tail |
| NullBitmaps.PushRefines | crates/storage/src/bitmap.rs:82-92 | pushing appends exactly the element asked for if and only if it is NULL or the bit past the end is clear |
| NullBitmaps.RemoveRefines | crates/storage/src/bitmap.rs:94-105 | from any state with enough words, removing deletes exactly one element, and none outside the sequence |
| NullBitmaps.WordsKept | crates/storage/src/bitmap.rs:94-105 | and keeps as many words as the elements left need, one at least |
| NullBitmaps.NewRefines | crates/storage/src/bitmap.rs:17-31 | the constructors give all-valid and all-NULL sequences; the all-NULL one has a zero tail if and only if its length is a multiple of 64 |
| NullBitmaps.StalePush | crates/storage/src/bitmap.rs:82-92 | after `new_null(1)` a pushed non-NULL reads as NULL |
| NullBitmaps.ApplyRefinesIff | crates/storage/src/bitmap.rs:58-110 | any operation does to the sequence what it should if and only if it is not a push onto a stale bit |
| NullBitmaps.RunRefines | crates/storage/src/bitmap.rs:58-110 | over every run whose pushes land on clean bits, removals included, the bitmap is the sequence |
| NullBitmaps.ZeroTailRun | crates/storage/src/bitmap.rs:58-110 | runs of push, set and clear keep the zero tail, so all their pushes land on clean bits |
| NullBitmaps.PushSetClearRefines | crates/storage/src/bitmap.rs:9-110 | over every run of push, set and clear from an empty or all-valid bitmap it behaves as its sequence, with a zero tail |
| NullBitmaps.NullBitmap.IsNull | crates/storage/src/bitmap.rs:43-51 | the element of the sequence, or NULL past its end |
| NullBitmaps.NullBitmap.Set | crates/storage/src/bitmap.rs:58-70 | the words change as SetNull says and the sequence at one place |
| NullBitmaps.NullBitmap.Push | crates/storage/src/bitmap.rs:82-92 | the words change as Pushed says and the sequence grows by one |
| NullBitmaps.NullBitmap.Remove | crates/storage/src/bitmap.rs:94-105 | the loop shifting bits down in place deletes one element, reading no bit it has already written |
| NullBitmaps.NullBitmap.CountNull | crates/storage/src/bitmap.rs:112-127 | word-wise counts with a masked last word give the number of NULLs, whatever the bits past the end are |
| NullBitmaps.NullBitmap.CountValid | crates/storage/src/bitmap.rs:129-131 | the number of elements that are not NULL |
| BitmapSums.SumOriginal | crates/storage/benches/bitmap_bench.rs:329-339 | the sum of the elements that are not NULL, none if there is no such element |
| BitmapSums.SumAutoVectorize | crates/storage/benches/bitmap_bench.rs:341-356 | the same value: a plain sum when nothing is NULL, the filtered one otherwise |
| BitmapSums.AddMarked | crates/storage/benches/bitmap_bench.rs:370-378 | the clear-lowest-bit loop adds exactly the marked elements |
| BitmapSums.AddWord | crates/storage/benches/bitmap_bench.rs:362-380 | one word, all-ones skipped and zero added whole, advances the sum past its elements |
| BitmapSums.SumBitmapAware | crates/storage/benches/bitmap_bench.rs:358-383 | the same value, with a partial last word |
| BitmapSums.AddRemainder | crates/storage/benches/bitmap_bench.rs:406-419 | the elements after the last whole word |
| BitmapSums.SumChunks | crates/storage/benches/bitmap_bench.rs:385-422 | the same value, chunks zipped with words |
| BitmapSums.SumHybrid | crates/storage/benches/bitmap_bench.rs:424-464 | the same value, with the count of NULLs deciding whether there is one |
| BitmapSums.WordMarks | crates/storage/benches/bitmap_bench.rs:358-383 | the elements of a word that are not NULL are those its complement marks |
| BitmapSums.SumOfNulls | crates/storage/benches/bitmap_bench.rs:329-464 | the sum depends on the bitmap only through the sequence it stands for: bits past the length do not matter |
| AggregateStates.CountMerges | crates/functions/src/aggregate.rs:11-31 | COUNT of a whole is the sum of its parts' counts |
| AggregateStates.SumIsMeaning | crates/functions/src/aggregate.rs:54-154 | whatever the order of INT64, FLOAT64 and NUMERIC values, SUM is the exact total in the type the kinds present call for, NULL if there is none |
| AggregateStates.SumMerges | crates/functions/src/aggregate.rs:106-154 | SUM of a whole is merged from its parts, and fails exactly when a part does |
| AggregateStates.AvgHolds | crates/functions/src/aggregate.rs:156-198 | AVG's state is the exact total and the number of values |
| AggregateStates.AvgMerges | crates/functions/src/aggregate.rs:183-198 | AVG's state of a whole is merged from its parts' |
| AggregateStates.AvgIsMean | crates/functions/src/aggregate.rs:189-197 | what AVG gives, times the number of values, is their total; NULL if and only if there are none |
| AggregateStates.ExtremeIs | crates/functions/src/aggregate.rs:200-268 | over values of one type MIN is a value that none is below, MAX one that none is above; NULL only where all are |
| AggregateStates.ExtremeMerges | crates/functions/src/aggregate.rs:200-268 | over comparable kinds, NULLs and ties included, MIN and MAX of a whole are merged from its parts |
| AggregateStates.IncomparableLost | crates/functions/src/aggregate.rs:200-268 | for any two kinds that cannot be compared, values for which merging goes wrong |
| AggregateStates.ExtremeMergesIff | crates/functions/src/aggregate.rs:200-268 | merging MIN or MAX is right on all values of some kinds if and only if the kinds are one, or INT64 with FLOAT64 |
| AggregateStates.AnyMerges | crates/functions/src/aggregate.rs:330-353 | ANY_VALUE of a whole is merged from its parts: the first value that is not NULL |
| AggregateStates.AnyIsFirst | crates/functions/src/aggregate.rs:330-353 | ANY_VALUE is the first value that is not NULL, and NULL only where all are |
| AggregateStates.StringsMerge | crates/functions/src/aggregate.rs:291-328 | STRING_AGG collects the texts of a whole as those of its parts in order |
| AggregateStates.TextsOfOne | crates/functions/src/aggregate.rs:307-314 | a text is itself, NULL is nothing, any other value as it is printed |
| AggregateStates.JoinedTexts | crates/functions/src/aggregate.rs:321-327 | the texts stand in order with the delimiter between any two |
| AggregateStates.DefaultLeftIdentityIff | crates/functions/src/aggregate.rs:291-328 | the default STRING_AGG state is a left identity if and only if there is at most one text or the delimiter is empty |
| AggregateStates.DefaultIdentity | crates/functions/src/aggregate.rs:54-353 | merging a fresh SUM, MIN, MAX or ANY_VALUE state on either side changes nothing |
| AggregateStates.CountState.Update | crates/functions/src/aggregate.rs:17-22 | counts what is not NULL |
| AggregateStates.CountState.Merge | crates/functions/src/aggregate.rs:24-27 | adds the counts |
| AggregateStates.SumState.Update | crates/functions/src/aggregate.rs:64-104 | the promotions and the error case, and the whole new state |
| AggregateStates.SumState.Merge | crates/functions/src/aggregate.rs:106-140 | the whole new state for every mix of integer, float and decimal states |
| AggregateStates.SumState.Finalize | crates/functions/src/aggregate.rs:142-153 | the final value SumIsMeaning speaks of |
| AggregateStates.AvgState.Update | crates/functions/src/aggregate.rs:163-181 | the error case and the whole new state |
| AggregateStates.AvgState.Merge | crates/functions/src/aggregate.rs:183-187 | adds totals and counts |
| AggregateStates.AvgState.Finalize | crates/functions/src/aggregate.rs:189-197 | the quotient, NULL for no values |
| AggregateStates.ExtremeState.Update | crates/functions/src/aggregate.rs:206-219 | keeps the held value on ties and on values it cannot compare |
| AggregateStates.ExtremeState.Merge | crates/functions/src/aggregate.rs:221-228 | the same as updating with the other's value |
| AggregateStates.AnyValueState.Update | crates/functions/src/aggregate.rs:336-341 | keeps the first value that is not NULL |
| AggregateStates.AnyValueState.Merge | crates/functions/src/aggregate.rs:343-348 | keeps its own value if it has one |
| AggregateStates.StringAggState.Update | crates/functions/src/aggregate.rs:307-314 | appends the text of what is not NULL |
| AggregateStates.StringAggState.Merge | crates/functions/src/aggregate.rs:316-319 | appends the other's texts and keeps its own delimiter |
| AggregateStates.StringAggState.Finalize | crates/functions/src/aggregate.rs:321-327 | the texts joined by the delimiter, NULL for none |
| AggregateStates.ArrayAggState.Update | crates/functions/src/aggregate.rs:276-279 | appends the value, NULL included |
| AggregateStates.ArrayAggState.Merge | crates/functions/src/aggregate.rs:281-284 | appends the other's values |

## Left out

Contracts stated with conditions:

- Translation.PlanAgrees: agrees only where neither plan fails, because pushing a conjunct down really hides and exposes failures; ExactPlans.PlanExact is the exact equality where every filter on an inner join is pushed exactly.
- UdfInline.FirstOrderTerminates: one way only; which lambda applications end is not characterised.
- Translation.CtesAgree: in the meaning of a plan a CTE's name is known in the body of its WITH only; the concurrent executor never forgets it, so the two differ on plans that use one name for a CTE and, outside its WITH, for something else.
- AccessSets.ReachesIff: which loop a BREAK, CONTINUE or RETURN ends is left open, a test may go either way, and a plan may fail at any point; a procedure that calls itself is a body as deep as it ran, and sub-queries in expressions are opaque; plans with recursive CTEs, whose own name is known while they run, are outside it.
- EquiKeys.EquiKeysExact: equality of hash keys is that of the concurrent executor, which compares values; the sequential executor compares printed forms, where two NUMERICs of different scale differ.
- CanonicalNames.NameReadsBack: AND, OR, casts and constants other than numbers are outside it; names run into AND and OR, and what constants print is a parameter.
- SortOrder.OneKeySorted: needs a key whose values are of one known type, as the next.
- Sorting.TopNExact: needs key types whose values can be compared; over mixed kinds the comparison is no order and what a sort gives is not defined.
- PlanProof.UnionResults: needs two inputs; from a union of one `into_logical` drops the removal of repeats, and `plan` builds none.
- UdfInline.SubstituteSound: sub-queries in a function's body are opaque, as the code does not look into them, and an inner lambda's parameters are not protected from substitution, as in the code.
- PlanCache.RunRefines: sequential runs only; two calls at the same time may interleave between lookup and insertion.

Not modelled:

- Recursive CTEs: their fixpoint loop needs a semantics of its own; queries with them are outside the well-planned ones.
- QUALIFY, UNNEST, SAMPLE, GAP_FILL and window operators as plan forms, and all DDL, DML and scripting arms of `plan` and `into_logical`, which copy fields.
- What grouping and aggregation compute on a table: a parameter of the plan semantics.
- Scalar functions, casts, arithmetic, LIKE patterns, intervals, arrays, structs and JSON access: parameters of the evaluator, any deterministic functions that may fail; RAND and other functions that are not deterministic are excluded by that.
- Collations in equality, and columns found by name only: the second is a parameter, and rewrites that need indices require them.
- Sub-queries inside expressions: opaque forms.
- Float rounding, NaN, INT64 overflow and the limits of decimals: numbers are mathematical integers and reals.
- Cross joins with a condition: planning drops the condition, and the canonical form excludes them; the nested loop ignores the condition of a cross join too.
- `plan` applied twice: planning what came back may push a filter deeper, and is no fixpoint.
- Re-planning HAVING and ORDER BY by name, SELECT items without aggregates, wildcards and QUALIFY in the aggregate planner, and field names of STRUCT results of SQL functions.
- Text of SQL, its parsing and preprocessing: the aggregate collectors start from parsed expressions with their planned form beside them.
- Views, functions and procedures in the catalogs; they are plain maps.
- Locks, asynchronous scheduling and the unchecked sharing in `get_table_mut`: each map operation is one atomic step.
- The eviction order of the plan cache: evictions are arbitrary.
- TRY blocks, GAP_FILL, UPDATE FROM and sub-queries in access sets.
- Row estimates and the parallel flags derived from them: heuristics about cost.
- The panic of a debug build when CUBE shifts by 32 or more: the model uses the release build's masked shift.
- The benchmark's own copy of the bitmap: one bitmap class stands for it and for the storage crate's, whose operations agree.
