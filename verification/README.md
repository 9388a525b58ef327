# A verified model of fdapquery

fdapquery is a small query engine in the style of DataFusion. This project models its hardest parts in
Dafny and proves what they promise for every input: the projection push-down rule, the hash aggregate in
its single, partial and final modes, the shuffle, the hash join, the stage scheduler, the plan-tree
renderer, and the row-level kernels.

`dafny verify dfyconfig.toml` checks everything.

## How it is laid out

- `LogicalPlan` gives logical plans a meaning: a schema and a sequence of rows. `PushDown` is the rewrite,
  as a function and as the methods that thread one mutable name set through the tree. `PushDownShape` says
  when it succeeds and what it may touch, on every plan; `PushDownSchemas`, `PushDownMeaning` and
  `PushDownExact` prove it preserves meaning, is idempotent, and say exactly when the result is identical;
  `PushDownPositions` and `PushDownArguments` do so for columns referred to by position, and `PushDownWorlds`
  for tables with several columns of one name.
- `PlannedQuery` runs a planned query operator by operator, and proves it computes the plan's meaning.
  `PlanLaws`, `PlanTypes` and `PlanNulls` are about the meaning itself: which rows a filter keeps, what a name
  reads, that cells have their fields' types, and where nulls may stand.
- `Accumulators` holds the running states of SUM, COUNT, MIN and MAX as classes and as functions;
  `AccumulatorLaws` shows they form commutative monoids whose failures absorb, and `ReducerMeaning` and
  `FloatReducers` say what they compute in terms of the values alone. `HashAggregate` is the
  operator, proved to refine group-by, and in `AggregateMeaning` to compute the logical aggregate's meaning.
  `TwoPhase`, `PlannedAggregate`, `PlannedStages` and `DistributedAggregate` are about running it in stages.
- `Batches`, `Shuffle`, `KeyHashing`: record batches, hash partitioning, the shuffle store, writing and
  reading back, and what a key feeds to the hasher.
- `HashJoin`, `HashJoinMeaning`, `OuterJoinNulls`: the operator against nested loops, the planned operator
  against the meaning of the logical join, and when a padded row can be handed on.
- `Scheduler`, `SchedulerCalls`, `SchedulerRuns`: stages, the dispatch loop, and what every run looks like.
  `PlannedRuns` is the exact list of tasks a plan is sent out as, and `DistributedQuery` puts the operators
  behind the scheduler's client and composes the whole run of an aggregate.
- `RenderTree`, `LineWrap`, `TreeRender`, `TreeText`: grid layout, line breaking, and the drawn text.
- `Limits`, `Selection`, `FloatCompare`, `BooleanCells`, `ExprDisplay`: the row-level kernels and the
  expression printer.
- `Results`, `Scalars`, `Operators`, `Sequences`, `Arithmetic`: shared types, sequence and division lemmas.

Code that mutates an object is a class or a method with a loop, proved against a function of its inputs;
the theorems are about the functions. A Rust panic is the error `Panic`. Streams are finite sequences of
batches. Hash functions, float arithmetic, executors' answers and physical expressions are parameters of
unknown behaviour, so every theorem holds for all of them.

## Where the code departs from its documentation or from what one expects

Each of these is modelled as the code has it. A lemma says exactly when the expectation holds, and another
gives an input on which it fails.

- The rule refuses negations and scalar functions, which plans may contain (`PushDownShape.PushSucceedsIff`,
  `PushDownShape.NegationIsRefused`).
- A filter over a bare table at the root loses the columns it does not mention
  (`PushDownExact.OptimizeIsExact`, `PushDownExact.RootFilterLosesColumns`).
- Over filters and limits at the root, tables with several columns of one name included, nothing is lost
  exactly when no column is asked for or all are, no name twice (`PushDownWorlds.ChainExact`).
- Columns referred to by position are copied unchanged over a scan that has been cut and sorted. Where every
  position stays at its column nothing is lost, whatever the plan (`PushDownPositions.PositionsAgree`); over
  one table a position stays exactly when it is its column's rank among the requested names
  (`PushDownPositions.PositionsExact`, `PushDownArguments.ArgumentsExact`, `PushDownArguments.SwappedByPosition`).
- The planner hands the final aggregate the original expressions. They read every conceivable partial row back
  exactly when bound in place (`TwoPhase.ReadsPartialRowsInPlace`). The partial rows that do arise read right
  in more cases, as in `SELECT c0, MAX(c0) GROUP BY c0`: one query over plain columns gives the single-mode
  outcome on every input exactly when each key and each state is found where it stands or where something
  that always equals it stands (`PlannedStages.OneQueryServesBoth`); otherwise it need not
  (`PlannedAggregate.FinalReadsOutOfPlace`).
- Every partial task runs the whole input. The outcome of the planned run is then the single-node one exactly
  when that fails, as the first task then does, or every group's values survive being aggregated n times over
  (`PlannedAggregate.EveryTaskRunsTheWholeInput`, `PlannedAggregate.CopiesHarmless`); two tasks count one row
  twice (`PlannedAggregate.CountedTwice`).
- The final task reads its own executor's partitions only. An aggregate planned for two tasks or more on two
  executors or more therefore fails as soon as there is a row (`DistributedQuery.AggregateOutcome`).
- The partial-reduce mode accumulates the states it is documented to merge
  (`PlannedAggregate.PartialReduceCombines`, `PlannedAggregate.PartialReduceMiscounts`).
- The join ignores the null equality it is planned with (`HashJoinMeaning.NullEqualityIgnored` for inner and
  left joins, `HashJoinMeaning.NullEqualityIgnoredOnTheRight`, `HashJoinMeaning.NullsJoin`).
- An outer join keeps both sides' fields as they are, and a batch with a null in a field that is not nullable is
  refused: such a join fails as soon as it pads one (`OuterJoinNulls.PaddingFitsIff`,
  `OuterJoinNulls.OnePaddedRow`).
- The comment on `write_child` calls the printed form unambiguous; ties on the right are not
  (`ExprDisplay.PrintsSameIff`, `ExprDisplay.MinusIsAmbiguous`).
- Integers are compared as doubles (`FloatCompare.ComparesRightUnless`, `FloatCompare.FirstWrongPair`).

## Model

| member | source | states |
|---|---|---|
| PushDown.CollectColumns | fdapquery-optimizer/src/optimizer.rs:81-124 | inserts into the shared set exactly the names the specification collects, and fails when it does |
| PushDown.CollectColumnsList | fdapquery-optimizer/src/optimizer.rs:69-78 | the same for a list of expressions, one after the other into one set |
| PushDown.CollectArguments | fdapquery-optimizer/src/projection_push_down_rule.rs:58-62 | the same for the arguments of aggregate calls |
| PushDown.RequestForJoin | fdapquery-optimizer/src/projection_push_down_rule.rs:74-87 | the set a join asks both sides for: its keys added, and every column of both sides when nothing was asked for |
| PushDown.RequestedColumns | fdapquery-optimizer/src/projection_push_down_rule.rs:91-100 | the scan's requested columns in sorted order |
| PushDown.PushDown | fdapquery-optimizer/src/projection_push_down_rule.rs:39-110 | the rewrite with its one mutable name set yields the plan and the final set of the specification function, or fails with it |
| PushDownShape.OnlyListsChange | fdapquery-optimizer/src/projection_push_down_rule.rs:39-110 | on every plan, with or without a meaning and with joins of every kind: the rewritten plan is the plan itself but for its scans' column lists |
| PushDownShape.PushSucceedsIff | fdapquery-optimizer/src/projection_push_down_rule.rs:39-110 | on every plan: the rule succeeds if and only if every expression it meets can be collected and every join asked for nothing has both sides' schemas, and it ends with exactly the names gathered on the way |
| PushDownShape.NegationIsRefused | fdapquery-optimizer/src/optimizer.rs:81-124 | a filter by a negation over any bare table has a schema and is refused |
| PushDownSchemas.ExtractAddsWanted | fdapquery-optimizer/src/optimizer.rs:81-124 | collecting a named expression's columns adds exactly the names it mentions, whatever the input's schema |
| PushDownSchemas.PushGrows | fdapquery-optimizer/src/projection_push_down_rule.rs:39-110 | the shared name set only ever grows |
| PushDownSchemas.SortSorts | fdapquery-optimizer/src/projection_push_down_rule.rs:91-100 | the pushed list is sorted and a permutation of the chosen columns |
| PushDownSchemas.SchemaAgrees | fdapquery-optimizer/src/projection_push_down_rule.rs:39-110 | the rewritten plan has a schema in which every requested name resolves to the same field |
| PushDownSchemas.OutputSchemaKept | fdapquery-optimizer/src/projection_push_down_rule.rs:41-69 | a projection's or an aggregate's schema does not change |
| PushDownSchemas.PushIdempotent | fdapquery-optimizer/src/projection_push_down_rule.rs:39-110 | a second pass with the same request returns the same plan and name set, joins asked for nothing included |
| PushDownSchemas.OptimizeIdempotent | fdapquery-optimizer/src/optimizer.rs:61-65 | optimizing twice is optimizing once |
| PushDownMeaning.PushDownAgrees | fdapquery-optimizer/src/projection_push_down_rule.rs:39-110 | same row count and order, and every requested column keeps its cells, on all table contents, through inner, left and right joins |
| PushDownMeaning.JoinAgrees | fdapquery-optimizer/src/projection_push_down_rule.rs:74-90 | the join case of the agreement: shared names, dropped keys and the rows padded on either side |
| PushDownMeaning.ProjectionKept | fdapquery-optimizer/src/projection_push_down_rule.rs:41-45 | a projection's result does not change at all |
| PushDownMeaning.AggregateKept | fdapquery-optimizer/src/projection_push_down_rule.rs:51-69 | an aggregate's result does not change at all |
| PushDownMeaning.DenoteRectangular | fdapquery-expr/src/join.rs:143-210 | every row of a plan's result has one cell per field of the plan's schema |
| PushDownExact.SchemaKeptExactly | fdapquery-optimizer/src/projection_push_down_rule.rs:39-110 | the visible schema never grows, and is unchanged exactly when every exposed scan keeps its visible columns, repeated names included |
| PushDownExact.OptimizeIsExact | fdapquery-optimizer/src/projection_push_down_rule.rs:28-37 | the optimized plan's result is identical, schema included, only if every exposed scan keeps its columns, and exactly then when none has two columns of one name |
| PushDownExact.PushSucceeds | fdapquery-optimizer/src/projection_push_down_rule.rs:39-110 | the rule never fails on a plan that has a meaning |
| PushDownExact.OptimizePreservesCovered | fdapquery-optimizer/src/projection_push_down_rule.rs:28-37 | with every scan below a projection or an aggregate, optimization succeeds and the result is identical |
| PushDownExact.RootFilterLosesColumns | fdapquery-optimizer/src/projection_push_down_rule.rs:46-50 | a filter over a bare table at the root keeps only the columns it mentions: a concrete plan |
| PushDownWorlds.ChainExact | fdapquery-optimizer/src/projection_push_down_rule.rs:39-110 | filters and limits over one table at the root, several columns of one name allowed: the same result on every database if and only if the scan is asked for nothing, or for all its columns in sorted order with no name twice |
| PushDownPositions.PositionsAgree | fdapquery-optimizer/src/projection_push_down_rule.rs:39-110 | on plans of any shape whose positions all read the same column before and after, the rewrite agrees on every requested column, and under a projection or aggregate is identical |
| PushDownPositions.ReadsByRank | fdapquery-optimizer/src/projection_push_down_rule.rs:91-105 | a position reads its column in the cut and sorted scan exactly when it is the column's rank there |
| PushDownPositions.PositionsExact | fdapquery-optimizer/src/projection_push_down_rule.rs:39-110 | a projection or grouping by position over filters, limits and one table: identical result, in every world that gives it one, if and only if each position is its column's rank in the sorted request |
| PushDownArguments.ArgumentsExact | fdapquery-optimizer/src/projection_push_down_rule.rs:51-69 | keys and arguments each by position or by name over filters, limits and one table: the same result on every database if and only if every position, of keys and of arguments, is its column's rank in the sorted request |
| PushDownArguments.SchemaByPosition | fdapquery-optimizer/src/projection_push_down_rule.rs:91-105 | the schema alone is kept under the same condition |
| PushDownArguments.SwappedByPosition | fdapquery-optimizer/src/projection_push_down_rule.rs:91-105 | selecting both columns of a two-column table by position exchanges them: concrete rows |
| PlannedQuery.EvaluateColumn | fdapquery-physical-expr/src/binary_expression.rs:63-107 | operands' whole columns first, then the operation cell by cell: the column holds what the expression means row by row, and fails exactly when some row does |
| PlannedQuery.Project | fdapquery-physical-plan/src/projection_exec.rs:90-119 | column by column and batch by batch, the expressions' rows over all batches, failing exactly when some row does |
| PlannedQuery.FilterAll | fdapquery-physical-plan/src/filter_exec.rs:80-117 | each column cut by the mask, batch by batch: the selected rows of all batches in order |
| PlannedQuery.LimitAll | fdapquery/src/physical_planner.rs:223-231 | the first rows of all batches; a negative limit is cast to an unsigned number and keeps every row |
| PlannedQuery.ScanAll | fdapquery-catalog/src/in_memory_data_source.rs:85-116 | the named columns of every batch, or all of them, or a schema error for a name that is not there |
| PlannedQuery.RunPlan | fdapquery/src/physical_planner.rs:98-329 | planning and running any nesting of scans, projections, filters, limits and inner or left joins, over any batching of the tables, succeeds exactly when the logical plan has a meaning and no join in it pads a field that is not nullable, and yields exactly its rows, in order |
| PlanLaws.FilterKeepsTheTrue | fdapquery-physical-plan/src/filter_exec.rs:188-211 | a filter keeps, in order, exactly the rows on which its condition is true: not false, not null |
| PlanLaws.ComparisonFilters | fdapquery-physical-expr/src/binary_expression.rs:292-380 | a filter by a comparison of two columns keeps the rows whose first column's number or text compares so to the second's, and none with a null in either |
| PlanLaws.NameReadsItsExpression | fdapquery-expr/src/logical_expr.rs:109-200 | over a projection a name reads the first expression that goes by it: an alias stands for its expression |
| PlanLaws.AggregateColumns | fdapquery-expr/src/logical_expr.rs:178-225 | an aggregate's columns are its keys, under the names they go by, then its calls, under their functions' names |
| PlanLaws.LeftOutIsRepeated | fdapquery-expr/src/join.rs:144-152 | a joined row leaves out the right cells of keys with one name on both sides and no others, and the left row has the same cells under those names |
| PlanLaws.KeyFieldKept | fdapquery-expr/src/join.rs:171-190 | the one field left of such a key is the left side's, or in a right join the right side's |
| PlanTypes.DenoteTyped | fdapquery-expr/src/logical_expr.rs:109-200 | every cell of a plan's meaning is null or of its field's type, if tables, casts, date shifts, operators and aggregates keep to theirs |
| PlanNulls.HeldAllows | fdapquery-expr/src/logical_expr.rs:109-225 | nulls of a plan's meaning stand in nullable fields only, through scans, projections, filters, limits and aggregates, if tables keep to their schemas and no join pads a field that is not nullable |
| Scalars.RowKeyEqIsIdentity | fdapquery-physical-plan/src/row_key.rs:20-69 | key equality is equality of bit patterns and implies equal words fed to the hasher, although cell equality is not reflexive |
| Scalars.CellsUnlikeKeys | fdapquery-physical-plan/src/row_key.rs:34-47 | cells are equal where keys are, but for NaN, which is no cell's equal, and zeros of different sign, which are equal as cells only |
| Scalars.StringLeqIff | fdapquery-physical-expr/src/aggregate_expression.rs:61 | texts are ordered by the first place where they differ, and a text before its continuations |
| KeyHashing.WordsTellKeysApart | fdapquery-physical-plan/src/row_key.rs:30-69 | two keys feed the hasher the same words if and only if they are equal as keys, whatever their lengths and types |
| Accumulators.SumAccumulator.AccumulateValue | fdapquery-physical-expr/src/sum_expression.rs:65-75 | nulls skipped, first value kept, later ones added with wrap-around; the value is unchanged when it fails |
| Accumulators.SumAccumulator.MergePartial | fdapquery-physical-expr/src/sum_expression.rs:81-88 | merging a partial sum is accumulating it |
| Accumulators.CountAccumulator.AccumulateValue | fdapquery-physical-expr/src/count_expression.rs:59-64 | counts what is not null |
| Accumulators.CountAccumulator.MergePartial | fdapquery-physical-expr/src/count_expression.rs:70-78 | adds the partial count, cut to 32 bits |
| Accumulators.MinAccumulator.AccumulateValue | fdapquery-physical-expr/src/min_expression.rs:60-68 | keeps the lesser value, the earlier of equals |
| Accumulators.MinAccumulator.MergePartial | fdapquery-physical-expr/src/min_expression.rs:74-80 | merging a partial minimum is accumulating it |
| Accumulators.MaxAccumulator.AccumulateValue | fdapquery-physical-expr/src/max_expression.rs:60-68 | keeps the greater value, the earlier of equals |
| Accumulators.MaxAccumulator.MergePartial | fdapquery-physical-expr/src/max_expression.rs:74-80 | merging a partial maximum is accumulating it |
| AccumulatorLaws.AddAssociative | fdapquery-physical-expr/src/sum_expression.rs:92-112 | wrapping addition of same-typed integers is associative and never fails halfway |
| AccumulatorLaws.LessIsOrder | fdapquery-physical-expr/src/aggregate_expression.rs:48-79 | on cells other than floats the comparison is a strict total order |
| AccumulatorLaws.CombineAssociative | fdapquery-physical-expr/src/expressions.rs:300-320 | putting states together is associative, failures included |
| AccumulatorLaws.CombineCommutes | fdapquery-physical-expr/src/expressions.rs:300-320 | and commutative |
| AccumulatorLaws.FoldIsTotal | fdapquery-physical-expr/src/expressions.rs:300-320 | accumulating values is totalling their one-value states |
| AccumulatorLaws.FoldPartialsIsTotal | fdapquery-physical-expr/src/expressions.rs:300-320 | merging partial states is totalling them |
| AccumulatorLaws.TotalPermutes | fdapquery-physical-expr/src/expressions.rs:300-320 | a total depends only on which states occur and how often |
| AccumulatorLaws.FoldAppend | fdapquery-physical-expr/src/expressions.rs:300-320 | the fold of a concatenation is its halves' folds put together |
| ReducerMeaning.CountIsCardinality | fdapquery-physical-expr/src/count_expression.rs:59-68 | COUNT is the number of non-null values until it no longer fits |
| ReducerMeaning.PartialCountIsAdded | fdapquery-physical-expr/src/count_expression.rs:70-78 | a partial count is added by its number, cut to 32 bits, until the sum no longer fits; anything that is no whole number is refused |
| ReducerMeaning.SumIsSum | fdapquery-physical-expr/src/sum_expression.rs:65-112 | SUM succeeds if and only if it has at most one non-null value or all are integers of one type; it is then null, the one value, or the integers' sum wrapped into their type |
| ReducerMeaning.MinMaxIsExtreme | fdapquery-physical-expr/src/aggregate_expression.rs:48-79 | MIN and MAX succeed if and only if the non-null values can be compared; the result is null without any, else one of them that no other is below, or above: by the integers, the days, or code points |
| FloatReducers.FloatSum | fdapquery-physical-expr/src/sum_expression.rs:92-112 | a SUM of floats of one width adds them up in input order, nulls left out |
| FloatReducers.FloatExtreme | fdapquery-physical-expr/src/aggregate_expression.rs:48-79 | MIN, or MAX, of floats that are in an order is one of them that no other is below, or above |
| HashAggregate.EvaluateColumns | fdapquery-physical-plan/src/aggregate_exec.rs:222-229 | exactly one column per expression, each row's cells those of the expressions on that row |
| HashAggregate.AddBatch | fdapquery-physical-plan/src/aggregate_exec.rs:219-256 | folds a batch's rows into the table one after the other; the first failing call's error |
| HashAggregate.EmitRows | fdapquery-physical-plan/src/aggregate_exec.rs:265-289 | one row per key, key cells then states, in an arbitrary order of the keys |
| HashAggregate.Execute | fdapquery-physical-plan/src/aggregate_exec.rs:213-293 | fails exactly when the table of the flattened rows does, with its error, else lists that table: batching makes no difference |
| HashAggregate.TableIsGroupBy | fdapquery-physical-plan/src/aggregate_exec.rs:213-293 | the table has one entry per distinct key, each value the fold of that group's inputs in input order, and exists exactly when every group folds |
| AggregateMeaning.TableMeans | fdapquery/src/physical_planner.rs:187-222 | the single-mode table of a planned aggregate exists exactly when the logical aggregate has a meaning, and every listing of it is a permutation of that meaning's rows |
| AggregateMeaning.RunPlannedAggregate | fdapquery/src/physical_planner.rs:187-222 | planning and running an aggregate over any batching of its input succeeds exactly when the logical aggregate has a meaning and yields its rows in some order |
| AggregateMeaning.AggregatesAre | fdapquery/src/physical_planner.rs:338-381 | the logical COUNT, SUM, MIN and MAX of a world that reduces as the operators do are the values' number, wrapped sum, least and greatest |
| TwoPhase.ReadsPartialRowsInPlace | fdapquery-distributed/src/distributed_planner.rs:86-97 | a final query over plain columns reads partial rows if and only if key i is bound to column i and aggregate j to the j-th column after the keys |
| TwoPhase.CallsReduce | fdapquery-physical-plan/src/aggregate_exec.rs:240-255 | the built-in calls behave as their reducers in both phases |
| TwoPhase.GroupMerges | fdapquery-physical-plan/src/aggregate_exec.rs:213-293 | for one group and aggregate, totalling the pieces' states is folding the whole input |
| TwoPhase.PiecesMerge | fdapquery-physical-plan/src/aggregate_exec.rs:213-293 | the same for any final query that reads back just the rows these pieces emitted |
| TwoPhase.TwoPhaseIsSingle | fdapquery-physical-plan/src/aggregate_exec.rs:213-293 | a final query that reads partial rows back gives, for all pieces, emission orders and permutations of the partial rows, the single-mode table, or fails as single mode does |
| TwoPhase.PieceFailureIsFailure | fdapquery-physical-plan/src/aggregate_exec.rs:213-293 | a piece that fails means aggregating the whole fails |
| PlannedStages.ServedMerges | fdapquery-distributed/src/distributed_planner.rs:86-97 | a query whose columns find keys and states where they, or something always equal to them, stand serves both stages on every input |
| PlannedStages.EachColumnApart | fdapquery-distributed/src/distributed_planner.rs:86-97 | a query that serves both stages keeps columns that differ apart: told by one row |
| PlannedStages.OneQueryServesBoth | fdapquery-distributed/src/distributed_planner.rs:86-97 | one query over plain columns gives, in both stages, the single-mode outcome on every input, however cut and shuffled, if and only if each key column is itself a kept key or its own least or greatest value, and each input column its own state, a like state of the same column, or a key whose least or greatest value is taken |
| DistributedAggregate.AggregateBatch | fdapquery-physical-plan/src/aggregate_exec.rs:258-293 | the operator's one output batch lists the table; without output columns it is refused |
| DistributedAggregate.AggregateChunks | fdapquery-physical-plan/src/aggregate_exec.rs:213-293 | the partial stage over chunks, failing only when the whole would |
| DistributedAggregate.AggregateDistributed | fdapquery-distributed/src/distributed_planner.rs:53-103 | for two stages that merge on every input: partial on any chunks, one shuffle over any hash and partition count, read back, final succeeds exactly when single mode on everything does, with the same groups and values |
| DistributedAggregate.AggregatePlanned | fdapquery-distributed/src/distributed_planner.rs:53-103 | the planner's own instance, one query over plain columns for both stages: right on all chunks and shuffles under the condition of PlannedStages.OneQueryServesBoth |
| DistributedQuery.RunPartialTask | fdapquery-physical-plan/src/shuffle_writer_exec.rs:103-155 | the partial operator and the shuffle writer do what the partial task is said to do |
| DistributedQuery.RunFinalTask | fdapquery-physical-plan/src/aggregate_exec.rs:213-293 | the shuffle reader and the final operator do what the final task is said to do |
| DistributedQuery.AggregateOutcome | fdapquery-distributed/src/scheduler.rs:109-225 | whatever executors that run the operators in the plans they are sent answer: with one executor or one task the outcome is the input aggregated as many times over as there are tasks, for one task single-node aggregation; with no task an empty table; with several of both an error unless there is no row |
| DistributedQuery.RunAggregate | fdapquery-distributed/src/scheduler.rs:109-173 | the scheduler itself on an aggregate plan, for any partition count and any executors: the outcome and the one returned batch are those of DistributedQuery.AggregateOutcome |
| PlannedAggregate.PartialReduceCombines | fdapquery-physical-plan/src/aggregate_exec.rs:246-255 | accumulating partial states is merging them exactly when the call is not COUNT, or as many values as states were counted |
| PlannedAggregate.FoldOfCopies | fdapquery-distributed/src/lib.rs:42-48 | the input n times over: COUNT multiplied and overflowing as it may, integer SUM multiplied and wrapped, MIN and MAX the same again if comparable at all |
| PlannedAggregate.CopiesHarmless | fdapquery-distributed/src/lib.rs:42-48 | a value survives n copies if and only if COUNT saw nothing, SUM times n - 1 is a multiple of its type's size, MIN or MAX is comparable, or it failed or saw nothing |
| PlannedAggregate.ThreeTimesMinimum | fdapquery-distributed/src/lib.rs:42-48 | three copies of -128 in eight bits come out unharmed without being zero |
| PlannedAggregate.ModesComeInTwo | fdapquery-physical-plan/src/aggregate_exec.rs:246-255 | final and final-partitioned mode build the same table, and so do all the other modes, failures included |
| PlannedAggregate.EveryTaskRunsTheWholeInput | fdapquery-distributed/src/distributed_planner.rs:53-103 | n tasks over the whole input: the run's outcome, a failing first task included, its whole table when it succeeds, and that it is the single-mode outcome if and only if that fails or every group's values survive n copies; always for n = 1, and for n = 0 only without rows |
| PlannedAggregate.CountedTwice | fdapquery-distributed/src/lib.rs:42-48 | COUNT over one row by two tasks is 2, columns in place: concrete tables of both stages |
| PlannedAggregate.FinalReadsOutOfPlace | fdapquery-distributed/src/distributed_planner.rs:86-97 | a grouped MAX out of place: the final stage exchanges key and maximum: concrete tables |
| PlannedAggregate.PartialReduceMiscounts | fdapquery-physical-plan/src/aggregate_exec.rs:246-255 | a partial count of 2 becomes 1 in partial-reduce and 2 in final mode |
| Batches.CreateBatch | fdapquery-physical-plan/src/hash_join_exec.rs:370-383 | rows as wide as the schema come back unchanged, unless a null stands in a column that allows none; a wider row panics; narrower ones, unless empty, are refused |
| Shuffle.PartitionsConserve | fdapquery-physical-plan/src/shuffle_writer_exec.rs:103-155 | the partitions together hold every input row exactly once |
| Shuffle.PartitionRowsExactly | fdapquery-physical-plan/src/shuffle_writer_exec.rs:161-178 | a partition holds each row as often as the input does if its key hashes there, else never |
| Shuffle.EqualKeysTogether | fdapquery-physical-plan/src/row_key.rs:20-69 | rows with equal keys, floats by bits, land in one partition |
| Shuffle.ShuffleManager.WritePartition | fdapquery-execution/src/shuffle_manager.rs:48-71 | creates or replaces a partition's file, and does nothing for no batches |
| Shuffle.ShuffleManager.ReadPartition | fdapquery-execution/src/shuffle_manager.rs:78-96 | what was stored, or an execution error |
| Shuffle.ComputeTargets | fdapquery-physical-plan/src/shuffle_writer_exec.rs:161-178 | each row's key hash modulo the partition count; no partitions is a panic once there is a row |
| Shuffle.SelectRows | fdapquery-physical-plan/src/shuffle_writer_exec.rs:181-197 | a batch of exactly the taken rows in order |
| Shuffle.WriteShuffle | fdapquery-physical-plan/src/shuffle_writer_exec.rs:103-155 | stores every non-empty partition under its id, touches nothing else, and reports one location per non-empty partition in order |
| Shuffle.ReadShuffle | fdapquery-physical-plan/src/shuffle_reader_exec.rs:85-130 | refuses remote locations before reading anything, fails on a missing file, else concatenates the locations |
| Shuffle.WriteThenRead | fdapquery-physical-plan/src/shuffle_reader_exec.rs:117-130 | reading the reported locations returns exactly the written rows, partition after partition |
| HashJoin.CombineRows | fdapquery-physical-plan/src/hash_join_exec.rs:355-368 | the left row and the right cells that are not excluded |
| HashJoin.LowerKeys | fdapquery-physical-plan/src/hash_join_exec.rs:487-495 | the key columns of both sides, or an error on anything but columns |
| HashJoin.Build | fdapquery-physical-plan/src/hash_join_exec.rs:510-524 | the table holds every right row under its key, in input order, and no empty entry |
| HashJoin.ProbeRow | fdapquery-physical-plan/src/hash_join_exec.rs:533-568 | one left row's matches in right order, padded in a left join that finds none |
| HashJoin.Probe | fdapquery-physical-plan/src/hash_join_exec.rs:526-574 | one output batch per left batch that yields any row |
| HashJoin.FoundFlatten | fdapquery-physical-plan/src/hash_join_exec.rs:527-574 | how the left side is cut into batches makes no difference to the flattened output |
| HashJoin.UnmatchedRight | fdapquery-physical-plan/src/hash_join_exec.rs:576-608 | each unmatched right row once with nulls on the left, for any order of the hash table |
| HashJoin.Execute | fdapquery-physical-plan/src/hash_join_exec.rs:466-615 | inner and left: the nested loop's sequence for any batching; right: its rows then the unmatched ones as a multiset; it succeeds exactly when no null of them stands in a column that allows none; unsupported joins refused; rows of another width than the schema fail |
| HashJoinMeaning.RowsFitTheSchema | fdapquery-expr/src/join.rs:143-184 | a joined row has one cell per field of an inner or left join's schema when same-named keys are excluded |
| HashJoinMeaning.NestedLoopIsJoinRows | fdapquery/src/physical_planner.rs:232-329 | joining by resolved column indices is joining by name |
| HashJoinMeaning.UnmatchedIsUnpaired | fdapquery-physical-plan/src/hash_join_exec.rs:576-608 | the right rows without a match by resolved column indices are those without one by name, padded alike |
| HashJoinMeaning.RunPlannedJoin | fdapquery/src/physical_planner.rs:232-329 | planning and running an inner, left or right join succeeds exactly when the logical join has a meaning and no null of it stands in a field that is not nullable, and yields its rows: in order for inner and left joins, in some order for right joins |
| OuterJoinNulls.PaddingFitsIff | fdapquery-expr/src/join.rs:143-184 | over sides whose nulls stand in nullable fields only, an inner join's do too; a left join's if and only if every left row finds a match or all right fields kept are nullable; a right join's if and only if every right row is matched or all left fields are nullable |
| OuterJoinNulls.OnePaddedRow | fdapquery-datatypes/src/record_batch.rs:45-48 | a left join of two one-row tables without nullable fields that do not match: the padded row does not fit the schema |
| HashJoinMeaning.LaxIsExpected | fdapquery-physical-plan/src/hash_join_exec.rs:527-608 | what the operator produces is the join, of any of the three kinds, under which nulls equal each other |
| HashJoinMeaning.NullEqualityIgnored | fdapquery-physical-plan/src/hash_join_exec.rs:527-574 | an inner or left join is the one in which nulls equal nothing exactly when no left row matches on a null key, but for a left join's single match of nothing but nulls |
| HashJoinMeaning.NullEqualityIgnoredOnTheRight | fdapquery-physical-plan/src/hash_join_exec.rs:576-608 | a right join's rows are the asked-for ones, in some order, exactly when each right row matching on a null key does so once, with an all-null left row |
| HashJoinMeaning.NullsJoin | fdapquery-physical-plan/src/hash_join_exec.rs:527-608 | two rows with null keys: paired by the inner and the right join, which should drop and pad them |
| Scheduler.OnlyReadersChange | fdapquery-distributed/src/distributed_planner.rs:136-162 | substitution reaches every reader and changes nothing but their locations |
| Scheduler.NothingToChange | fdapquery-distributed/src/distributed_planner.rs:136-162 | a plan whose readers hold the locations already is left as it is |
| Scheduler.SortsById | fdapquery-distributed/src/scheduler.rs:116-117 | the stages come out in id order, the same ones, equal ids in their old order |
| Scheduler.Scheduler.ExecuteStage | fdapquery-distributed/src/scheduler.rs:179-207 | the loop's calls and outcome are the specification's: partition by partition, stopping at the first error |
| Scheduler.Scheduler.ExecuteFinalStage | fdapquery-distributed/src/scheduler.rs:210-225 | one final task on the first executor, or an error without executors |
| Scheduler.Scheduler.ExecuteStages | fdapquery-distributed/src/scheduler.rs:119-173 | the stage loop with its location map is the specification's run |
| Scheduler.Scheduler.Execute | fdapquery-distributed/src/scheduler.rs:109-173 | planning, sorting and running, as the specification does |
| PlannedRuns.OtherPlanIsSent | fdapquery-distributed/src/distributed_planner.rs:34-40 | a plan that is no aggregate goes out once, whole and unchanged, to the first executor, whose answer is the outcome |
| PlannedRuns.AggregateIsSent | fdapquery-distributed/src/distributed_planner.rs:53-103 | for every partition count n: task p, to executor p modulo their number, carries a writer of n partitions over the same operator in partial mode with the same children; when none fails the final task carries that operator in final mode over a reader of all that was reported, in order, and its answer is the outcome |
| SchedulerRuns.RoundRobin | fdapquery-distributed/src/scheduler.rs:187-198 | task p of a stage goes to executor p modulo their number |
| SchedulerRuns.CallsToIs | fdapquery-distributed/src/scheduler.rs:187-198 | of a stage's n calls the executor at position e of k gets n / k, and one more if e is below the remainder |
| SchedulerRuns.LoadsBalanced | fdapquery-distributed/src/scheduler.rs:187-198 | so the numbers of a stage's calls that two executors get differ by at most one |
| SchedulerRuns.SucceededAt | fdapquery-distributed/src/scheduler.rs:179-207 | each call made since the start of a run in which all succeed was of an intermediate task and was answered with locations |
| SchedulerRuns.TasksInOrder | fdapquery-distributed/src/scheduler.rs:179-207 | a stage's tasks go out once each in partition order up to the first that fails |
| SchedulerRuns.EveryRunIsAccounted | fdapquery-distributed/src/scheduler.rs:109-225 | well-ordered stages never meet a scheduling error: the calls are the expected ones up to the first failure, after which nothing is dispatched, and the outcome is that failure or the final task's answer |
| SchedulerRuns.FinalReachedIff | fdapquery-distributed/src/scheduler.rs:119-173 | when no task fails, a final task is dispatched if and only if the stages are well ordered |
| SchedulerRuns.PlannedIsWellOrdered | fdapquery-distributed/src/distributed_planner.rs:34-103 | every planned job is sorted and well ordered; an aggregate's calls are one task per partition, then the final one |
| SchedulerRuns.TasksCarryTheirInputs | fdapquery-distributed/src/scheduler.rs:138-152 | in every run each task's plan is its stage's with the readers holding what the dependencies' tasks reported, in order |
| RenderTree.PlacedInside | fdapquery-physical-plan/src/render_tree.rs:199-238 | a subtree is laid out inside its own columns and rows |
| RenderTree.OneCellEach | fdapquery-physical-plan/src/render_tree.rs:199-238 | occupied cells are as many as operators: no two share one |
| RenderTree.RowUsed | fdapquery-physical-plan/src/render_tree.rs:150-170 | the measured height is no more than is used: every row of a layout has an operator |
| RenderTree.ColumnUsed | fdapquery-physical-plan/src/render_tree.rs:150-170 | nor is the width: every column has one |
| RenderTree.ChildrenStandThere | fdapquery-physical-plan/src/render_tree.rs:226-233 | the recorded child positions hold the real children, left to right |
| RenderTree.OwnColumns | fdapquery-physical-plan/src/render_tree.rs:199-238 | what lies below an operator inside its columns belongs to its subtree |
| RenderTree.ParentOf | fdapquery-physical-plan/src/render_tree.rs:226-233 | every operator but the root is at one of its parent's child positions |
| RenderTree.Grid.constructor | fdapquery-physical-plan/src/render_tree.rs:104-110 | an empty grid with storage for every cell |
| RenderTree.Grid.SetNode | fdapquery-physical-plan/src/render_tree.rs:121-126 | writes one slot of the flattened grid, or none when past its end; inside the grid that is its own cell and no other |
| RenderTree.TreeWidthHeight | fdapquery-physical-plan/src/render_tree.rs:150-170 | measures the width and height |
| RenderTree.CreateTreeRecursive | fdapquery-physical-plan/src/render_tree.rs:199-238 | writes the subtree's cells and nothing else, and returns the measured width |
| RenderTree.CreateTree | fdapquery-physical-plan/src/render_tree.rs:94-102 | the grid shows exactly the laid-out tree |
| LineWrap.SplitStringBuffer | fdapquery-physical-plan/src/display.rs:1064-1103 | ends although the cursor moves back; the lines concatenate to the source, none over 27 characters, all but the last at least 8, and words cut only where no other break is left |
| LineWrap.SplitLinesJoin | fdapquery-physical-plan/src/display.rs:993 | joined by newlines the split lines are the text again, one more than it has newlines |
| LineWrap.TrimIsMiddle | fdapquery-physical-plan/src/display.rs:949-951 | trimming cuts whitespace off both ends, all of it and nothing else |
| LineWrap.DetailIsComplete | fdapquery-physical-plan/src/display.rs:966-1007 | the lines of a detail's block run together to the key, a colon and the trimmed value, newlines left out, or to their first and last lines around an ellipsis when there are more than the limit |
| LineWrap.SplitUpExtraInfo | fdapquery-physical-plan/src/display.rs:953-1016 | a separator, then every detail in key order, inlined or not and spaced as the code does, each wrapped losslessly, cut at the limit with an ellipsis; nothing for no details; no line wider than the box |
| LineWrap.AdjustTextCentres | fdapquery-physical-plan/src/display.rs:1021-1036 | text is centred in exactly the box's width, odd space left, or cut with an ellipsis |
| TreeRender.ShouldRenderWhitespace | fdapquery-physical-plan/src/display.rs:1044-1062 | true exactly when the nearest operator at or left of the cell has a child right of it |
| TreeText.PaddedIffMore | fdapquery-physical-plan/src/display.rs:899-943 | an empty cell is padded exactly when something is still to come on its right |
| TreeText.RenderTopLayer | fdapquery-physical-plan/src/display.rs:729-775 | the line reads as one 29-column piece per visible column |
| TreeText.RenderBoxContent | fdapquery-physical-plan/src/display.rs:781-893 | every content line reads as its pieces, one line for names and one per row of details; the details are each operator's own, listed in key order and cut at the limit |
| TreeText.RenderBottomLayer | fdapquery-physical-plan/src/display.rs:899-943 | the line reads as its pieces |
| TreeText.Visit | fdapquery-physical-plan/src/display.rs:709-722 | each level is drawn line by line into the output, every line reading as its pieces, the details those of the operators |
| TreeText.BoxesLineUp | fdapquery-physical-plan/src/display.rs:729-943 | the box at (x, y) starts at text column 29x and ends at 29x + 28 on every line of its level |
| TreeText.ConnectorsMeet | fdapquery-physical-plan/src/display.rs:899-943 | the bottom line has a connector at 29x + 14 exactly when an operator is below, whose box has its junction there |
| TreeText.EdgesAreUnbroken | fdapquery-physical-plan/src/display.rs:826-868 | on the halfway line an unbroken edge runs from a parent's box to its last child, branching at each child |
| TreeText.DrawnBoxes | fdapquery-physical-plan/src/display.rs:709-943 | in what is drawn for a tree, every operator within the maximum width has its box on its own level, drawn in the box characters, with its name on the first line, then its details, centred or cut |
| TreeText.DrawnConnectors | fdapquery-physical-plan/src/display.rs:709-943 | in what is drawn for a tree, a connector leads down at 29x + 14 exactly when an operator stands below, whose box has its junction there |
| TreeText.DrawnEdges | fdapquery-physical-plan/src/display.rs:709-943 | in what is drawn for a tree, on the halfway line an unbroken line runs from an operator to its last child, with a branch above each child passed and a corner above the last |
| TreeText.DrawnDrops | fdapquery-physical-plan/src/display.rs:845-885 | below that line every column under which an operator hangs has a straight line down, on every further line of the level |
| TreeText.DrawnInOrder | fdapquery-physical-plan/src/display.rs:709-722 | the levels follow one another in the output, each its top line, its content and its bottom line |
| Limits.GlobalLimit | fdapquery-physical-plan/src/global_limit_exec.rs:103-138 | over any batching the rows from skip on, at most fetch, or without a fetch all of them for inputs of fewer than 2^64 - 1 rows; an error shows only if reached; only the shortest sufficient prefix is pulled |
| Limits.LocalLimit | fdapquery-physical-plan/src/local_limit_exec.rs:99-119 | the first rows up to fetch, whatever the batching |
| Limits.LocalLimitsAreInvisible | fdapquery-physical-plan/src/local_limit_exec.rs:99-119 | a local limit of skip + n on each partition before an in-order merge changes neither rows nor outcome |
| Selection.Scatter | fdapquery-physical-expr/src/utils.rs:46-93 | the k-th value at the k-th true position, nulls elsewhere; too few values panic; an all-true mask hands the values back |
| Selection.GatherThenScatter | fdapquery-physical-expr/src/utils.rs:46-93 | scattering what was gathered restores the selected values and nulls the rest |
| Selection.EvaluateSelection | fdapquery-physical-expr/src/expressions.rs:102-160 | the branches and shortcuts, as the specification has them |
| Selection.SelectionIsFaithful | fdapquery-physical-expr/src/expressions.rs:102-160 | over a row-wise expression it succeeds exactly when every selected row does, and each selected row has its value, scalar shortcuts included |
| Selection.UnselectedAreNull | fdapquery-physical-expr/src/expressions.rs:102-160 | array results are null at the rows a partial selection drops |
| Selection.TrueScalarIsSelection | fdapquery-physical-expr/src/expressions.rs:135-160 | over a partial selection a true scalar becomes the selection itself: true on the selected rows only, null where the mask is |
| FloatCompare.RoundIsMonotone | fdapquery-physical-expr/src/binary_expression.rs:361-363 | converting integers to doubles never reverses an order |
| FloatCompare.RoundIsExact | fdapquery-physical-expr/src/binary_expression.rs:361-363 | up to 2^53 in magnitude the conversion changes nothing |
| FloatCompare.RoundIsNearest | fdapquery-physical-expr/src/binary_expression.rs:361-363 | the conversion is to the nearest double, ties to the even significand |
| FloatCompare.ComparesRightIff | fdapquery-physical-expr/src/binary_expression.rs:333-363 | all six comparisons agree with integer order if and only if the integers are equal or convert to different doubles |
| FloatCompare.ComparesRightUnless | fdapquery-physical-expr/src/binary_expression.rs:333-363 | the same without converting: right unless the integers have one sign and their magnitudes lie around one double, by their steps and remainders |
| FloatCompare.ComparesRight | fdapquery-physical-expr/src/binary_expression.rs:333-363 | so they do up to 2^53, and for integers more than 1024 apart |
| FloatCompare.OrderIsKept | fdapquery-physical-expr/src/binary_expression.rs:333-363 | a <= b is always reported, and a reported strict order is real |
| FloatCompare.FirstWrongPair | fdapquery-physical-expr/src/binary_expression.rs:333-363 | 2^53 and 2^53 + 1 compare equal |
| BooleanCells.KleeneIsMinMax | fdapquery-physical-expr/src/binary_expression.rs:450-466 | AND is the lesser and OR the greater of false, unknown and true |
| BooleanCells.CellsCompareAsIntegers | fdapquery-physical-expr/src/binary_expression.rs:333-380 | narrower cells compare as integers; 64-bit cells exactly when equal or converted differently |
| BooleanCells.CellSucceedsIff | fdapquery-physical-expr/src/binary_expression.rs:292-344 | a cell succeeds if and only if the operator is AND or OR over truth values or nulls, or one of the six comparisons over cells of one comparable type or nulls |
| BooleanCells.CellIsRight | fdapquery-physical-expr/src/binary_expression.rs:292-380 | and is then the one described under BooleanCells.EvaluateBoolean |
| BooleanCells.EvaluateBoolean | fdapquery-physical-expr/src/binary_expression.rs:292-305 | row by row, the first failing row's error; for AND the lesser and for OR the greater of the operands' truth ranks, null for a null operand of a comparison, else the integers, dates or texts compared as the operator says, each of the six written out |
| ExprDisplay.Fmt | fdapquery-physical-expr/src/binary_expression.rs:147-158 | appends the printed tokens |
| ExprDisplay.WriteChild | fdapquery-physical-expr/src/binary_expression.rs:163-174 | parenthesises a child exactly when it binds less tightly |
| ExprDisplay.PrintDetermines | fdapquery-physical-expr/src/binary_expression.rs:147-174 | trees without ties on the right print the same tokens only if they are equal |
| ExprDisplay.NormalStays | fdapquery-physical-expr/src/binary_expression.rs:147-174 | a tree is its own grouping to the left if and only if it has no tie on the right |
| ExprDisplay.PrintsSameIff | fdapquery-physical-expr/src/binary_expression.rs:147-174 | any two trees print the same exactly when they are equal with ties grouped to the left |
| ExprDisplay.PrintReadsBack | fdapquery-expr/src/operator.rs:147-181 | a printed expression, read back with the operators in their documented binding order, is its left-grouped tree, parentheses included |
| ExprDisplay.MinusIsAmbiguous | fdapquery-physical-expr/src/binary_expression.rs:147-174 | a - (b - c) and (a - b) - c print alike |

## Left out

- HashAggregate.AddBatch: accumulators are held as the scalar they would report, not as objects behind a table.
- HashJoin.Execute: gives the collected output, so batches yielded before a late error are not kept.
- PushDownExact.OptimizeIsExact: with two exposed columns of one name, a plan that keeps its schema may still return other cells on one database, depending on whether the two hold the same ones; only the other direction is stated for joins of such tables.
- PushDownArguments.ArgumentsExact: filters compare or combine something that can be planned, and limits are not zero, since under a filter that lets nothing through no position matters.
- PushDownPositions.PositionsExact: positions inside larger expressions, in filters or over joins have the sufficient condition of PositionsAgree only.
- AggregateMeaning.RunPlannedAggregate: no AVG, and expressions that evaluate on every row.
- PlannedStages.OneQueryServesBoth: keys and inputs are plain columns; of larger expressions only the sufficient condition, reading every partial row back, is stated.
- DistributedAggregate.AggregateBatch: every field of its output is taken to be nullable; PlanNulls.HeldAllows shows that planned ones are wherever a null may come.
- DistributedQuery.RunAggregate: executors have distinct ids, and each task of a stage that shares an executor leaves what it wrote in that executor's store.
- PlannedQuery.RunPlan: batches are collected, so an error in rows that a limit never asks for still fails the query, where the engine's streams would not reach them; aggregates and right joins, whose order is undetermined, are run by AggregateMeaning.RunPlannedAggregate and HashJoinMeaning.RunPlannedJoin instead.
- PlanTypes.DenoteTyped: arithmetic is taken to keep its left operand's type, as the schema says; between different numeric types the kernels give doubles.
- Accumulators.CountAccumulator.AccumulateValue: an overflowing count panics, as in a build with overflow checks; a build without them wraps.
- Accumulators.CountAccumulator.MergePartial: likewise for the merged count.
- Shuffle.ComputeTargets: the partition count is not negative.
- TreeText.Visit: an operator's display text is given as parsed details; the parsing is not modelled.
- Selection.Scatter: a null slot of a mask has no value of its own, as in masks built from optional booleans.
- Text is ASCII where it is measured or sliced; the order of strings is by code point.
- Float arithmetic and float comparison are unknown operations; aggregates over floats, NaN in MIN and MAX, and AVG are outside the two-phase theorems.
- The meaning of a right join on two keys of one name: its schema and its physical rows use different layouts.
- Evaluation errors of physical expressions inside the aggregate, the join and the shuffle, and values of a type other than their builder's.
- Join filters, projections and null awareness, which the operator does not read; FILTER and ORDER BY inside aggregates; grouping sets.
- Remote shuffle reads, several tasks of a stage sharing one executor's directory, cleaning up shuffle files, file and network errors.
- Async polling, spill, metrics, serialisation, CSV and Parquet, the SQL front end, casts, date and unary math.
