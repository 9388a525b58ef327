/** The scheduler over executors that run the operators. An aggregate planned for one
    partition comes back as the single-node aggregation; for several partitions on one
    executor, as the aggregation of the input that many times over; and on several
    executors it fails as soon as there is a row. */
module DistributedQuery {
  import opened Results
  import opened Scalars
  import opened Sequences
  import opened Accumulators
  import opened AccumulatorLaws
  import opened HashAggregate
  import opened TwoPhase
  import opened PlannedAggregate
  import opened DistributedAggregate
  import opened Batches
  import opened Shuffle
  import opened Scheduler
  import opened SchedulerCalls
  import opened SchedulerRuns
  import opened PlannedRuns

  // What an aggregate over one input comes to: its query, the rows its input yields and how
  // the shuffle spreads its groups.
  datatype Job = Job(query: Query, input: seq<seq<Row>>, partitioning: Partitioning)

  // What the executors share: the hash function, and what a plan below an aggregate yields.
  datatype Cluster = Cluster(hash: Hasher, rowsOf: Plan -> seq<seq<Row>>)

  predicate IsAggregate(plan: Plan) {
    plan.Node? && plan.operator.AggregateOp? && |plan.children| == 1
  }

  // Groups are spread by the query's own key expressions.
  function JobOf(cluster: Cluster, plan: Plan, count: nat): Job
    requires IsAggregate(plan)
  {
    var q := plan.operator.query;
    Job(q, cluster.rowsOf(plan.children[0]), Partitioning(cluster.hash, q.group, count))
  }

  // ---------------------------------------------------------------- what an executor does

  ghost predicate Writes(job: Job, w: Writer, emitted: seq<Row>, locations: Locations, store: Store) {
    var parts := PartitionsOf(job.partitioning, emitted);
    locations == w.LocationsFor(parts) && w.Stored(parts, store)
  }

  // A task of the partial stage: its answer, and the store it leaves.
  ghost predicate PartialTask(job: Job, w: Writer, answer: Result<Locations>, store: Store) {
    var table := BuildTable(job.query, Partial, Flatten(job.input));
    && (answer.Ok? <==> table.Ok?)
    && (answer.Ok? ==> exists order, emitted ::
          Lists(order, table.value, emitted) && Writes(job, w, emitted, answer.value, store))
  }

  ghost predicate Readable(executor: Executor, locations: Locations, store: Store) {
    && (forall l :: l in locations ==> l.executor == executor && l.id in store)
    && AllValid(BatchesAt(store, locations))
  }

  // Some location is another executor's.
  ghost predicate Remote(executor: Executor, locations: Locations) {
    exists l :: l in locations && l.executor.id != executor.id
  }

  ghost predicate IsListing(t: Table, batches: seq<RecordBatch>) {
    |batches| == 1 && Valid(batches[0]) && exists order :: Lists(order, t, Rows(batches[0]))
  }

  // The task of the final stage, reading back what its executor has stored; it cannot read
  // what another one has.
  ghost predicate FinalTask(q: Query, executor: Executor, locations: Locations, store: Store,
                            answer: Result<seq<RecordBatch>>)
  {
    && (Remote(executor, locations) ==> answer == Err(NotImplemented))
    && (Readable(executor, locations, store) ==>
          var table := BuildTable(q, Final, AllRows(BatchesAt(store, locations)));
          && (answer.Ok? <==> table.Ok?)
          && (answer.Ok? ==> IsListing(table.value, answer.value)))
  }

  // The operators do what the tasks say.
  method RunPartialTask(job: Job, w: Writer, manager: ShuffleManager) returns (answer: Result<Locations>)
    requires Width(job.query) > 0 && job.partitioning.count > 0
    modifies manager
    ensures PartialTask(job, w, answer, manager.store)
  {
    var b, order := AggregateBatch(job.query, Partial, job.input);
    if b.Err? {
      return Err(b.error);
    }
    answer := WriteShuffle(job.partitioning, [b.value], w, manager);
    assert [b.value][..0] == [];
    assert AllRows([b.value]) == Rows(b.value);
    assert Writes(job, w, Rows(b.value), answer.value, manager.store);
  }

  method RunFinalTask(q: Query, executor: Executor, locations: Locations, manager: ShuffleManager)
    returns (answer: Result<seq<RecordBatch>>)
    requires Width(q) > 0
    requires forall l :: l in locations && l.id in manager.store ==> AllValid(manager.store[l.id])
    ensures FinalTask(q, executor, locations, manager.store, answer)
  {
    var read := ReadShuffle(manager, executor.id, locations);
    if read.Err? {
      return Err(read.error);
    }
    StoredValid(manager.store, locations);
    BatchRowsFlatten(read.value);
    var b, order := AggregateBatch(q, Final, BatchRows(read.value));
    if b.Err? {
      return Err(b.error);
    }
    return Ok([b.value]);
  }

  lemma {:induction false} StoredValid(store: Store, locations: Locations)
    requires forall l :: l in locations ==> l.id in store && AllValid(store[l.id])
    ensures AllValid(BatchesAt(store, locations))
  {
    if locations != [] {
      assert locations[|locations| - 1] in locations;
      StoredValid(store, locations[..|locations| - 1]);
    }
  }

  // ---------------------------------------------------------------- the client

  predicate IsPartialTask(t: Task) {
    && t.plan.Node? && t.plan.operator.WriterOp? && t.plan.operator.count > 0 && |t.plan.children| == 1
    && IsAggregate(t.plan.children[0]) && t.plan.children[0].operator.mode == Partial
    && Width(t.plan.children[0].operator.query) > 0
  }

  predicate IsFinalTask(t: Task) {
    && IsAggregate(t.plan) && t.plan.operator.mode == Final && t.plan.children[0].Reader?
    && Width(t.plan.operator.query) > 0
  }

  // What each executor has stored after some calls.
  type Stores = (Log, Executor) -> Store

  // The client's executors run the operators of the plans they are sent.
  ghost predicate RunsOperators(cluster: Cluster, c: Client, stores: Stores) {
    && (forall log: Log, e: Executor, t: Task :: IsPartialTask(t) ==>
          PartialTask(JobOf(cluster, t.plan.children[0], t.plan.operator.count), Writer(t.job, t.stage, e),
                      c.execute(log, e, t), stores(log + [Dispatch(e, t, false)], e)))
    && (forall log: Log, e: Executor, t: Task :: IsFinalTask(t) ==>
          FinalTask(t.plan.operator.query, e, t.plan.children[0].locations, stores(log, e), c.executeFinal(log, e, t)))
  }

  // ---------------------------------------------------------------- what the tasks write

  // Whatever order its groups come out in, an executor reports the same partitions.
  lemma {:induction false} LocationsAlike(w: Writer, a: seq<seq<Row>>, b: seq<seq<Row>>)
    requires |a| == |b| && forall p :: 0 <= p < |a| ==> (a[p] == [] <==> b[p] == [])
    ensures w.LocationsFor(a) == w.LocationsFor(b)
  {
    if a != [] {
      var last := |a| - 1;
      assert a[..last] == [] || |a[..last]| > 0;
      LocationsAlike(w, a[..last], b[..last]);
    }
  }

  lemma PartitionsAlike(pt: Partitioning, a: seq<Row>, b: seq<Row>, p: nat)
    requires pt.count > 0 && multiset(a) == multiset(b)
    ensures multiset(PartitionRows(pt, a, p)) == multiset(PartitionRows(pt, b, p))
    ensures PartitionRows(pt, a, p) == [] <==> PartitionRows(pt, b, p) == []
  {
    forall row ensures multiset(PartitionRows(pt, a, p))[row] == multiset(PartitionRows(pt, b, p))[row] {
      PartitionRowsExactly(pt, a, p, row);
      PartitionRowsExactly(pt, b, p, row);
    }
    assert |multiset(PartitionRows(pt, a, p))| == |PartitionRows(pt, a, p)|;
    assert |multiset(PartitionRows(pt, b, p))| == |PartitionRows(pt, b, p)|;
  }

  lemma ReportsAlike(pt: Partitioning, w: Writer, a: seq<Row>, b: seq<Row>)
    requires pt.count > 0 && multiset(a) == multiset(b)
    ensures w.LocationsFor(PartitionsOf(pt, a)) == w.LocationsFor(PartitionsOf(pt, b))
  {
    forall p | 0 <= p < pt.count ensures PartitionsOf(pt, a)[p] == [] <==> PartitionsOf(pt, b)[p] == [] {
      PartitionsAlike(pt, a, b, p);
    }
    LocationsAlike(w, PartitionsOf(pt, a), PartitionsOf(pt, b));
  }

  // A location is reported once some partition holds a row.
  lemma {:induction false} SomethingReported(w: Writer, parts: seq<seq<Row>>)
    ensures w.LocationsFor(parts) == [] <==> Flatten(parts) == []
    ensures forall l :: l in w.LocationsFor(parts) ==> l.executor == w.executor
  {
    if parts != [] {
      var front, last := parts[..|parts| - 1], parts[|parts| - 1];
      SomethingReported(w, front);
      FlattenPush(front, last);
      assert parts == front + [last];
    }
  }

  // ---------------------------------------------------------------- reading one report n times

  lemma BatchesAtPush(store: Store, locations: Locations, l: ShuffleLocation)
    requires l.id in store && forall k :: k in locations ==> k.id in store
    ensures BatchesAt(store, locations + [l]) == BatchesAt(store, locations) + store[l.id]
  {
    assert (locations + [l])[..|locations|] == locations;
  }

  lemma {:induction false} BatchesAtAppend(store: Store, a: Locations, b: Locations)
    requires forall l :: l in a || l in b ==> l.id in store
    ensures forall l :: l in a + b ==> l.id in store
    ensures BatchesAt(store, a + b) == BatchesAt(store, a) + BatchesAt(store, b)
  {
    if b == [] {
      assert a + b == a;
    } else {
      hide BatchesAt;
      var front, last := b[..|b| - 1], b[|b| - 1];
      assert a + b == (a + front) + [last] && b == front + [last] && last in b;
      BatchesAtAppend(store, a, front);
      BatchesAtPush(store, a + front, last);
      BatchesAtPush(store, front, last);
      Associative(BatchesAt(store, a), BatchesAt(store, front), store[last.id]);
    }
  }

  lemma {:induction false} ReadsCopies(store: Store, e: Executor, locations: Locations, rows: seq<Row>, n: nat)
    requires Shuffle.ReadsBack(store, e, locations, rows)
    ensures Shuffle.ReadsBack(store, e, Copies(locations, n), Copies(rows, n))
  {
    if n > 0 {
      ReadsCopies(store, e, locations, rows, n - 1);
      BatchesAtAppend(store, Copies(locations, n - 1), locations);
      AllRowsAppend(BatchesAt(store, Copies(locations, n - 1)), BatchesAt(store, locations));
    }
  }

  lemma {:induction false} CopiesPermute(a: seq<Row>, b: seq<Row>, n: nat)
    requires multiset(a) == multiset(b)
    ensures multiset(Copies(a, n)) == multiset(Copies(b, n))
  {
    if n > 0 {
      CopiesPermute(a, b, n - 1);
    }
  }

  lemma {:induction false} PiecesEmit(p: Piece, n: nat)
    ensures var pieces := Copies([p], n);
            && |pieces| == n && (forall i :: 0 <= i < n ==> pieces[i] == p)
            && PartialRows(pieces) == Copies(p.emitted, n)
  {
    if n > 0 {
      PiecesEmit(p, n - 1);
      assert Copies([p], n)[..n - 1] == Copies([p], n - 1);
    }
  }

  // n reports of one emission read back as n pieces of it.
  lemma ReadBackAsPieces(q: Query, rs: seq<Reducer>, rows: seq<Row>, n: nat, p: Piece, shuffled: seq<Row>)
    requires n >= 1 && AlwaysMerges(q, q, rs) && ExactRows(q, rs, rows) && IsPiece(q, p) && p.rows == rows
    requires multiset(shuffled) == multiset(Copies(p.emitted, n))
    ensures IsNTimesOver(q, rs, rows, n, BuildTable(q, Final, shuffled))
  {
    hide AlwaysMerges, ExactRows, IsNTimesOver, IsPiece, BuildTable;
    var pieces := Copies([p], n);
    PiecesEmit(p, n);
    assert ArePieces(q, rs, pieces) && Shuffled(pieces, shuffled);
    assert BuildTable(q, Partial, rows).Ok? by {
      assert IsPiece(q, p);
      PieceIsOk(q, p);
    }
    EveryTaskRunsTheWholeInput(q, q, rs, rows, n, pieces, shuffled);
  }

  lemma PieceIsOk(q: Query, p: Piece)
    requires IsPiece(q, p)
    ensures BuildTable(q, Partial, p.rows).Ok?
  {
  }

  // ---------------------------------------------------------------- the run

  predicate DistinctExecutors(executors: seq<Executor>) {
    forall i, j :: 0 <= i < j < |executors| ==> executors[i].id != executors[j].id
  }

  // What some partial tasks report, when each spreads the same groups.
  function AllReports(executors: seq<Executor>, name: string, parts: seq<seq<Row>>, n: nat): Locations
    requires executors != []
  {
    if n == 0 then []
    else
      AllReports(executors, name, parts, n - 1)
      + Writer(name, 0, executors[(n - 1) % |executors|]).LocationsFor(parts)
  }

  lemma TaskAnswers(cluster: Cluster, c: Client, stores: Stores, plan: Plan, name: string, n: nat, log: Log,
                    e: Executor, p: nat)
    requires n >= 1 && IsAggregate(plan) && Width(plan.operator.query) > 0 && RunsOperators(cluster, c, stores)
    ensures var t := PartialTaskAt(plan, name, n, p);
            PartialTask(JobOf(cluster, plan, n), Writer(name, 0, e), c.execute(log, e, t),
                        stores(log + [Dispatch(e, t, false)], e))
  {
    hide PartialTask, FinalTask;
    var t := PartialTaskAt(plan, name, n, p);
    assert IsPartialTask(t);
    assert JobOf(cluster, t.plan.children[0], n) == JobOf(cluster, plan, n);
  }

  // Any listing of the table gives what a task reports.
  lemma ReportIs(job: Job, w: Writer, answer: Result<Locations>, store: Store, order: seq<Row>, emitted: seq<Row>)
    requires job.partitioning.count > 0 && PartialTask(job, w, answer, store)
    requires BuildTable(job.query, Partial, Flatten(job.input)).Ok?
    requires Lists(order, BuildTable(job.query, Partial, Flatten(job.input)).value, emitted)
    ensures answer == Ok(w.LocationsFor(PartitionsOf(job.partitioning, emitted)))
  {
    hide Lists, BuildTable;
    var table := BuildTable(job.query, Partial, Flatten(job.input)).value;
    var first, rows :| Lists(first, table, rows) && Writes(job, w, rows, answer.value, store);
    ListingsPermute(table, first, rows, order, emitted);
    ReportsAlike(job.partitioning, w, rows, emitted);
  }

  // A listing of what every partial task emits.
  ghost predicate Emits(job: Job, order: seq<Row>, emitted: seq<Row>) {
    var table := BuildTable(job.query, Partial, Flatten(job.input));
    job.partitioning.count > 0 && table.Ok? && Lists(order, table.value, emitted)
  }

  lemma OneAnswer(cluster: Cluster, c: Client, stores: Stores, plan: Plan, name: string, n: nat, log: Log,
                  e: Executor, p: nat, order: seq<Row>, emitted: seq<Row>)
    requires n >= 1 && IsAggregate(plan) && Width(plan.operator.query) > 0 && RunsOperators(cluster, c, stores)
    requires Emits(JobOf(cluster, plan, n), order, emitted)
    ensures c.execute(log, e, PartialTaskAt(plan, name, n, p))
            == Ok(Writer(name, 0, e).LocationsFor(PartitionsOf(JobOf(cluster, plan, n).partitioning, emitted)))
  {
    hide RunsOperators, BuildTable, Lists, PartialTask;
    var t := PartialTaskAt(plan, name, n, p);
    TaskAnswers(cluster, c, stores, plan, name, n, log, e, p);
    ReportIs(JobOf(cluster, plan, n), Writer(name, 0, e), c.execute(log, e, t),
             stores(log + [Dispatch(e, t, false)], e), order, emitted);
  }

  lemma {:induction false} AnswersAre(
    cluster: Cluster, c: Client, stores: Stores, executors: seq<Executor>, plan: Plan, name: string, n: nat, log: Log,
    partials: Log, order: seq<Row>, emitted: seq<Row>)
    requires n >= 1 && executors != [] && IsAggregate(plan) && Width(plan.operator.query) > 0
    requires RunsOperators(cluster, c, stores) && PartialsSent(executors, plan, name, n, log, partials)
    requires Emits(JobOf(cluster, plan, n), order, emitted)
    ensures Answers(c, partials, |log|)
            == AllReports(executors, name, PartitionsOf(JobOf(cluster, plan, n).partitioning, emitted),
                          |partials| - |log|)
    ensures forall e :: !LastFailed(c, partials, |log|, e)
    decreases |partials|
  {
    hide RunsOperators, Emits, PartialTaskAt, PartitionsOf, Writer.LocationsFor;
    if |log| < |partials| {
      var front, d, p := partials[..|partials| - 1], partials[|partials| - 1], |partials| - 1 - |log|;
      assert PartialsSent(executors, plan, name, n, log, front);
      AnswersAre(cluster, c, stores, executors, plan, name, n, log, front, order, emitted);
      assert partials[|log| + p] == d;
      OneAnswer(cluster, c, stores, plan, name, n, front, d.executor, p, order, emitted);
    }
  }

  // With one executor, or one task, the same report n times.
  lemma {:induction false} OneReporter(executors: seq<Executor>, name: string, parts: seq<seq<Row>>, n: nat)
    requires executors != [] && (|executors| == 1 || n <= 1)
    ensures AllReports(executors, name, parts, n) == Copies(Writer(name, 0, executors[0]).LocationsFor(parts), n)
  {
    if n > 0 {
      OneReporter(executors, name, parts, n - 1);
      assert (n - 1) % |executors| == 0 by {
        if |executors| == 1 {
        } else {
          assert n == 1;
        }
      }
    }
  }

  lemma ReportsPush(executors: seq<Executor>, name: string, parts: seq<seq<Row>>, n: nat)
    requires executors != [] && n >= 1
    ensures AllReports(executors, name, parts, n)
            == AllReports(executors, name, parts, n - 1)
               + Writer(name, 0, executors[(n - 1) % |executors|]).LocationsFor(parts)
    ensures AllReports(executors, name, parts, 0) == []
  {
  }

  // The first two tasks are two executors'.
  lemma TwoReports(executors: seq<Executor>, name: string, parts: seq<seq<Row>>)
    requires |executors| >= 2
    ensures AllReports(executors, name, parts, 2)
            == Writer(name, 0, executors[0]).LocationsFor(parts) + Writer(name, 0, executors[1]).LocationsFor(parts)
  {
    hide Writer.LocationsFor, AllReports;
    SmallRemainders(|executors|);
    ReportsPush(executors, name, parts, 2);
    ReportsPush(executors, name, parts, 1);
  }

  lemma SmallRemainders(k: nat)
    requires k >= 2
    ensures 0 % k == 0 && 1 % k == 1
  {
  }

  // With two, the second task's report is another executor's.
  lemma {:induction false} TwoReporters(executors: seq<Executor>, name: string, parts: seq<seq<Row>>, n: nat)
    requires |executors| >= 2 && DistinctExecutors(executors) && n >= 2
    ensures if Flatten(parts) == [] then AllReports(executors, name, parts, n) == []
            else Remote(executors[0], AllReports(executors, name, parts, n))
  {
    hide Writer.LocationsFor, AllReports, Flatten;
    if n > 2 {
      TwoReporters(executors, name, parts, n - 1);
      ReportsPush(executors, name, parts, n);
      SomethingReported(Writer(name, 0, executors[(n - 1) % |executors|]), parts);
      if Flatten(parts) != [] {
        var l :| l in AllReports(executors, name, parts, n - 1) && l.executor.id != executors[0].id;
        assert l in AllReports(executors, name, parts, n);
      }
    } else {
      TwoReports(executors, name, parts);
      SomethingReported(Writer(name, 0, executors[0]), parts);
      SomethingReported(Writer(name, 0, executors[1]), parts);
      if Flatten(parts) != [] {
        var l := Writer(name, 0, executors[1]).LocationsFor(parts)[0];
        assert l in AllReports(executors, name, parts, 2);
      }
    }
  }

  // ---------------------------------------------------------------- the outcome

  // The aggregation of the rows as many times over as there are tasks, on one executor; on
  // several, nothing but the aggregation of no rows.
  ghost predicate PlannedOutcome(q: Query, rs: seq<Reducer>, rows: seq<Row>, tasks: nat, executors: nat,
                                 outcome: Result<Table>)
    requires |q.calls| == |rs|
  {
    if tasks == 0 then outcome == Ok(map[])
    else if tasks == 1 || executors == 1 then IsNTimesOver(q, rs, rows, tasks, outcome)
    else (outcome.Ok? <==> rows == []) && (outcome.Ok? ==> outcome.value == map[])
  }

  ghost predicate Yields(answer: Result<seq<RecordBatch>>, outcome: Result<Table>) {
    (answer.Ok? <==> outcome.Ok?) && (answer.Ok? ==> IsListing(outcome.value, answer.value))
  }

  lemma NothingStored(q: Query, e: Executor, store: Store, answer: Result<seq<RecordBatch>>)
    requires FinalTask(q, e, [], store, answer)
    ensures Yields(answer, Ok(map[]))
  {
    assert BatchesAt(store, []) == [] && AllRows([]) == [];
    assert Readable(e, [], store);
    assert BuildTable(q, Final, []) == Ok(map[]);
  }

  // The last partial task's store, read n times over.
  lemma FinalOfCopies(job: Job, rs: seq<Reducer>, w: Writer, n: nat, answer: Result<Locations>, store: Store,
                      locations: Locations, outcome: Result<seq<RecordBatch>>)
    returns (table: Result<Table>)
    requires n >= 1 && AlwaysMerges(job.query, job.query, rs) && ExactRows(job.query, rs, Flatten(job.input))
    requires job.partitioning.count > 0 && answer.Ok? && PartialTask(job, w, answer, store)
    requires locations == Copies(answer.value, n) && FinalTask(job.query, w.executor, locations, store, outcome)
    ensures Yields(outcome, table) && IsNTimesOver(job.query, rs, Flatten(job.input), n, table)
  {
    hide BuildTable, Lists, AlwaysMerges, ExactRows, IsNTimesOver, PartitionsOf;
    var q, rows := job.query, Flatten(job.input);
    var order, emitted :| Lists(order, BuildTable(q, Partial, rows).value, emitted)
                          && Writes(job, w, emitted, answer.value, store);
    var parts := PartitionsOf(job.partitioning, emitted);
    ReadsWhatWasWritten(store, w, parts);
    ReadsCopies(store, w.executor, answer.value, Flatten(parts), n);
    PartitionsConserve(job.partitioning, emitted);
    CopiesPermute(Flatten(parts), emitted, n);
    var shuffled := AllRows(BatchesAt(store, locations));
    assert Readable(w.executor, locations, store);
    var p := Piece(rows, BuildTable(q, Partial, rows).value, order, emitted);
    assert IsPiece(q, p);
    ReadBackAsPieces(q, rs, rows, n, p, shuffled);
    table := BuildTable(q, Final, shuffled);
  }

  // All that a run over some plan needs.
  ghost predicate Setting(cluster: Cluster, rs: seq<Reducer>, c: Client, stores: Stores, executors: seq<Executor>,
                          plan: Plan)
  {
    && executors != [] && DistinctExecutors(executors)
    && IsAggregate(plan) && Width(plan.operator.query) > 0 && RunsOperators(cluster, c, stores)
    && AlwaysMerges(plan.operator.query, plan.operator.query, rs)
    && ExactRows(plan.operator.query, rs, RowsOf(cluster, plan))
  }

  function RowsOf(cluster: Cluster, plan: Plan): seq<Row>
    requires IsAggregate(plan)
  {
    Flatten(cluster.rowsOf(plan.children[0]))
  }

  // Every partial task succeeded, all on one executor.
  lemma AfterLocalPartials(
    cluster: Cluster, rs: seq<Reducer>, c: Client, stores: Stores, executors: seq<Executor>, plan: Plan, name: string,
    n: nat, log: Log, partials: Log, order: seq<Row>, emitted: seq<Row>, answer: Result<seq<RecordBatch>>)
    returns (outcome: Result<Table>)
    requires n >= 1 && (n == 1 || |executors| == 1) && Setting(cluster, rs, c, stores, executors, plan)
    requires PartialsSent(executors, plan, name, n, log, partials) && |partials| == |log| + n
    requires Emits(JobOf(cluster, plan, n), order, emitted)
    requires FinalTask(plan.operator.query, executors[0], Answers(c, partials, |log|), stores(partials, executors[0]),
                       answer)
    ensures Yields(answer, outcome) && IsNTimesOver(plan.operator.query, rs, RowsOf(cluster, plan), n, outcome)
  {
    hide RunsOperators, BuildTable, AlwaysMerges, ExactRows, FinalTask, PartialTask, Yields, IsNTimesOver, Emits;
    hide PartialTaskAt, PartitionsOf, AllReports;
    var job, e := JobOf(cluster, plan, n), executors[0];
    var front, t := partials[..|partials| - 1], PartialTaskAt(plan, name, n, n - 1);
    AnswersAre(cluster, c, stores, executors, plan, name, n, log, partials, order, emitted);
    OneReporter(executors, name, PartitionsOf(job.partitioning, emitted), n);
    LastSent(executors, plan, name, n, log, partials);
    OneAnswer(cluster, c, stores, plan, name, n, front, e, n - 1, order, emitted);
    TaskAnswers(cluster, c, stores, plan, name, n, front, e, n - 1);
    outcome := FinalOfCopies(job, rs, Writer(name, 0, e), n, c.execute(front, e, t), stores(partials, e),
                             Answers(c, partials, |log|), answer);
  }

  lemma LastSent(executors: seq<Executor>, plan: Plan, name: string, n: nat, log: Log, partials: Log)
    requires executors != [] && IsAggregatePlan(plan) && n >= 1 && (n == 1 || |executors| == 1)
    requires PartialsSent(executors, plan, name, n, log, partials) && |partials| == |log| + n
    ensures partials == partials[..|partials| - 1]
                        + [Dispatch(executors[0], PartialTaskAt(plan, name, n, n - 1), false)]
  {
    hide PartialTaskAt;
    assert (n - 1) % |executors| == 0;
    assert partials[|log| + (n - 1)] == Dispatch(executors[0], PartialTaskAt(plan, name, n, n - 1), false);
  }

  // Every partial task succeeded.
  lemma AfterThePartials(
    cluster: Cluster, rs: seq<Reducer>, c: Client, stores: Stores, executors: seq<Executor>, plan: Plan, name: string,
    n: nat, log: Log, partials: Log, answer: Result<seq<RecordBatch>>)
    returns (outcome: Result<Table>)
    requires n >= 1 && Setting(cluster, rs, c, stores, executors, plan)
    requires PartialsSent(executors, plan, name, n, log, partials) && |partials| == |log| + n
    requires BuildTable(plan.operator.query, Partial, RowsOf(cluster, plan)).Ok?
    requires FinalTask(plan.operator.query, executors[0], Answers(c, partials, |log|), stores(partials, executors[0]),
                       answer)
    ensures Yields(answer, outcome)
    ensures PlannedOutcome(plan.operator.query, rs, RowsOf(cluster, plan), n, |executors|, outcome)
  {
    hide RunsOperators, BuildTable, AlwaysMerges, ExactRows, FinalTask, PartialTask, Yields, IsNTimesOver, Emits;
    hide PartialsSent, PartialTaskAt, PartitionsOf, AllReports;
    var q, rows, job, e := plan.operator.query, RowsOf(cluster, plan), JobOf(cluster, plan, n), executors[0];
    var order, emitted := Emission(cluster, c, stores, plan, name, n, log, e);
    if n == 1 || |executors| == 1 {
      outcome := AfterLocalPartials(cluster, rs, c, stores, executors, plan, name, n, log, partials, order, emitted,
                                    answer);
    } else {
      AnswersAre(cluster, c, stores, executors, plan, name, n, log, partials, order, emitted);
      TwoReporters(executors, name, PartitionsOf(job.partitioning, emitted), n);
      EmitsNothing(job, order, emitted);
      outcome := if rows == [] then Ok(map[]) else Err(NotImplemented);
      FinalRefuses(q, e, Answers(c, partials, |log|), stores(partials, e), answer, outcome);
    }
  }

  lemma Emission(cluster: Cluster, c: Client, stores: Stores, plan: Plan, name: string, n: nat, log: Log, e: Executor)
    returns (order: seq<Row>, emitted: seq<Row>)
    requires n >= 1 && IsAggregate(plan) && Width(plan.operator.query) > 0 && RunsOperators(cluster, c, stores)
    requires BuildTable(plan.operator.query, Partial, RowsOf(cluster, plan)).Ok?
    ensures Emits(JobOf(cluster, plan, n), order, emitted)
  {
    hide RunsOperators, BuildTable, Lists;
    TaskAnswers(cluster, c, stores, plan, name, n, log, e, 0);
    var job, w := JobOf(cluster, plan, n), Writer(name, 0, e);
    var t := PartialTaskAt(plan, name, n, 0);
    order, emitted :| Lists(order, BuildTable(job.query, Partial, Flatten(job.input)).value, emitted)
                      && Writes(job, w, emitted, c.execute(log, e, t).value, stores(log + [Dispatch(e, t, false)], e));
  }

  // Some group comes out exactly when there is a row.
  lemma EmitsNothing(job: Job, order: seq<Row>, emitted: seq<Row>)
    requires Emits(job, order, emitted)
    ensures Flatten(PartitionsOf(job.partitioning, emitted)) == [] <==> Flatten(job.input) == []
  {
    var rows, table := Flatten(job.input), BuildTable(job.query, Partial, Flatten(job.input)).value;
    PartitionsConserve(job.partitioning, emitted);
    assert |multiset(Flatten(PartitionsOf(job.partitioning, emitted)))| == |multiset(emitted)|;
    assert order != [] ==> order[0] in order;
    if rows != [] {
      TableIsGroupBy(job.query, Partial, rows);
      assert KeyOf(job.query, rows[|rows| - 1]) in table;
      assert KeyOf(job.query, rows[|rows| - 1]) in order;
    }
  }

  lemma FinalRefuses(q: Query, e: Executor, locations: Locations, store: Store, answer: Result<seq<RecordBatch>>,
                     outcome: Result<Table>)
    requires FinalTask(q, e, locations, store, answer)
    requires if locations == [] then outcome == Ok(map[]) else Remote(e, locations) && outcome.Err?
    ensures Yields(answer, outcome)
  {
    hide BuildTable;
    if locations == [] {
      NothingStored(q, e, store, answer);
    }
  }

  /** The whole run. On one executor it comes to the aggregation of the input as many times
      over as there are tasks, so with one task to the single-node aggregation. On several
      executors the final task meets another executor's partition, which it cannot read:
      the run fails unless there is no row at all. */
  lemma AggregateOutcome(
    cluster: Cluster, rs: seq<Reducer>, c: Client, stores: Stores, executors: seq<Executor>, plan: Plan, name: string,
    count: int, log: Log)
    returns (outcome: Result<Table>)
    requires Setting(cluster, rs, c, stores, executors, plan)
    ensures Yields(RunStages(c, executors, name, SortById(PlanStages(plan, name, count)), map[], log).outcome, outcome)
    ensures PlannedOutcome(plan.operator.query, rs, RowsOf(cluster, plan), TasksFor(count), |executors|, outcome)
  {
    hide RunStages, SortById, PlanStages, BuildTable, AlwaysMerges, ExactRows, PartialTask, FinalTask, IsNTimesOver;
    var q, rows, n, e := plan.operator.query, RowsOf(cluster, plan), TasksFor(count), executors[0];
    var run := RunStages(c, executors, name, SortById(PlanStages(plan, name, count)), map[], log);
    var partials := AggregateIsSent(c, executors, plan, name, count, log);
    var last := FinalTaskOf(plan, name, Answers(c, partials, |log|));
    assert IsFinalTask(last);
    if n == 0 {
      outcome := Ok(map[]);
      assert partials == log;
      NothingStored(q, e, stores(log, e), c.executeFinal(log, e, last));
    } else if BuildTable(q, Partial, rows).Ok? {
      var order, emitted := Emission(cluster, c, stores, plan, name, n, log, e);
      AnswersAre(cluster, c, stores, executors, plan, name, n, log, partials, order, emitted);
      outcome := AfterThePartials(cluster, rs, c, stores, executors, plan, name, n, log, partials,
                                  c.executeFinal(partials, e, last));
    } else {
      outcome := BuildTable(q, Partial, rows);
      FirstTaskFails(cluster, c, stores, executors, plan, name, n, log, partials);
      EveryTaskRunsTheWholeInput(q, q, rs, rows, n, [], []);
      assert rows != [] by {
        if rows == [] {
          NoRowsNoError(q);
        }
      }
    }
  }

  lemma NoRowsNoError(q: Query)
    ensures BuildTable(q, Partial, []).Ok?
  {
  }

  lemma FirstTaskFails(cluster: Cluster, c: Client, stores: Stores, executors: seq<Executor>, plan: Plan, name: string,
                       n: nat, log: Log, partials: Log)
    requires n >= 1 && executors != [] && IsAggregate(plan) && Width(plan.operator.query) > 0
    requires RunsOperators(cluster, c, stores) && PartialsSent(executors, plan, name, n, log, partials)
    requires BuildTable(plan.operator.query, Partial, RowsOf(cluster, plan)).Err?
    ensures |partials| == |log| + n ==> !AllSucceeded(c, partials, |log|)
  {
    hide RunsOperators, BuildTable, PartialTaskAt, PartialTask, JobOf, RowsOf, AllSucceeded, PartialsSent;
    if |partials| == |log| + n && AllSucceeded(c, partials, |log|) {
      var front, d := partials[..|partials| - 1], partials[|partials| - 1];
      LastAnswered(c, partials, |log|);
      LastTask(executors, plan, name, n, log, partials);
      OneFails(cluster, c, stores, plan, name, n, front, d.executor, n - 1);
    }
  }

  lemma LastTask(executors: seq<Executor>, plan: Plan, name: string, n: nat, log: Log, partials: Log)
    requires executors != [] && IsAggregatePlan(plan) && n >= 1
    requires PartialsSent(executors, plan, name, n, log, partials) && |partials| == |log| + n
    ensures partials[|partials| - 1].task == PartialTaskAt(plan, name, n, n - 1)
  {
    hide PartialTaskAt;
    assert partials[|log| + (n - 1)] == partials[|partials| - 1];
  }

  lemma LastAnswered(c: Client, log: Log, start: nat)
    requires start < |log| && AllSucceeded(c, log, start)
    ensures c.execute(log[..|log| - 1], log[|log| - 1].executor, log[|log| - 1].task).Ok?
  {
  }

  lemma OneFails(cluster: Cluster, c: Client, stores: Stores, plan: Plan, name: string, n: nat, log: Log, e: Executor,
                 p: nat)
    requires n >= 1 && IsAggregate(plan) && Width(plan.operator.query) > 0 && RunsOperators(cluster, c, stores)
    requires BuildTable(plan.operator.query, Partial, RowsOf(cluster, plan)).Err?
    ensures c.execute(log, e, PartialTaskAt(plan, name, n, p)).Err?
  {
    hide RunsOperators, BuildTable, PartialTaskAt;
    TaskAnswers(cluster, c, stores, plan, name, n, log, e, p);
  }

  /** An aggregate run by the scheduler, with executors that run the plans they are sent. */
  method RunAggregate(scheduler: Scheduler, cluster: Cluster, plan: Plan, name: string, count: int,
                      ghost rs: seq<Reducer>, ghost stores: Stores)
    returns (r: Result<seq<RecordBatch>>, ghost outcome: Result<Table>)
    requires Setting(cluster, rs, scheduler.client, stores, scheduler.executors, plan)
    modifies scheduler
    ensures Yields(r, outcome)
    ensures PlannedOutcome(plan.operator.query, rs, RowsOf(cluster, plan), TasksFor(count), |scheduler.executors|,
                           outcome)
  {
    outcome := AggregateOutcome(cluster, rs, scheduler.client, stores, scheduler.executors, plan, name, count,
                                scheduler.log);
    r := scheduler.Execute(plan, name, count);
  }
}
