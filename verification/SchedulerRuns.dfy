/** What every run of the scheduler looks like, whatever the executors answer. */
module SchedulerRuns {
  import opened Arithmetic
  import opened Results
  import opened Sequences
  import opened Batches
  import opened Shuffle
  import opened Scheduler
  import opened SchedulerCalls

  // ---------------------------------------------------------------- calls

  lemma CallsPush(log: Log, d: Dispatch)
    ensures Calls(log + [d]) == Calls(log) + [CallOf(d)]
  {
    assert (log + [d])[..|log|] == log;
  }

  lemma {:induction false} RoundRobin(executors: seq<Executor>, id: int, n: nat, p: nat)
    requires executors != [] && p < n
    ensures StageCalls(executors, id, n)[p] == Call(executors[p % |executors|], id, p, false)
  {
    if p < n - 1 {
      RoundRobin(executors, id, n - 1, p);
    }
  }

  // How many of the calls go to one executor.
  function CallsTo(calls: seq<Call>, executor: Executor): nat {
    if calls == [] then 0
    else CallsTo(calls[..|calls| - 1], executor) + if calls[|calls| - 1].executor == executor then 1 else 0
  }

  predicate ListedOnce(executors: seq<Executor>, e: nat) {
    e < |executors| && forall i :: 0 <= i < |executors| && executors[i] == executors[e] ==> i == e
  }

  // How many of n partitions fall to position e of k.
  function Share(k: nat, n: nat, e: nat): nat
    requires k > 0
  {
    n / k + if e < n % k then 1 else 0
  }

  lemma NothingShared(k: nat, e: nat)
    requires k > 0
    ensures Share(k, 0, e) == 0
  {
    DivUnique(0, k, 0, 0);
  }

  lemma ShareNext(k: nat, n: nat, e: nat)
    requires e < k
    ensures Share(k, n + 1, e) == Share(k, n, e) + if n % k == e then 1 else 0
  {
    DivNext(n, k);
  }

  /** The executor at position e gets a stage's partitions e, e + k, e + 2k and so on. */
  lemma {:induction false} CallsToIs(executors: seq<Executor>, id: int, n: nat, e: nat)
    requires ListedOnce(executors, e)
    ensures CallsTo(StageCalls(executors, id, n), executors[e]) == Share(|executors|, n, e)
  {
    if n == 0 {
      NothingShared(|executors|, e);
    } else {
      hide Share, StageCalls, CallsTo;
      CallsToIs(executors, id, n - 1, e);
      ShareNext(|executors|, n - 1, e);
      OneMoreCall(executors, id, n, e);
    }
  }

  lemma OneMoreCall(executors: seq<Executor>, id: int, n: nat, e: nat)
    requires ListedOnce(executors, e) && n > 0
    ensures CallsTo(StageCalls(executors, id, n), executors[e])
            == CallsTo(StageCalls(executors, id, n - 1), executors[e]) + if (n - 1) % |executors| == e then 1 else 0
  {
    var calls, last := StageCalls(executors, id, n), (n - 1) % |executors|;
    assert calls[..n - 1] == StageCalls(executors, id, n - 1);
    assert calls[n - 1].executor == executors[last];
  }

  /** Round robin is fair: however many partitions a stage has, the numbers of its calls
      that two executors get differ by at most one. */
  lemma LoadsBalanced(executors: seq<Executor>, id: int, n: nat, a: nat, b: nat)
    requires ListedOnce(executors, a) && ListedOnce(executors, b)
    ensures var calls := StageCalls(executors, id, n);
            -1 <= CallsTo(calls, executors[a]) - CallsTo(calls, executors[b]) <= 1
  {
    CallsToIs(executors, id, n, a);
    CallsToIs(executors, id, n, b);
  }

  // ---------------------------------------------------------------- one stage

  // What a success of all calls since the start means for each: an intermediate task,
  // answered with locations.
  lemma {:induction false} SucceededAt(c: Client, log: Log, start: nat, i: nat)
    requires AllSucceeded(c, log, start) && start <= i < |log|
    ensures !log[i].isFinal && c.execute(log[..i], log[i].executor, log[i].task).Ok?
  {
    if i < |log| - 1 {
      SucceededAt(c, log[..|log| - 1], start, i);
      assert log[..|log| - 1][..i] == log[..i];
    }
  }

  lemma NoTasksInOrder(c: Client, executors: seq<Executor>, id: int, log: Log)
    requires executors != []
    ensures InPartitionOrder(c, executors, id, log, Run(log, Ok([])))
  {
  }

  /** One stage: its tasks go out in partition order, once each, up to the first that
      fails. */
  lemma {:induction false} TasksInOrder(
    c: Client, executors: seq<Executor>, job: string, stage: QueryStage, log: Log, n: nat)
    requires executors != []
    ensures var run := RunTasks(c, executors, job, stage, log, n);
            && InPartitionOrder(c, executors, stage.id, log, run)
            && |log| <= |run.log| <= |log| + n
            && (run.outcome.Ok? ==> |run.log| == |log| + n)
  {
    if n == 0 {
      NoTasksInOrder(c, executors, stage.id, log);
    } else {
      TasksInOrder(c, executors, job, stage, log, n - 1);
      var before := RunTasks(c, executors, job, stage, log, n - 1);
      if before.outcome.Ok? {
        var d := Dispatch(executors[(n - 1) % |executors|], TaskOf(job, stage, n - 1), false);
        TaskAdded(c, executors, stage.id, log, before, d);
      }
    }
  }

  lemma TaskAdded(c: Client, executors: seq<Executor>, id: int, start: Log, before: Run<Locations>, d: Dispatch)
    requires executors != [] && before.outcome.Ok? && |start| <= |before.log|
    requires InPartitionOrder(c, executors, id, start, before)
    requires var p := |before.log| - |start|;
             !d.isFinal && CallOf(d) == Call(executors[p % |executors|], id, p, false)
    ensures InPartitionOrder(c, executors, id, start, After(c, before, d))
  {
    var log, p := before.log, |before.log| - |start|;
    assert (log + [d])[..|log|] == log;
    CallsPush(log, d);
    Associative(Calls(start), StageCalls(executors, id, p), [CallOf(d)]);
  }

  // ---------------------------------------------------------------- all stages

  /** Every run is ordered and complete. With executors, and stages whose dependencies ran
      before and of which one is final, no scheduling error occurs: the calls are exactly
      the expected ones up to the first failing task, after which nothing is dispatched;
      the outcome is that failure or the final task's answer. */
  lemma {:induction false} EveryRunIsAccounted(
    c: Client, executors: seq<Executor>, job: string, stages: seq<QueryStage>, done: Done, log: Log)
    requires executors != [] && WellOrdered(stages, done.Keys)
    ensures Accounted(c, ExpectedCalls(executors, stages), log, RunStages(c, executors, job, stages, done, log))
    decreases stages
  {
    hide Inputs, RunTasks, Accounted, InPartitionOrder, SubstituteReaders;
    var stage := Updated(stages[0], Inputs(stages[0].dependencies, done));
    var run := RunStages(c, executors, job, stages, done, log);
    if stage.isFinal {
      FinalAccounted(c, executors, job, stage, log);
      assert run == RunFinal(c, executors, job, stage, log);
    } else {
      var tasks := RunTasks(c, executors, job, stage, log, TaskCount(stages[0]));
      TasksInOrder(c, executors, job, stage, log, TaskCount(stages[0]));
      var next := done[stage.id := if tasks.outcome.Ok? then tasks.outcome.value else []];
      if tasks.outcome.Ok? {
        assert next.Keys == done.Keys + {stages[0].id};
        EveryRunIsAccounted(c, executors, job, stages[1..], next, tasks.log);
      }
      StageThenRest(c, executors, stages, log, tasks, RunStages(c, executors, job, stages[1..], next, tasks.log), run);
    }
  }

  lemma StageThenRest(c: Client, executors: seq<Executor>, stages: seq<QueryStage>, log: Log,
                      tasks: Run<Locations>, rest: Run<seq<RecordBatch>>, run: Run<seq<RecordBatch>>)
    requires executors != [] && stages != [] && !stages[0].isFinal
    requires InPartitionOrder(c, executors, stages[0].id, log, tasks)
    requires |log| <= |tasks.log| <= |log| + TaskCount(stages[0])
    requires tasks.outcome.Ok? ==>
               && |tasks.log| == |log| + TaskCount(stages[0])
               && Accounted(c, ExpectedCalls(executors, stages[1..]), tasks.log, rest)
    requires run == if tasks.outcome.Err? then Run(tasks.log, Err(tasks.outcome.error)) else rest
    ensures Accounted(c, ExpectedCalls(executors, stages), log, run)
  {
    var id, n, expected := stages[0].id, TaskCount(stages[0]), ExpectedCalls(executors, stages[1..]);
    if tasks.outcome.Ok? {
      StagePassed(c, executors, id, n, expected, log, tasks, rest);
    } else {
      StageFailed(c, executors, id, n, expected, log, tasks);
    }
  }

  lemma FinalAccounted(c: Client, executors: seq<Executor>, job: string, stage: QueryStage, log: Log)
    requires executors != []
    ensures Accounted(c, [Call(executors[0], stage.id, 0, true)], log, RunFinal(c, executors, job, stage, log))
  {
    var d := Dispatch(executors[0], TaskOf(job, stage, 0), true);
    assert (log + [d])[..|log|] == log;
    CallsPush(log, d);
  }

  lemma {:induction false} StageCallsPrefix(executors: seq<Executor>, id: int, m: nat, n: nat)
    requires executors != [] && m <= n
    ensures StageCalls(executors, id, m) <= StageCalls(executors, id, n)
  {
    if m < n {
      StageCallsPrefix(executors, id, m, n - 1);
    }
  }

  lemma PrefixGrows<T>(a: seq<T>, b: seq<T>, c: seq<T>, d: seq<T>)
    requires b <= c
    ensures a + b <= a + (c + d)
  {
  }

  lemma StageFailed(c: Client, executors: seq<Executor>, id: int, n: nat, rest: seq<Call>, log: Log,
                    tasks: Run<Locations>)
    requires executors != [] && tasks.outcome.Err?
    requires |tasks.log| <= |log| + n && InPartitionOrder(c, executors, id, log, tasks)
    ensures Accounted(c, StageCalls(executors, id, n) + rest, log, Run(tasks.log, Err(tasks.outcome.error)))
  {
    var m := |tasks.log| - |log|;
    StageCallsPrefix(executors, id, m, n);
    PrefixGrows(Calls(log), StageCalls(executors, id, m), StageCalls(executors, id, n), rest);
  }

  lemma {:induction false} SucceededJoin(c: Client, start: nat, middle: Log, after: Log)
    requires middle <= after && AllSucceeded(c, middle, start) && AllSucceeded(c, after, |middle|)
    ensures AllSucceeded(c, after, start)
    decreases |after|
  {
    if |middle| < |after| {
      SucceededJoin(c, start, middle, after[..|after| - 1]);
    } else {
      assert middle == after;
    }
  }

  lemma StagePassed(c: Client, executors: seq<Executor>, id: int, n: nat, rest: seq<Call>, log: Log,
                    tasks: Run<Locations>, run: Run<seq<RecordBatch>>)
    requires executors != [] && tasks.outcome.Ok?
    requires |tasks.log| == |log| + n && InPartitionOrder(c, executors, id, log, tasks)
    requires Accounted(c, rest, tasks.log, run)
    ensures Accounted(c, StageCalls(executors, id, n) + rest, log, run)
  {
    SucceededJoin(c, |log|, tasks.log, run.log[..|run.log| - 1]);
    Associative(Calls(log), StageCalls(executors, id, n), rest);
  }

  // ---------------------------------------------------------------- when runs can finish

  ghost predicate AlwaysAnswers(c: Client) {
    forall log: Log, e: Executor, t: Task :: c.execute(log, e, t).Ok?
  }

  lemma {:induction false} TasksAnswered(
    c: Client, executors: seq<Executor>, job: string, stage: QueryStage, log: Log, n: nat)
    requires executors != [] && AlwaysAnswers(c)
    ensures RunTasks(c, executors, job, stage, log, n).outcome.Ok?
  {
    if n > 0 {
      TasksAnswered(c, executors, job, stage, log, n - 1);
      var before := RunTasks(c, executors, job, stage, log, n - 1);
      assert c.execute(before.log, executors[(n - 1) % |executors|], TaskOf(job, stage, n - 1)).Ok?;
    }
  }

  lemma {:induction false} NoFinalYet(c: Client, log: Log)
    requires AllSucceeded(c, log, 0)
    ensures forall d :: d in log ==> !d.isFinal
  {
    if log != [] {
      NoFinalYet(c, log[..|log| - 1]);
      assert log == log[..|log| - 1] + [log[|log| - 1]];
    }
  }

  /** The condition is exact: when no intermediate task fails, a final task is dispatched
      if and only if the stages are well ordered. */
  lemma {:induction false} FinalReachedIff(
    c: Client, executors: seq<Executor>, job: string, stages: seq<QueryStage>, done: Done, log: Log)
    requires executors != [] && AlwaysAnswers(c)
    requires AllSucceeded(c, log, 0)
    ensures var run := RunStages(c, executors, job, stages, done, log);
            (exists d :: d in run.log && d.isFinal) <==> WellOrdered(stages, done.Keys)
    decreases stages
  {
    NoFinalYet(c, log);
    if stages != [] && DependenciesDone(stages[0], done) {
      var stage := Updated(stages[0], Inputs(stages[0].dependencies, done));
      if stage.isFinal {
        var run := RunFinal(c, executors, job, stage, log);
        assert run.log[|log|] in run.log;
      } else {
        var tasks := RunTasks(c, executors, job, stage, log, TaskCount(stage));
        TasksAnswered(c, executors, job, stage, log, TaskCount(stage));
        TasksInOrder(c, executors, job, stage, log, TaskCount(stage));
        SucceededJoin(c, 0, log, tasks.log);
        var next := done[stage.id := tasks.outcome.value];
        assert next.Keys == done.Keys + {stages[0].id};
        FinalReachedIff(c, executors, job, stages[1..], next, tasks.log);
      }
    }
  }

  /** Any plan the planner cuts runs to its end: its stages come sorted and well ordered.
      An aggregate's calls are one task per partition, then the final one. */
  lemma PlannedIsWellOrdered(plan: Plan, job: string, partitionCount: int, executors: seq<Executor>)
    requires executors != []
    ensures var stages := PlanStages(plan, job, partitionCount);
            && SortById(stages) == stages && WellOrdered(stages, {})
            && ExpectedCalls(executors, stages) ==
               if plan.Node? && plan.operator.AggregateOp? then
                 StageCalls(executors, 0, if partitionCount < 0 then 0 else partitionCount)
                 + [Call(executors[0], 1, 0, true)]
               else [Call(executors[0], 0, 0, true)]
  {
    var stages := PlanStages(plan, job, partitionCount);
    SortedAlready(stages);
    if |stages| == 2 {
      assert stages[1..] == [stages[1]];
      assert WellOrdered([stages[1]], {0});
    }
  }

  lemma LastInOrder(stages: seq<QueryStage>)
    requires InIdOrder(stages) && stages != []
    ensures InIdOrder(stages[..|stages| - 1])
    ensures InsertById(stages[|stages| - 1], stages[..|stages| - 1]) == stages
  {
    var front, last := stages[..|stages| - 1], stages[|stages| - 1];
    assert front != [] ==> front[|front| - 1] == stages[|stages| - 2];
    assert InsertById(last, front) == front + [last];
  }

  lemma {:induction false} SortedAlready(stages: seq<QueryStage>)
    requires InIdOrder(stages)
    ensures SortById(stages) == stages
  {
    if stages != [] {
      hide InIdOrder, InsertById;
      LastInOrder(stages);
      SortedAlready(stages[..|stages| - 1]);
    }
  }

  // ---------------------------------------------------------------- what readers get

  // What the tasks of one stage have reported, in order.
  function Reported(c: Client, log: Log, id: int): Locations {
    if log == [] then []
    else
      var front, d := log[..|log| - 1], log[|log| - 1];
      Reported(c, front, id) +
      if d.isFinal || d.task.stage != id then []
      else match c.execute(front, d.executor, d.task)
        case Ok(locations) => locations
        case Err(_) => []
  }

  function ReportedByAll(c: Client, log: Log, ids: seq<int>): Locations {
    if ids == [] then [] else ReportedByAll(c, log, ids[..|ids| - 1]) + Reported(c, log, ids[|ids| - 1])
  }

  ghost predicate Recorded(c: Client, log: Log, done: Done) {
    forall id :: id in done ==> done[id] == Reported(c, log, id)
  }

  ghost predicate NotStarted(log: Log, id: int) {
    forall d :: d in log ==> d.task.stage != id
  }

  predicate DistinctIds(stages: seq<QueryStage>) {
    forall i, j :: 0 <= i < j < |stages| ==> stages[i].id != stages[j].id
  }

  // The task belongs to one of the stages and carries its plan with every reader holding
  // what the dependencies' tasks had reported by then.
  ghost predicate CarriesInputs(c: Client, stages: seq<QueryStage>, before: Log, d: Dispatch) {
    exists i :: 0 <= i < |stages| && stages[i].id == d.task.stage
      && d.task.plan == Updated(stages[i], ReportedByAll(c, before, stages[i].dependencies)).plan
  }

  lemma {:induction false} ReportedNothing(c: Client, log: Log, id: int)
    requires NotStarted(log, id)
    ensures Reported(c, log, id) == []
  {
    if log != [] {
      assert log[|log| - 1] in log;
      ReportedNothing(c, log[..|log| - 1], id);
    }
  }

  lemma {:induction false} InputsAreReported(c: Client, log: Log, done: Done, ids: seq<int>)
    requires Recorded(c, log, done) && forall id :: id in ids ==> id in done
    ensures Inputs(ids, done) == ReportedByAll(c, log, ids)
  {
    if ids != [] {
      assert ids[|ids| - 1] in ids;
      InputsAreReported(c, log, done, ids[..|ids| - 1]);
    }
  }

  // A stage's tasks report under its own id only, and all carry its plan.
  ghost predicate Reports(c: Client, stage: QueryStage, start: Log, run: Run<Locations>, id: int) {
    && start <= run.log
    && (forall i :: |start| <= i < |run.log| ==>
          run.log[i].task.stage == stage.id && run.log[i].task.plan == stage.plan)
    && (id != stage.id ==> Reported(c, run.log, id) == Reported(c, start, id))
    && (run.outcome.Ok? ==> Reported(c, run.log, stage.id) == Reported(c, start, stage.id) + run.outcome.value)
  }

  lemma {:induction false} TasksReport(
    c: Client, executors: seq<Executor>, job: string, stage: QueryStage, log: Log, n: nat, id: int)
    requires executors != []
    ensures Reports(c, stage, log, RunTasks(c, executors, job, stage, log, n), id)
  {
    if n > 0 {
      TasksReport(c, executors, job, stage, log, n - 1, id);
      var before := RunTasks(c, executors, job, stage, log, n - 1);
      if before.outcome.Ok? {
        var d := Dispatch(executors[(n - 1) % |executors|], TaskOf(job, stage, n - 1), false);
        TaskReports(c, stage, log, before, d, id);
      }
    }
  }

  lemma TaskReports(c: Client, stage: QueryStage, start: Log, before: Run<Locations>, d: Dispatch, id: int)
    requires before.outcome.Ok? && Reports(c, stage, start, before, id)
    requires !d.isFinal && d.task.stage == stage.id && d.task.plan == stage.plan
    ensures Reports(c, stage, start, After(c, before, d), id)
  {
    ReportedPush(c, before.log, d, id);
    ReportedPush(c, before.log, d, stage.id);
    Associative(Reported(c, start, stage.id), before.outcome.value,
                if c.execute(before.log, d.executor, d.task).Ok? then c.execute(before.log, d.executor, d.task).value
                else []);
  }

  lemma ReportedPush(c: Client, log: Log, d: Dispatch, id: int)
    requires !d.isFinal
    ensures var answer := c.execute(log, d.executor, d.task);
            Reported(c, log + [d], id) == Reported(c, log, id)
            + if d.task.stage == id && answer.Ok? then answer.value else []
  {
    assert (log + [d])[..|log|] == log;
  }

  // Every dispatch from `start` on carries its inputs as they were when it was made.
  ghost predicate AllCarry(c: Client, stages: seq<QueryStage>, log: Log, start: nat) {
    forall i :: start <= i < |log| ==> CarriesInputs(c, stages, log[..i], log[i])
  }

  // Stages yet to run: ids all different, none dispatched, dependencies done or to come.
  ghost predicate Pending(c: Client, stages: seq<QueryStage>, done: Done, log: Log) {
    && DistinctIds(stages) && Recorded(c, log, done)
    && forall i :: 0 <= i < |stages| ==> NotStarted(log, stages[i].id) && stages[i].id !in done
  }

  // Later tasks of a stage see the same reports of its dependencies.
  lemma StageCarries(c: Client, executors: seq<Executor>, job: string, stage: QueryStage, inputs: Locations,
                     log: Log, n: nat, i: nat)
    requires executors != [] && stage.id !in stage.dependencies && inputs == ReportedByAll(c, log, stage.dependencies)
    requires var run := RunTasks(c, executors, job, Updated(stage, inputs), log, n); |log| <= i < |run.log|
    ensures var run := RunTasks(c, executors, job, Updated(stage, inputs), log, n);
            CarriesInputs(c, [stage], run.log[..i], run.log[i])
  {
    var updated := Updated(stage, inputs);
    var run := RunTasks(c, executors, job, updated, log, n);
    TasksReport(c, executors, job, updated, log, n, stage.id);
    SameReports(c, stage.id, log, run.log[..i], stage.dependencies);
    assert [stage][0].id == run.log[i].task.stage;
  }

  // Dispatches of one stage add nothing to what the others reported.
  lemma {:induction false} OneReportStays(c: Client, own: int, log: Log, longer: Log, id: int)
    requires log <= longer && id != own && forall i :: |log| <= i < |longer| ==> longer[i].task.stage == own
    ensures Reported(c, longer, id) == Reported(c, log, id)
    decreases |longer|
  {
    if |log| < |longer| {
      OneReportStays(c, own, log, longer[..|longer| - 1], id);
    } else {
      assert longer == log;
    }
  }

  lemma {:induction false} SameReports(c: Client, own: int, log: Log, longer: Log, ids: seq<int>)
    requires log <= longer && own !in ids && forall i :: |log| <= i < |longer| ==> longer[i].task.stage == own
    ensures ReportedByAll(c, longer, ids) == ReportedByAll(c, log, ids)
  {
    if ids != [] {
      assert ids[|ids| - 1] in ids;
      OneReportStays(c, own, log, longer, ids[|ids| - 1]);
      SameReports(c, own, log, longer, ids[..|ids| - 1]);
    }
  }

  lemma CarriesMore(c: Client, stages: seq<QueryStage>, before: Log, d: Dispatch)
    requires stages != [] && CarriesInputs(c, stages[1..], before, d)
    ensures CarriesInputs(c, stages, before, d)
  {
    var rest := stages[1..];
    var i :| 0 <= i < |rest| && rest[i].id == d.task.stage
             && d.task.plan == Updated(rest[i], ReportedByAll(c, before, rest[i].dependencies)).plan;
    assert stages[i + 1] == rest[i];
  }

  lemma CarriesFirst(c: Client, stages: seq<QueryStage>, before: Log, d: Dispatch)
    requires stages != [] && CarriesInputs(c, [stages[0]], before, d)
    ensures CarriesInputs(c, stages, before, d)
  {
    assert [stages[0]][0] == stages[0];
  }

  // Once a stage is through, the others are still pending and its reports are recorded.
  lemma StillPending(c: Client, stages: seq<QueryStage>, done: Done, log: Log, updated: QueryStage,
                     tasks: Run<Locations>)
    requires stages != [] && Pending(c, stages, done, log) && updated.id == stages[0].id && tasks.outcome.Ok?
    requires forall id :: Reports(c, updated, log, tasks, id)
    ensures Pending(c, stages[1..], done[updated.id := tasks.outcome.value], tasks.log)
  {
    var own, next := updated.id, done[updated.id := tasks.outcome.value];
    assert NotStarted(log, stages[0].id);
    ReportedNothing(c, log, own);
    assert Reports(c, updated, log, tasks, own);
    forall id | id in next ensures next[id] == Reported(c, tasks.log, id) {
      assert Reports(c, updated, log, tasks, id);
    }
    forall i | 0 <= i < |stages[1..]| ensures NotStarted(tasks.log, stages[1..][i].id) && stages[1..][i].id !in next {
      assert stages[1..][i] == stages[i + 1];
      assert NotStarted(log, stages[i + 1].id);
      forall d | d in tasks.log ensures d.task.stage != stages[i + 1].id {
        var k :| 0 <= k < |tasks.log| && tasks.log[k] == d;
        if k < |log| {
          assert d == log[k];
        }
      }
    }
  }

  /** Readers get what their dependencies produced: in every run over stages with distinct
      ids, each task's plan is its stage's plan with the readers holding, dependency after
      dependency, the locations the dependency's tasks reported, in task order. */
  lemma {:induction false} TasksCarryTheirInputs(
    c: Client, executors: seq<Executor>, job: string, stages: seq<QueryStage>, done: Done, log: Log)
    requires executors != [] && Pending(c, stages, done, log)
    ensures log <= RunStages(c, executors, job, stages, done, log).log
    ensures AllCarry(c, stages, RunStages(c, executors, job, stages, done, log).log, |log|)
    decreases stages
  {
    if stages != [] && DependenciesDone(stages[0], done) {
      hide Inputs, SubstituteReaders, ReportedByAll, Reported;
      var inputs := Inputs(stages[0].dependencies, done);
      var stage := Updated(stages[0], inputs);
      InputsAreReported(c, log, done, stages[0].dependencies);
      if stage.isFinal {
        FinalCarries(c, executors, job, stages, stage, log);
      } else {
        var n := TaskCount(stage);
        var tasks := RunTasks(c, executors, job, stage, log, n);
        forall id ensures Reports(c, stage, log, tasks, id) {
          TasksReport(c, executors, job, stage, log, n, id);
        }
        assert Reports(c, stage, log, tasks, stage.id);
        StageAllCarry(c, executors, job, stages, inputs, log, n);
        if tasks.outcome.Ok? {
          var next := done[stage.id := tasks.outcome.value];
          StillPending(c, stages, done, log, stage, tasks);
          TasksCarryTheirInputs(c, executors, job, stages[1..], next, tasks.log);
          CarryJoin(c, stages, log, tasks.log, RunStages(c, executors, job, stages[1..], next, tasks.log).log);
        }
      }
    }
  }

  lemma FinalCarries(c: Client, executors: seq<Executor>, job: string, stages: seq<QueryStage>, stage: QueryStage,
                     log: Log)
    requires executors != [] && stages != []
    requires stage == Updated(stages[0], ReportedByAll(c, log, stages[0].dependencies))
    ensures AllCarry(c, stages, RunFinal(c, executors, job, stage, log).log, |log|)
  {
    var d := Dispatch(executors[0], TaskOf(job, stage, 0), true);
    assert (log + [d])[..|log|] == log;
    assert stages[0].id == d.task.stage;
  }

  lemma StageAllCarry(c: Client, executors: seq<Executor>, job: string, stages: seq<QueryStage>, inputs: Locations,
                      log: Log, n: nat)
    requires executors != [] && stages != [] && stages[0].id !in stages[0].dependencies
    requires inputs == ReportedByAll(c, log, stages[0].dependencies)
    ensures AllCarry(c, stages, RunTasks(c, executors, job, Updated(stages[0], inputs), log, n).log, |log|)
  {
    var run := RunTasks(c, executors, job, Updated(stages[0], inputs), log, n);
    forall i | |log| <= i < |run.log| ensures CarriesInputs(c, stages, run.log[..i], run.log[i]) {
      StageCarries(c, executors, job, stages[0], inputs, log, n, i);
      CarriesFirst(c, stages, run.log[..i], run.log[i]);
    }
  }

  lemma CarryJoin(c: Client, stages: seq<QueryStage>, log: Log, middle: Log, after: Log)
    requires stages != [] && log <= middle <= after
    requires AllCarry(c, stages, middle, |log|) && AllCarry(c, stages[1..], after, |middle|)
    ensures AllCarry(c, stages, after, |log|)
  {
    forall i | |log| <= i < |after| ensures CarriesInputs(c, stages, after[..i], after[i]) {
      if i < |middle| {
        assert after[..i] == middle[..i] && after[i] == middle[i];
      } else {
        CarriesMore(c, stages, after[..i], after[i]);
      }
    }
  }
}
