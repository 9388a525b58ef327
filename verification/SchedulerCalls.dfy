/** The calls a scheduler run makes, and what it means for them to be in order and
    complete. */
module SchedulerCalls {
  import opened Results
  import opened Batches
  import opened Shuffle
  import opened Scheduler

  // A dispatch without the plan it carries.
  datatype Call = Call(executor: Executor, stage: int, partition: int, isFinal: bool)

  function CallOf(d: Dispatch): Call {
    Call(d.executor, d.task.stage, d.task.partition, d.isFinal)
  }

  function Calls(log: Log): (calls: seq<Call>)
    ensures |calls| == |log|
  {
    if log == [] then [] else Calls(log[..|log| - 1]) + [CallOf(log[|log| - 1])]
  }

  // One task per partition, in order, round robin over the executors.
  function StageCalls(executors: seq<Executor>, id: int, n: nat): (calls: seq<Call>)
    requires executors != []
    ensures |calls| == n
  {
    if n == 0 then []
    else StageCalls(executors, id, n - 1) + [Call(executors[(n - 1) % |executors|], id, n - 1, false)]
  }

  // Stage after stage, ending with the one call for the first final stage.
  function ExpectedCalls(executors: seq<Executor>, stages: seq<QueryStage>): seq<Call>
    requires executors != []
  {
    if stages == [] then []
    else if stages[0].isFinal then [Call(executors[0], stages[0].id, 0, true)]
    else StageCalls(executors, stages[0].id, TaskCount(stages[0])) + ExpectedCalls(executors, stages[1..])
  }

  // Every dispatch after the first `start` is an intermediate task that succeeded.
  ghost predicate AllSucceeded(c: Client, log: Log, start: nat) {
    |log| <= start ||
    (var front, d := log[..|log| - 1], log[|log| - 1];
     !d.isFinal && c.execute(front, d.executor, d.task).Ok? && AllSucceeded(c, front, start))
  }

  // The last dispatch failed with this error, and all before it succeeded.
  ghost predicate LastFailed(c: Client, log: Log, start: nat, e: Error) {
    start < |log| &&
    var front, d := log[..|log| - 1], log[|log| - 1];
    !d.isFinal && c.execute(front, d.executor, d.task) == Err(e) && AllSucceeded(c, front, start)
  }

  // Tasks went out in partition order, once each; only the last may have failed.
  ghost predicate InPartitionOrder(c: Client, executors: seq<Executor>, id: int, start: Log, run: Run<Locations>)
    requires executors != []
  {
    && start <= run.log
    && Calls(run.log) == Calls(start) + StageCalls(executors, id, |run.log| - |start|)
    && (run.outcome.Ok? ==> AllSucceeded(c, run.log, |start|))
    && (run.outcome.Err? ==> LastFailed(c, run.log, |start|, run.outcome.error))
  }

  // Dependencies name stages that ran before, and a final stage is reached.
  predicate WellOrdered(stages: seq<QueryStage>, done: set<int>) {
    && stages != []
    && (forall d :: d in stages[0].dependencies ==> d in done)
    && (stages[0].isFinal || WellOrdered(stages[1..], done + {stages[0].id}))
  }

  // The whole run is accounted for: the calls made are the expected ones in order,
  // everything before the last call succeeded, and the last call's answer is the outcome.
  ghost predicate Accounted(c: Client, expected: seq<Call>, start: Log, run: Run<seq<RecordBatch>>) {
    && start <= run.log && |start| < |run.log|
    && Calls(run.log) <= Calls(start) + expected
    && var front, d := run.log[..|run.log| - 1], run.log[|run.log| - 1];
    && AllSucceeded(c, front, |start|)
    && (d.isFinal ==>
          Calls(run.log) == Calls(start) + expected && run.outcome == c.executeFinal(front, d.executor, d.task))
    && (!d.isFinal ==> run.outcome.Err? && c.execute(front, d.executor, d.task) == Err(run.outcome.error))
  }
}
