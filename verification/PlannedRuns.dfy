/** What the scheduler sends for a plan, call by call, plans included. */
module PlannedRuns {
  import opened Results
  import opened Batches
  import opened HashAggregate
  import opened Shuffle
  import opened Scheduler
  import opened SchedulerCalls
  import opened SchedulerRuns

  predicate IsAggregatePlan(plan: Plan) {
    plan.Node? && plan.operator.AggregateOp?
  }

  // ---------------------------------------------------------------- the tasks

  // The plan itself, to be run as it is.
  function PlanTask(plan: Plan, job: string): Task {
    Task(job, 0, 0, 0, plan)
  }

  // Partition p of the partial stage: the aggregate in partial mode over the same children,
  // below a writer of as many partitions as there are tasks.
  function PartialTaskAt(plan: Plan, job: string, count: int, p: nat): Task
    requires IsAggregatePlan(plan)
  {
    Task(job, 0, p, p, Node(WriterOp(job, 0, count), [Node(plan.operator.(mode := Partial), plan.children)]))
  }

  // The aggregate in final mode over a reader of some locations.
  function FinalTaskOf(plan: Plan, job: string, locations: Locations): Task
    requires IsAggregatePlan(plan)
  {
    Task(job, 1, 0, 0, Node(plan.operator.(mode := Final), [Reader(plan.operator.schema, locations)]))
  }

  function TasksFor(count: int): nat {
    if count < 0 then 0 else count
  }

  // What the calls from `start` on reported, in order.
  function Answers(c: Client, log: Log, start: nat): Locations {
    if |log| <= start then []
    else
      var front, d := log[..|log| - 1], log[|log| - 1];
      Answers(c, front, start) +
      match c.execute(front, d.executor, d.task)
      case Ok(locations) => locations
      case Err(_) => []
  }

  // The first partial tasks, each to its executor.
  ghost predicate PartialsSent(executors: seq<Executor>, plan: Plan, job: string, count: int, start: Log, log: Log)
    requires executors != [] && IsAggregatePlan(plan)
  {
    && start <= log
    && forall p :: 0 <= p < |log| - |start| ==>
         log[|start| + p] == Dispatch(executors[p % |executors|], PartialTaskAt(plan, job, count, p), false)
  }

  // ---------------------------------------------------------------- what is sent

  /** Any plan but an aggregate goes out once, whole and unchanged, to the first executor,
      whose answer is the outcome. */
  lemma OtherPlanIsSent(c: Client, executors: seq<Executor>, plan: Plan, job: string, count: int, log: Log)
    requires !IsAggregatePlan(plan)
    ensures RunStages(c, executors, job, SortById(PlanStages(plan, job, count)), map[], log)
            == if executors == [] then Run(log, Err(Internal))
               else Run(log + [Dispatch(executors[0], PlanTask(plan, job), true)],
                        c.executeFinal(log, executors[0], PlanTask(plan, job)))
  {
    var stages := PlanStages(plan, job, count);
    SortedAlready(stages);
    assert stages[0].plan == plan;
  }

  ghost predicate Partials(c: Client, executors: seq<Executor>, plan: Plan, job: string, count: int, start: Log,
                           run: Run<Locations>)
    requires executors != [] && IsAggregatePlan(plan)
  {
    && PartialsSent(executors, plan, job, count, start, run.log)
    && (run.outcome.Ok? ==> AllSucceeded(c, run.log, |start|) && run.outcome.value == Answers(c, run.log, |start|))
    && (run.outcome.Err? ==> LastFailed(c, run.log, |start|, run.outcome.error))
  }

  lemma OneMorePartial(c: Client, executors: seq<Executor>, plan: Plan, job: string, count: int, start: Log,
                       before: Run<Locations>, d: Dispatch)
    requires executors != [] && IsAggregatePlan(plan)
    requires before.outcome.Ok? && Partials(c, executors, plan, job, count, start, before)
    requires var p := |before.log| - |start|;
             d == Dispatch(executors[p % |executors|], PartialTaskAt(plan, job, count, p), false)
    ensures Partials(c, executors, plan, job, count, start, After(c, before, d))
  {
    var log := before.log;
    assert (log + [d])[..|log|] == log;
  }

  lemma {:induction false} PartialsInOrder(c: Client, executors: seq<Executor>, plan: Plan, job: string, count: int,
                                           log: Log, n: nat)
    requires executors != [] && IsAggregatePlan(plan)
    ensures var run := RunTasks(c, executors, job, PlanStages(plan, job, count)[0], log, n);
            && Partials(c, executors, plan, job, count, log, run)
            && |run.log| <= |log| + n
            && (run.outcome.Ok? ==> |run.log| == |log| + n)
  {
    if n > 0 {
      hide Partials;
      var stage := PlanStages(plan, job, count)[0];
      PartialsInOrder(c, executors, plan, job, count, log, n - 1);
      var before := RunTasks(c, executors, job, stage, log, n - 1);
      if before.outcome.Ok? {
        assert TaskOf(job, stage, n - 1) == PartialTaskAt(plan, job, count, n - 1);
        OneMorePartial(c, executors, plan, job, count, log, before,
                       Dispatch(executors[(n - 1) % |executors|], TaskOf(job, stage, n - 1), false));
      }
    }
  }

  /** An aggregate goes out as one partial task per partition, round robin over the
      executors, up to the first that fails, whose error is the outcome. When none fails the
      first executor gets the final task, whose reader holds all that was reported, in
      order, and its answer is the outcome. */
  lemma AggregateIsSent(c: Client, executors: seq<Executor>, plan: Plan, job: string, count: int, log: Log)
    returns (partials: Log)
    requires executors != [] && IsAggregatePlan(plan)
    ensures PartialsSent(executors, plan, job, count, log, partials) && |partials| <= |log| + TasksFor(count)
    ensures var run := RunStages(c, executors, job, SortById(PlanStages(plan, job, count)), map[], log);
            var last := FinalTaskOf(plan, job, Answers(c, partials, |log|));
            || (exists e :: LastFailed(c, partials, |log|, e) && run == Run(partials, Err(e)))
            || (&& |partials| == |log| + TasksFor(count) && AllSucceeded(c, partials, |log|)
                && run == Run(partials + [Dispatch(executors[0], last, true)],
                              c.executeFinal(partials, executors[0], last)))
  {
    hide LastFailed, AllSucceeded, PartialsSent, RunTasks;
    var stages, n := PlanStages(plan, job, count), TasksFor(count);
    PlannedIsWellOrdered(plan, job, count, executors);
    PartialsInOrder(c, executors, plan, job, count, log, n);
    assert Inputs(stages[0].dependencies, map[]) == [];
    var tasks := RunTasks(c, executors, job, stages[0], log, n);
    partials := tasks.log;
    if tasks.outcome.Ok? {
      var done: Done := map[0 := tasks.outcome.value];
      assert map[][stages[0].id := tasks.outcome.value] == done;
      assert stages[1..] == [stages[1]];
      InputsOfOne(0, done);
      LastPlan(stages[1], tasks.outcome.value);
    }
  }

  lemma InputsOfOne(id: int, done: Done)
    requires id in done
    ensures Inputs([id], done) == done[id]
  {
    assert [id][..0] == [];
    assert Inputs([id][..0], done) == [];
    assert [] + done[id] == done[id];
  }

  lemma LastPlan(stage: QueryStage, locations: Locations)
    requires stage.plan.Node? && |stage.plan.children| == 1 && stage.plan.children[0].Reader?
    requires stage.plan.children[0].locations == []
    ensures Updated(stage, locations).plan
            == Node(stage.plan.operator, [Reader(stage.plan.children[0].schema, locations)])
  {
    var reader := stage.plan.children[0];
    assert stage.plan.children[..0] == [];
    assert SubstituteInAll(stage.plan.children[..0], locations) == [];
    assert stage.plan.children == [reader];
    assert SubstituteInAll(stage.plan.children, locations) == [] + [Reader(reader.schema, locations)];
    assert [] + [Reader(reader.schema, locations)] == [Reader(reader.schema, locations)];
  }
}
