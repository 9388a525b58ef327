/** Distributed execution: a plan is cut into stages at shuffle boundaries, the stages run
    in id order, and each one's shuffle locations are handed to the stages depending on
    it. An executor's answer may depend on everything dispatched before. */
module Scheduler {
  import opened Results
  import opened Batches
  import opened HashAggregate
  import opened Shuffle

  // ---------------------------------------------------------------- plans and stages

  datatype Operator =
    | AggregateOp(mode: Mode, query: Query, schema: string)
    | WriterOp(job: string, stage: int, count: int)
    | OtherOp(name: string)

  datatype Plan =
    | Reader(schema: string, locations: seq<ShuffleLocation>)
    | Node(operator: Operator, children: seq<Plan>)

  datatype QueryStage = QueryStage(id: int, plan: Plan, dependencies: seq<int>, partitionCount: int, isFinal: bool)

  datatype Task = Task(job: string, stage: int, task: int, partition: int, plan: Plan)

  // A call on the executor client.
  datatype Dispatch = Dispatch(executor: Executor, task: Task, isFinal: bool)

  type Log = seq<Dispatch>

  type Locations = seq<ShuffleLocation>

  datatype Client = Client(
    execute: (Log, Executor, Task) -> Result<Locations>,
    executeFinal: (Log, Executor, Task) -> Result<seq<RecordBatch>>)

  // ---------------------------------------------------------------- planning

  /** An aggregate becomes a partial stage with a shuffle writer and a final stage reading
      it back; anything else is one final stage. */
  function PlanStages(plan: Plan, job: string, partitionCount: int): seq<QueryStage> {
    if plan.Node? && plan.operator.AggregateOp? then
      var partial := Node(plan.operator.(mode := Partial), plan.children);
      var last := Node(plan.operator.(mode := Final), [Reader(plan.operator.schema, [])]);
      [QueryStage(0, Node(WriterOp(job, 0, partitionCount), [partial]), [], partitionCount, false),
       QueryStage(1, last, [0], 1, true)]
    else
      [QueryStage(0, plan, [], 1, true)]
  }

  // ---------------------------------------------------------------- shuffle readers

  function SubstituteReaders(plan: Plan, locations: Locations): Plan
    decreases plan
  {
    match plan
    case Reader(schema, _) => Reader(schema, locations)
    case Node(operator, children) => Node(operator, SubstituteInAll(children, locations))
  }

  function SubstituteInAll(plans: seq<Plan>, locations: Locations): (out: seq<Plan>)
    ensures |out| == |plans|
    decreases plans
  {
    if plans == [] then []
    else SubstituteInAll(plans[..|plans| - 1], locations) + [SubstituteReaders(plans[|plans| - 1], locations)]
  }

  // The locations every reader of a plan holds, left to right.
  function Held(plan: Plan): seq<Locations>
    decreases plan
  {
    match plan
    case Reader(_, locations) => [locations]
    case Node(_, children) => HeldByAll(children)
  }

  function HeldByAll(plans: seq<Plan>): seq<Locations>
    decreases plans
  {
    if plans == [] then [] else HeldByAll(plans[..|plans| - 1]) + Held(plans[|plans| - 1])
  }

  /** Substitution reaches every reader and changes nothing but the readers' locations:
      all of them hold the new ones, there are as many, and putting any other locations in
      afterwards gives what putting them in at once would. */
  lemma {:induction false} OnlyReadersChange(plan: Plan, locations: Locations, others: Locations)
    ensures |Held(SubstituteReaders(plan, locations))| == |Held(plan)|
    ensures forall h :: h in Held(SubstituteReaders(plan, locations)) ==> h == locations
    ensures SubstituteReaders(SubstituteReaders(plan, locations), others) == SubstituteReaders(plan, others)
    decreases plan
  {
    if plan.Node? {
      OnlyReadersChangeInAll(plan.children, locations, others);
    }
  }

  lemma {:induction false} OnlyReadersChangeInAll(plans: seq<Plan>, locations: Locations, others: Locations)
    ensures |HeldByAll(SubstituteInAll(plans, locations))| == |HeldByAll(plans)|
    ensures forall h :: h in HeldByAll(SubstituteInAll(plans, locations)) ==> h == locations
    ensures SubstituteInAll(SubstituteInAll(plans, locations), others) == SubstituteInAll(plans, others)
    decreases plans
  {
    if plans != [] {
      var front, last := plans[..|plans| - 1], plans[|plans| - 1];
      OnlyReadersChangeInAll(front, locations, others);
      OnlyReadersChange(last, locations, others);
      assert plans == front + [last];
      assert SubstituteInAll(plans, locations)[..|front|] == SubstituteInAll(front, locations);
    }
  }

  // A plan whose readers hold the locations already is left as it is.
  lemma {:induction false} NothingToChange(plan: Plan, locations: Locations)
    requires forall h :: h in Held(plan) ==> h == locations
    ensures SubstituteReaders(plan, locations) == plan
    decreases plan
  {
    match plan
    case Reader(schema, l) => assert l in Held(plan);
    case Node(_, children) =>
      assert Held(plan) == HeldByAll(children);
      NothingToChangeInAll(children, locations);
  }

  lemma {:induction false} NothingToChangeInAll(plans: seq<Plan>, locations: Locations)
    requires forall h :: h in HeldByAll(plans) ==> h == locations
    ensures SubstituteInAll(plans, locations) == plans
    decreases plans
  {
    if plans != [] {
      var front, last := plans[..|plans| - 1], plans[|plans| - 1];
      forall h | h in HeldByAll(front) || h in Held(last) ensures h == locations {
        assert h in HeldByAll(plans);
      }
      NothingToChangeInAll(front, locations);
      NothingToChange(last, locations);
      assert plans == front + [last];
    }
  }

  // A stage with the locations its dependencies reported; none means no rewrite.
  function Updated(stage: QueryStage, inputs: Locations): QueryStage {
    if inputs == [] then stage else stage.(plan := SubstituteReaders(stage.plan, inputs))
  }

  // ---------------------------------------------------------------- stage order

  // A stable sort by id.
  function InsertById(stage: QueryStage, sorted: seq<QueryStage>): seq<QueryStage> {
    if sorted == [] || sorted[|sorted| - 1].id <= stage.id then sorted + [stage]
    else InsertById(stage, sorted[..|sorted| - 1]) + [sorted[|sorted| - 1]]
  }

  function SortById(stages: seq<QueryStage>): seq<QueryStage> {
    if stages == [] then [] else InsertById(stages[|stages| - 1], SortById(stages[..|stages| - 1]))
  }

  predicate InIdOrder(stages: seq<QueryStage>) {
    forall i, j :: 0 <= i < j < |stages| ==> stages[i].id <= stages[j].id
  }

  function WithId(stages: seq<QueryStage>, id: int): seq<QueryStage> {
    if stages == [] then []
    else WithId(stages[..|stages| - 1], id) + (if stages[|stages| - 1].id == id then [stages[|stages| - 1]] else [])
  }

  lemma {:induction false} InsertedOnce(stage: QueryStage, sorted: seq<QueryStage>)
    ensures multiset(InsertById(stage, sorted)) == multiset(sorted) + multiset{stage}
  {
    if sorted != [] && sorted[|sorted| - 1].id > stage.id {
      var front, last := sorted[..|sorted| - 1], sorted[|sorted| - 1];
      InsertedOnce(stage, front);
      assert sorted == front + [last];
    }
  }

  lemma {:induction false} InsertedInOrder(stage: QueryStage, sorted: seq<QueryStage>)
    requires InIdOrder(sorted)
    ensures InIdOrder(InsertById(stage, sorted))
  {
    if sorted != [] && sorted[|sorted| - 1].id > stage.id {
      var front, last := sorted[..|sorted| - 1], sorted[|sorted| - 1];
      InsertedInOrder(stage, front);
      InsertedOnce(stage, front);
      forall s | s in InsertById(stage, front) ensures s.id <= last.id {
        assert s in multiset(InsertById(stage, front));
        assert s == stage || s in front;
      }
    }
  }

  lemma WithIdPush(front: seq<QueryStage>, last: QueryStage, id: int)
    ensures WithId(front + [last], id) == WithId(front, id) + if last.id == id then [last] else []
  {
    assert (front + [last])[..|front|] == front;
  }

  lemma {:induction false} InsertedLast(stage: QueryStage, sorted: seq<QueryStage>, id: int)
    requires InIdOrder(sorted)
    ensures WithId(InsertById(stage, sorted), id) == WithId(sorted, id) + if stage.id == id then [stage] else []
  {
    hide WithId;
    if sorted == [] || sorted[|sorted| - 1].id <= stage.id {
      WithIdPush(sorted, stage, id);
    } else {
      var front, last := sorted[..|sorted| - 1], sorted[|sorted| - 1];
      assert sorted == front + [last];
      InsertedLast(stage, front, id);
      WithIdPush(front, last, id);
      WithIdPush(InsertById(stage, front), last, id);
      OneOfTwo(WithId(front, id), if stage.id == id then [stage] else [], if last.id == id then [last] else []);
    }
  }

  lemma OneOfTwo<T>(a: seq<T>, b: seq<T>, c: seq<T>)
    requires b == [] || c == []
    ensures (a + b) + c == (a + c) + b
  {
  }

  lemma {:induction false} SortInOrder(stages: seq<QueryStage>)
    ensures InIdOrder(SortById(stages))
  {
    if stages != [] {
      SortInOrder(stages[..|stages| - 1]);
      InsertedInOrder(stages[|stages| - 1], SortById(stages[..|stages| - 1]));
    }
  }

  lemma {:induction false} SortSame(stages: seq<QueryStage>)
    ensures multiset(SortById(stages)) == multiset(stages)
  {
    if stages != [] {
      var front, last := stages[..|stages| - 1], stages[|stages| - 1];
      SortSame(front);
      InsertedOnce(last, SortById(front));
      assert stages == front + [last];
    }
  }

  lemma {:induction false} SortStable(stages: seq<QueryStage>, id: int)
    ensures WithId(SortById(stages), id) == WithId(stages, id)
  {
    if stages != [] {
      hide WithId;
      var front, last := stages[..|stages| - 1], stages[|stages| - 1];
      assert stages == front + [last];
      SortStable(front, id);
      SortInOrder(front);
      InsertedLast(last, SortById(front), id);
      WithIdPush(front, last, id);
    }
  }

  /** Stages come out in id order, the same ones, and stages of one id keep their order. */
  lemma SortsById(stages: seq<QueryStage>, id: int)
    ensures InIdOrder(SortById(stages)) && multiset(SortById(stages)) == multiset(stages)
    ensures WithId(SortById(stages), id) == WithId(stages, id)
  {
    SortInOrder(stages);
    SortSame(stages);
    SortStable(stages, id);
  }

  // ---------------------------------------------------------------- a run as a function

  datatype Run<T> = Run(log: Log, outcome: Result<T>)

  function TaskOf(job: string, stage: QueryStage, p: nat): Task {
    Task(job, stage.id, p, p, stage.plan)
  }

  // One more task: its answer is added to what is reported already.
  function After(c: Client, before: Run<Locations>, d: Dispatch): Run<Locations>
    requires before.outcome.Ok?
  {
    var answer := c.execute(before.log, d.executor, d.task);
    Run(before.log + [d], if answer.Err? then answer else Ok(before.outcome.value + answer.value))
  }

  // Partitions 0..n of a stage, dispatched one after the other; an error stops it.
  function RunTasks(c: Client, executors: seq<Executor>, job: string, stage: QueryStage, log: Log,
                    n: nat): Run<Locations>
  {
    if n == 0 then Run(log, Ok([]))
    else
      var before := RunTasks(c, executors, job, stage, log, n - 1);
      if before.outcome.Err? then before
      else if executors == [] then Run(before.log, Err(Panic))
      else After(c, before, Dispatch(executors[(n - 1) % |executors|], TaskOf(job, stage, n - 1), false))
  }

  function TaskCount(stage: QueryStage): nat {
    if stage.partitionCount < 0 then 0 else stage.partitionCount
  }

  function RunFinal(c: Client, executors: seq<Executor>, job: string, stage: QueryStage,
                    log: Log): Run<seq<RecordBatch>>
  {
    if executors == [] then Run(log, Err(Internal))
    else
      var task := TaskOf(job, stage, 0);
      Run(log + [Dispatch(executors[0], task, true)], c.executeFinal(log, executors[0], task))
  }

  type Done = map<int, Locations>

  predicate DependenciesDone(stage: QueryStage, done: Done) {
    forall d :: d in stage.dependencies ==> d in done
  }

  function Inputs(dependencies: seq<int>, done: Done): Locations {
    if dependencies == [] then []
    else
      var d := dependencies[|dependencies| - 1];
      Inputs(dependencies[..|dependencies| - 1], done) + if d in done then done[d] else []
  }

  // The stages in order, up to the first final one.
  function RunStages(c: Client, executors: seq<Executor>, job: string, stages: seq<QueryStage>, done: Done, log: Log)
    : Run<seq<RecordBatch>>
    decreases stages
  {
    if stages == [] || !DependenciesDone(stages[0], done) then Run(log, Err(Internal))
    else
      var stage := Updated(stages[0], Inputs(stages[0].dependencies, done));
      if stage.isFinal then RunFinal(c, executors, job, stage, log)
      else
        var tasks := RunTasks(c, executors, job, stage, log, TaskCount(stage));
        if tasks.outcome.Err? then Run(tasks.log, Err(tasks.outcome.error))
        else RunStages(c, executors, job, stages[1..], done[stage.id := tasks.outcome.value], tasks.log)
  }

  // ---------------------------------------------------------------- the scheduler

  class Scheduler {
    const executors: seq<Executor>
    const client: Client
    // The calls made on the client so far.
    var log: Log

    constructor (executors: seq<Executor>, client: Client)
      ensures this.executors == executors && this.client == client && log == []
    {
      this.executors := executors;
      this.client := client;
      log := [];
    }

    method ExecuteTask(executor: Executor, task: Task) returns (r: Result<Locations>)
      modifies this
      ensures r == client.execute(old(log), executor, task) && log == old(log) + [Dispatch(executor, task, false)]
    {
      r := client.execute(log, executor, task);
      log := log + [Dispatch(executor, task, false)];
    }

    method ExecuteFinalTask(executor: Executor, task: Task) returns (r: Result<seq<RecordBatch>>)
      modifies this
      ensures r == client.executeFinal(old(log), executor, task) && log == old(log) + [Dispatch(executor, task, true)]
    {
      r := client.executeFinal(log, executor, task);
      log := log + [Dispatch(executor, task, true)];
    }

    method ExecuteStage(job: string, stage: QueryStage) returns (r: Result<Locations>)
      modifies this
      ensures Run(log, r) == RunTasks(client, executors, job, stage, old(log), TaskCount(stage))
    {
      var allLocations := [];
      var n := if stage.partitionCount < 0 then 0 else stage.partitionCount;
      for p := 0 to n
        invariant Run(log, Ok(allLocations)) == RunTasks(client, executors, job, stage, old(log), p)
      {
        if |executors| == 0 {
          FailureStaysThere(client, executors, job, stage, old(log), p + 1, n);
          return Err(Panic);
        }
        var executor := executors[p % |executors|];
        var locations := ExecuteTask(executor, Task(job, stage.id, p, p, stage.plan));
        if locations.Err? {
          FailureStaysThere(client, executors, job, stage, old(log), p + 1, n);
          return Err(locations.error);
        }
        allLocations := allLocations + locations.value;
      }
      return Ok(allLocations);
    }

    method ExecuteFinalStage(job: string, stage: QueryStage) returns (r: Result<seq<RecordBatch>>)
      modifies this
      ensures Run(log, r) == RunFinal(client, executors, job, stage, old(log))
    {
      var task := Task(job, stage.id, 0, 0, stage.plan);
      if executors == [] {
        return Err(Internal);
      }
      r := ExecuteFinalTask(executors[0], task);
    }

    /** Plans, sorts and runs the stages, handing locations on. */
    method Execute(plan: Plan, job: string, partitionCount: int) returns (r: Result<seq<RecordBatch>>)
      modifies this
      ensures Run(log, r)
              == RunStages(client, executors, job, SortById(PlanStages(plan, job, partitionCount)), map[], old(log))
    {
      r := ExecuteStages(SortById(PlanStages(plan, job, partitionCount)), job);
    }

    method ExecuteStages(stages: seq<QueryStage>, job: string) returns (r: Result<seq<RecordBatch>>)
      modifies this
      ensures Run(log, r) == RunStages(client, executors, job, stages, map[], old(log))
    {
      var locationsByStage: Done := map[];
      for i := 0 to |stages|
        invariant RunStages(client, executors, job, stages, map[], old(log))
                  == RunStages(client, executors, job, stages[i..], locationsByStage, log)
      {
        var stage := stages[i];
        assert stages[i..][1..] == stages[i + 1..];
        var ready := AllDone(stage, locationsByStage);
        if !ready {
          return Err(Internal);
        }
        var inputs := GatherInputs(stage, locationsByStage);
        var updated := Updated(stage, inputs);
        if updated.isFinal {
          r := ExecuteFinalStage(job, updated);
          return;
        }
        var locations := ExecuteStage(job, updated);
        if locations.Err? {
          return Err(locations.error);
        }
        locationsByStage := locationsByStage[updated.id := locations.value];
      }
      return Err(Internal);
    }

    method AllDone(stage: QueryStage, done: Done) returns (ready: bool)
      ensures ready == DependenciesDone(stage, done)
    {
      for i := 0 to |stage.dependencies|
        invariant forall k :: 0 <= k < i ==> stage.dependencies[k] in done
      {
        var d := stage.dependencies[i];
        if d !in done {
          assert d in stage.dependencies;
          return false;
        }
      }
      return true;
    }

    method GatherInputs(stage: QueryStage, done: Done) returns (inputs: Locations)
      ensures inputs == Inputs(stage.dependencies, done)
    {
      inputs := [];
      for i := 0 to |stage.dependencies|
        invariant inputs == Inputs(stage.dependencies[..i], done)
      {
        assert stage.dependencies[..i + 1][..i] == stage.dependencies[..i];
        if stage.dependencies[i] in done {
          inputs := inputs + done[stage.dependencies[i]];
        }
      }
      assert stage.dependencies[..|stage.dependencies|] == stage.dependencies;
    }
  }

  lemma {:induction false} FailureStaysThere(
    c: Client, executors: seq<Executor>, job: string, stage: QueryStage, log: Log, m: nat, n: nat)
    requires m <= n && RunTasks(c, executors, job, stage, log, m).outcome.Err?
    ensures RunTasks(c, executors, job, stage, log, n) == RunTasks(c, executors, job, stage, log, m)
  {
    if m < n {
      FailureStaysThere(c, executors, job, stage, log, m, n - 1);
    }
  }
}
