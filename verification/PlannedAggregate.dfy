/** Where the planned aggregation departs from the single-node one: every task of the
    partial stage runs the whole input, and the partial-reduce mode accumulates states
    instead of merging them. */
module PlannedAggregate {
  import opened Arithmetic
  import opened Results
  import opened Scalars
  import opened Sequences
  import opened Accumulators
  import opened AccumulatorLaws
  import opened ReducerMeaning
  import opened HashAggregate
  import opened TwoPhase

  // ---------------------------------------------------------------- partial-reduce

  // The number of values a list of count states stands for.
  function StateSum(states: seq<ScalarValue>): int {
    if states == [] then 0
    else StateSum(states[..|states| - 1]) + if states[|states| - 1].Int32? then states[|states| - 1].i32 else 0
  }

  lemma {:induction false} CountMerges(r: Reducer, states: seq<ScalarValue>)
    requires r.kind == Count && AllExactStates(r, states)
    ensures StateSum(states) >= 0
    ensures FoldPartials(r, states) == Counted(StateSum(states))
  {
    if states != [] {
      assert ExactState(r, states[|states| - 1]);
      CountMerges(r, states[..|states| - 1]);
    }
  }

  lemma {:induction false} StatesAreNotNull(r: Reducer, states: seq<ScalarValue>)
    requires r.kind == Count && AllExactStates(r, states)
    ensures NonNulls(states) == |states|
  {
    if states != [] {
      assert ExactState(r, states[|states| - 1]);
      StatesAreNotNull(r, states[..|states| - 1]);
    }
  }

  lemma {:induction false} OthersMergeAsTheyAccumulate(r: Reducer, states: seq<ScalarValue>)
    requires r.kind != Count
    ensures FoldPartials(r, states) == Fold(r, states)
  {
    if states != [] {
      OthersMergeAsTheyAccumulate(r, states[..|states| - 1]);
    }
  }

  /** Partial-reduce is documented to combine partial states, but accumulates them. That
      is the same for SUM, MIN and MAX; COUNT then counts partial rows, which is right
      exactly when there are as many of them as values behind them, or too many of both. */
  lemma PartialReduceCombines(f: Query, r: Reducer, rows: seq<Row>, key: Row, j: nat)
    requires j < |f.calls| && Reduces(f.calls[j], r)
    requires AllExactStates(r, MemberValues(f, rows, key, j))
    ensures var states := MemberValues(f, rows, key, j);
            GroupFold(f, PartialReduce, rows, key, j) == GroupFold(f, Final, rows, key, j)
            <==> (r.kind == Count ==>
                    StateSum(states) == |states| || (StateSum(states) >= I32_END && |states| >= I32_END))
  {
    var states := MemberValues(f, rows, key, j);
    assert GroupFold(f, PartialReduce, rows, key, j) == Fold(r, states);
    assert GroupFold(f, Final, rows, key, j) == FoldPartials(r, states);
    if r.kind == Count {
      CountIsCardinality(r, states);
      CountMerges(r, states);
      StatesAreNotNull(r, states);
    } else {
      OthersMergeAsTheyAccumulate(r, states);
    }
  }

  // ---------------------------------------------------------------- the input, n times over

  function Copies<T>(s: seq<T>, n: nat): seq<T> {
    if n == 0 then [] else Copies(s, n - 1) + s
  }

  lemma {:induction false} CopiesExact(r: Reducer, values: seq<ScalarValue>, n: nat)
    requires AllExact(r, values)
    ensures AllExact(r, Copies(values, n))
  {
    if n > 0 {
      CopiesExact(r, values, n - 1);
    }
  }

  lemma {:induction false} NonNullsAppend(a: seq<ScalarValue>, b: seq<ScalarValue>)
    ensures NonNulls(a + b) == NonNulls(a) + NonNulls(b)
  {
    if b == [] {
      assert a + b == a;
    } else {
      assert (a + b)[..|a + b| - 1] == a + b[..|b| - 1];
      NonNullsAppend(a, b[..|b| - 1]);
    }
  }

  lemma {:induction false} NonNullsOfCopies(values: seq<ScalarValue>, n: nat)
    ensures NonNulls(Copies(values, n)) == n * NonNulls(values)
  {
    if n > 0 {
      NonNullsOfCopies(values, n - 1);
      NonNullsAppend(Copies(values, n - 1), values);
      assert n * NonNulls(values) == (n - 1) * NonNulls(values) + NonNulls(values);
    }
  }

  // A minimum that can be compared with itself, or none yet.
  predicate Repeatable(s: ScalarValue) {
    s.Null? || Orderable(s)
  }

  function Again(once: Result<ScalarValue>): Result<ScalarValue> {
    if once.Ok? && Repeatable(once.value) then once else Err(NotImplemented)
  }

  lemma MinMaxAgain(r: Reducer, once: Result<ScalarValue>)
    requires r.kind == Min || r.kind == Max
    requires once.Ok? ==> !IsFloat(once.value)
    ensures Combine(r, once, once) == Again(once)
    ensures Combine(r, Again(once), once) == Again(once)
  {
    if once.Ok? {
      LessDefined(r.floats, once.value, once.value);
    }
  }

  lemma {:induction false} MinMaxOfCopies(r: Reducer, values: seq<ScalarValue>, n: nat)
    requires n >= 2 && (r.kind == Min || r.kind == Max) && AllExact(r, values)
    ensures Fold(r, Copies(values, n)) == Again(Fold(r, values))
  {
    hide Fold, Combine, Again;
    CopiesExact(r, values, n - 1);
    FoldAppend(r, Copies(values, n - 1), values);
    FoldExact(r, values);
    MinMaxAgain(r, Fold(r, values));
    if n == 2 {
      assert Copies(values, 1) == Copies(values, 0) + values == values;
    } else {
      MinMaxOfCopies(r, values, n - 1);
    }
  }

  // ---------------------------------------------------------------- SUM, n times over

  lemma {:induction false} SumOfCopies(r: Reducer, values: seq<ScalarValue>, n: nat)
    requires n >= 1 && r.kind == Sum && AllExact(r, values)
    ensures Fold(r, Copies(values, n)) == NTimes(r, Fold(r, values), n)
  {
    hide Fold, NTimes, Combine;
    var once := Fold(r, values);
    FoldExact(r, values);
    FoldFails(r, values);
    if n == 1 {
      OnceOver(r, once);
      assert Copies(values, 1) == Copies(values, 0) + values == values;
    } else {
      CopiesExact(r, values, n - 1);
      FoldAppend(r, Copies(values, n - 1), values);
      SumOfCopies(r, values, n - 1);
      OneMoreSum(r, once, n);
    }
  }

  lemma OnceOver(r: Reducer, once: Result<ScalarValue>)
    ensures NTimes(r, once, 1) == once
  {
  }

  lemma OneMoreSum(r: Reducer, once: Result<ScalarValue>, n: nat)
    requires n >= 2 && r.kind == Sum && (once.Ok? ==> !IsFloat(once.value))
    requires once.Err? ==> once.error == NotImplemented
    ensures Combine(r, NTimes(r, once, n - 1), once) == NTimes(r, once, n)
  {
    hide Wrapped, Number, ScalarAdd;
    if once.Ok? && IsInteger(once.value) {
      var x := Number(once.value);
      WrappedSame(once.value, 0);
      WrappedNotNull(once.value, (n - 1) * x);
      WrappedAdds(r.floats, once.value, (n - 1) * x);
      assert (n - 1) * x + x == n * x;
      assert n == 2 ==> (n - 1) * x == x;
    } else if once.Ok? && !once.value.Null? {
      AddDefined(r.floats, once.value, once.value);
    }
  }

  lemma WrappedNotNull(v: ScalarValue, m: int)
    requires IsInteger(v)
    ensures !v.Null? && !Wrapped(v, m).Null?
  {
  }

  lemma CountOfCopies(r: Reducer, values: seq<ScalarValue>, n: nat)
    requires r.kind == Count
    ensures n * NonNulls(values) >= 0
    ensures Fold(r, Copies(values, n)) == Counted(n * NonNulls(values))
  {
    CountIsCardinality(r, Copies(values, n));
    NonNullsOfCopies(values, n);
  }

  // What a group's value becomes when its input is aggregated n times over.
  function NTimes(r: Reducer, once: Result<ScalarValue>, n: nat): Result<ScalarValue> {
    if n == 1 || once.Err? || once.value.Null? then once
    else match r.kind
      case Count => if once.value.Int32? && once.value.i32 >= 0 then Counted(n * once.value.i32) else Err(Panic)
      case Sum => if IsInteger(once.value) then Ok(Wrapped(once.value, n * Number(once.value))) else Err(NotImplemented)
      case _ => Again(once)
  }

  /** The same input n times over: COUNT is multiplied and overflows as it may, an integer
      SUM is multiplied and wrapped, MIN and MAX come out again if they can be compared at
      all. */
  lemma FoldOfCopies(r: Reducer, values: seq<ScalarValue>, n: nat)
    requires n >= 1 && AllExact(r, values)
    ensures Fold(r, Copies(values, n)) == NTimes(r, Fold(r, values), n)
  {
    if r.kind == Sum {
      SumOfCopies(r, values, n);
    } else if n == 1 {
      assert Copies(values, 1) == Copies(values, 0) + values == values;
    } else if r.kind == Count {
      CountIsCardinality(r, values);
      CountOfCopies(r, values, n);
      AtLeastOnce(n, NonNulls(values));
    } else {
      FoldFails(r, values);
      MinMaxOfCopies(r, values, n);
    }
  }

  lemma AtLeastOnce(n: nat, m: nat)
    requires n >= 1
    ensures n * m >= m
    ensures n >= 2 && m > 0 ==> n * m > m
  {
  }

  // A group's value that aggregating its input n times over leaves as it is.
  predicate Harmless(r: Reducer, once: Result<ScalarValue>, n: nat) {
    n == 1 || once.Err? || once.value.Null? ||
    match r.kind
    case Count => once.value == Int32(0)
    case Sum => IsInteger(once.value) && ((n - 1) * Number(once.value)) % Modulus(once.value) == 0
    case _ => Orderable(once.value)
  }

  /** So COUNT is unharmed when it saw nothing, SUM when the surplus is a multiple of its
      type's size, MIN and MAX unless they cannot be compared with themselves. */
  lemma CopiesHarmless(r: Reducer, values: seq<ScalarValue>, n: nat)
    requires n >= 1 && AllExact(r, values)
    ensures Fold(r, Copies(values, n)) == Fold(r, values) <==> Harmless(r, Fold(r, values), n)
  {
    hide Wrapped, Fold;
    FoldOfCopies(r, values, n);
    var once := Fold(r, values);
    if once.Ok? && !once.value.Null? && n > 1 {
      if r.kind == Count {
        CountIsCardinality(r, values);
        AtLeastOnce(n, once.value.i32);
      } else if r.kind == Sum && IsInteger(once.value) {
        WrappedSame(once.value, n * Number(once.value));
        assert n * Number(once.value) - Number(once.value) == (n - 1) * Number(once.value);
      }
    }
  }

  lemma FoldFails(r: Reducer, values: seq<ScalarValue>)
    requires AllExact(r, values) && r.kind != Count
    ensures Fold(r, values).Err? ==> Fold(r, values).error == NotImplemented
  {
    FoldIsTotal(r, values);
    TotalExact(r, LiftAll(r, values));
  }

  lemma {:induction false} MembersOfCopies(q: Query, rows: seq<Row>, n: nat, key: Row, j: nat)
    requires j < |q.calls|
    ensures MemberValues(q, Copies(rows, n), key, j) == Copies(MemberValues(q, rows, key, j), n)
  {
    if n > 0 {
      MembersOfCopies(q, rows, n - 1, key, j);
      MemberValuesAppend(q, Copies(rows, n - 1), rows, key, j);
    }
  }

  lemma {:induction false} InputsAreCopies(pieces: seq<Piece>, rows: seq<Row>)
    requires forall i :: 0 <= i < |pieces| ==> pieces[i].rows == rows
    ensures InputRows(pieces) == Copies(rows, |pieces|)
  {
    if pieces != [] {
      InputsAreCopies(pieces[..|pieces| - 1], rows);
    }
  }

  lemma {:induction false} KeysOfCopies(q: Query, rows: seq<Row>, n: nat)
    requires n >= 1
    ensures KeySet(q, Copies(rows, n)) == KeySet(q, rows)
  {
    KeySetAppend(q, Copies(rows, n - 1), rows);
    if n > 1 {
      KeysOfCopies(q, rows, n - 1);
    }
  }

  lemma GroupOfCopies(q: Query, rs: seq<Reducer>, rows: seq<Row>, n: nat, k: Row, j: nat)
    requires n >= 1 && AllReduce(q, rs) && ExactRows(q, rs, rows) && j < |rs|
    ensures GroupFold(q, Single, Copies(rows, n), k, j) == NTimes(rs[j], GroupFold(q, Single, rows, k, j), n)
    ensures GroupFold(q, Single, Copies(rows, n), k, j) == GroupFold(q, Single, rows, k, j)
            <==> Harmless(rs[j], GroupFold(q, Single, rows, k, j), n)
  {
    assert Reduces(q.calls[j], rs[j]);
    MembersOfCopies(q, rows, n, k, j);
    MemberValuesExact(q, rs, rows, k, j);
    FoldOfCopies(rs[j], MemberValues(q, rows, k, j), n);
    CopiesHarmless(rs[j], MemberValues(q, rows, k, j), n);
  }

  ghost predicate AllHarmless(q: Query, rs: seq<Reducer>, rows: seq<Row>, n: nat)
    requires |q.calls| == |rs|
  {
    forall k, j :: k in KeySet(q, rows) && 0 <= j < |rs| ==> Harmless(rs[j], GroupFold(q, Single, rows, k, j), n)
  }

  // Single-mode aggregation of the input n times over, against once.
  lemma TableOfCopies(q: Query, rs: seq<Reducer>, rows: seq<Row>, n: nat)
    requires n >= 1 && AllReduce(q, rs) && ExactRows(q, rs, rows)
    ensures var many, once := BuildTable(q, Single, Copies(rows, n)), BuildTable(q, Single, rows);
            && (many.Ok? <==> forall k, j :: k in KeySet(q, rows) && 0 <= j < |rs| ==>
                                NTimes(rs[j], GroupFold(q, Single, rows, k, j), n).Ok?)
            && (many.Ok? ==>
                  && many.value.Keys == KeySet(q, rows) && IsTable(q, many.value)
                  && forall k, j :: k in many.value && 0 <= j < |rs| ==>
                       Ok(many.value[k][j]) == NTimes(rs[j], GroupFold(q, Single, rows, k, j), n))
            && (SameOutcome(many, once) <==> once.Err? || AllHarmless(q, rs, rows, n))
  {
    hide NTimes, Harmless, GroupFold, BuildTable, KeySet, Copies;
    var many, once := BuildTable(q, Single, Copies(rows, n)), BuildTable(q, Single, rows);
    TableIsGroupBy(q, Single, Copies(rows, n));
    TableIsGroupBy(q, Single, rows);
    KeysOfCopies(q, rows, n);
    forall k, j | 0 <= j < |rs|
      ensures GroupFold(q, Single, Copies(rows, n), k, j) == NTimes(rs[j], GroupFold(q, Single, rows, k, j), n)
      ensures GroupFold(q, Single, Copies(rows, n), k, j) == GroupFold(q, Single, rows, k, j)
              <==> Harmless(rs[j], GroupFold(q, Single, rows, k, j), n)
    {
      GroupOfCopies(q, rs, rows, n, k, j);
    }
    if once.Err? {
      var k, j :| k in KeySet(q, rows) && 0 <= j < |q.calls| && GroupFold(q, Single, rows, k, j).Err?;
      ErrorStays(rs[j], GroupFold(q, Single, rows, k, j), n);
    } else if many.Ok? {
      SameTables(q, rows, Copies(rows, n), once.value, many.value);
    }
  }

  lemma ErrorStays(r: Reducer, once: Result<ScalarValue>, n: nat)
    requires once.Err?
    ensures NTimes(r, once, n).Err?
  {
  }

  // Two tables over the same keys are equal when every group folds the same.
  lemma SameTables(q: Query, rows: seq<Row>, copies: seq<Row>, t: Table, u: Table)
    requires IsGroupBy(q, Single, rows, t) && IsGroupBy(q, Single, copies, u)
    requires KeySet(q, copies) == KeySet(q, rows)
    ensures u == t <==> forall k, j :: k in KeySet(q, rows) && 0 <= j < |q.calls| ==>
                          GroupFold(q, Single, copies, k, j) == GroupFold(q, Single, rows, k, j)
  {
    hide GroupFold, KeySet;
    if forall k, j :: k in KeySet(q, rows) && 0 <= j < |q.calls| ==>
         GroupFold(q, Single, copies, k, j) == GroupFold(q, Single, rows, k, j)
    {
      forall k | k in t ensures u[k] == t[k] {
        forall j | 0 <= j < |q.calls| ensures u[k][j] == t[k][j] {
          assert GroupFold(q, Single, copies, k, j) == GroupFold(q, Single, rows, k, j);
        }
      }
    }
  }

  /** Final and final-partitioned mode build the same table, and so do all the other modes:
      those merge states, these accumulate values. */
  lemma {:induction false} ModesComeInTwo(q: Query, mode: Mode, other: Mode, rows: seq<Row>)
    requires mode in {Final, FinalPartitioned} <==> other in {Final, FinalPartitioned}
    ensures BuildTable(q, mode, rows) == BuildTable(q, other, rows)
  {
    if rows != [] {
      ModesComeInTwo(q, mode, other, rows[..|rows| - 1]);
      var t := BuildTable(q, other, rows[..|rows| - 1]);
      if t.Ok? {
        var row := rows[|rows| - 1];
        SameSteps(q, mode, other, StatesAt(q, t.value, KeyOf(q, row)), InputsOf(q, row), |q.calls|);
      }
    }
  }

  lemma {:induction false} SameSteps(q: Query, mode: Mode, other: Mode, states: seq<ScalarValue>, inputs: Row, n: nat)
    requires mode in {Final, FinalPartitioned} <==> other in {Final, FinalPartitioned}
    requires |states| == |inputs| == |q.calls| && n <= |q.calls|
    ensures StepStates(q, mode, states, inputs, n) == StepStates(q, other, states, inputs, n)
  {
    if n > 0 {
      SameSteps(q, mode, other, states, inputs, n - 1);
    }
  }

  // The planned run: the first of the n tasks to fail ends it with the partial stage's
  // error; otherwise the final stage's outcome is the run's.
  function RunOutcome(q: Query, f: Query, rows: seq<Row>, n: nat, shuffled: seq<Row>): Result<Table> {
    if n > 0 && BuildTable(q, Partial, rows).Err? then BuildTable(q, Partial, rows)
    else BuildTable(f, Final, shuffled)
  }

  // Each of the n tasks aggregated all the rows, and what they emitted was shuffled.
  ghost predicate AllTasksRan(q: Query, rs: seq<Reducer>, rows: seq<Row>, n: nat, pieces: seq<Piece>,
                              shuffled: seq<Row>)
  {
    && |pieces| == n && ArePieces(q, rs, pieces) && (forall i :: 0 <= i < n ==> pieces[i].rows == rows)
    && Shuffled(pieces, shuffled)
  }

  // Every group's values, n times over: the outcome exists exactly when they all do, and then
  // holds them. It is that of aggregating the rows once exactly when that fails or every
  // group's values are harmless n times over.
  ghost predicate IsNTimesOver(q: Query, rs: seq<Reducer>, rows: seq<Row>, n: nat, outcome: Result<Table>)
    requires |q.calls| == |rs|
  {
    && (outcome.Ok? <==> forall k, j :: k in KeySet(q, rows) && 0 <= j < |rs| ==>
                           NTimes(rs[j], GroupFold(q, Single, rows, k, j), n).Ok?)
    && (outcome.Ok? ==>
          && outcome.value.Keys == KeySet(q, rows) && IsTable(q, outcome.value)
          && forall k, j :: k in outcome.value && 0 <= j < |rs| ==>
               Ok(outcome.value[k][j]) == NTimes(rs[j], GroupFold(q, Single, rows, k, j), n))
    && (SameOutcome(outcome, BuildTable(q, Single, rows))
        <==> BuildTable(q, Single, rows).Err? || AllHarmless(q, rs, rows, n))
    && (n == 1 ==> SameOutcome(outcome, BuildTable(q, Single, rows)))
  }

  /** The planned two-stage aggregation, in which each of the n tasks aggregates the whole
      input. The run succeeds exactly when every group's values n times over exist, and then
      holds those. Its outcome is the single-node aggregation's exactly when that fails, as
      the first task then does, or every group's values are harmless n times over; so always
      for one task. Without any task it is only on no rows. */
  lemma EveryTaskRunsTheWholeInput(
    q: Query, f: Query, rs: seq<Reducer>, rows: seq<Row>, n: nat, pieces: seq<Piece>, shuffled: seq<Row>)
    requires AlwaysMerges(q, f, rs) && ExactRows(q, rs, rows)
    requires BuildTable(q, Partial, rows).Ok? || n == 0 ==> AllTasksRan(q, rs, rows, n, pieces, shuffled)
    ensures var outcome, single := RunOutcome(q, f, rows, n, shuffled), BuildTable(q, Single, rows);
            && (n >= 1 ==> IsNTimesOver(q, rs, rows, n, outcome))
            && (n >= 1 && single.Err? ==> outcome == single)
            && (n == 0 ==> (SameOutcome(outcome, single) <==> rows == []))
  {
    hide NTimes, Harmless, GroupFold, BuildTable, AllHarmless;
    ModesComeInTwo(q, Partial, Single, rows);
    if n >= 1 {
      TableOfCopies(q, rs, rows, n);
      OneTask(q, rs, rows);
    } else {
      NoTasks(q, rows);
    }
    if BuildTable(q, Partial, rows).Ok? || n == 0 {
      InputsAreCopies(pieces, rows);
      assert Shuffled(pieces, shuffled);
    }
  }

  lemma OneTask(q: Query, rs: seq<Reducer>, rows: seq<Row>)
    requires |q.calls| == |rs|
    ensures AllHarmless(q, rs, rows, 1)
  {
  }

  lemma NoTasks(q: Query, rows: seq<Row>)
    ensures SameOutcome(BuildTable(q, Single, []), BuildTable(q, Single, rows)) <==> rows == []
  {
    if rows != [] && BuildTable(q, Single, rows).Ok? {
      TableIsGroupBy(q, Single, rows);
      assert KeyOf(q, rows[|rows| - 1]) in BuildTable(q, Single, rows).value.Keys;
    }
  }

  // ---------------------------------------------------------------- where it goes wrong

  // A row folded into the table of a query with one call.
  lemma OneCall(q: Query, mode: Mode, t: Table, row: Row, state: ScalarValue)
    requires |q.calls| == 1 && IsTable(q, t)
    requires StepOf(mode, q.calls[0])(StatesAt(q, t, KeyOf(q, row))[0], q.calls[0].input(row)) == Ok(state)
    ensures AddRow(q, mode, t, row) == Ok(t[KeyOf(q, row) := [state]])
  {
    var start, inputs := StatesAt(q, t, KeyOf(q, row)), InputsOf(q, row);
    assert StepStates(q, mode, start, inputs, 0) == Ok(start);
    assert start[0 := state] == [state];
  }

  lemma FirstRow(q: Query, mode: Mode, row: Row)
    ensures BuildTable(q, mode, [row]) == AddRow(q, mode, map[], row)
  {
    assert [row][..0] == [];
    assert BuildTable(q, mode, [row][..0]) == Ok(map[]);
  }

  lemma OneRow(q: Query, mode: Mode, row: Row, state: ScalarValue)
    requires |q.calls| == 1
    requires StepOf(mode, q.calls[0])(q.calls[0].initial, q.calls[0].input(row)) == Ok(state)
    ensures BuildTable(q, mode, [row]) == Ok(map[KeyOf(q, row) := [state]])
  {
    FirstRow(q, mode, row);
    OneCall(q, mode, map[], row, state);
  }

  // SELECT COUNT(c0).
  function CountQuery(floats: FloatOps): Query {
    ColumnQuery([], [Reducer(Count, floats)], [0])
  }

  lemma CountQueryCounts(floats: FloatOps, row: Row)
    ensures var q := CountQuery(floats);
            |q.calls| == 1 && q.calls[0] == CallOf(Reducer(Count, floats), ColumnAt(0)) && KeyOf(q, row) == []
  {
    assert ColumnsAt([0])[0] == ColumnAt(0);
  }

  function OneGroup(row: Row, key: Row, state: ScalarValue): Piece {
    Piece([row], map[key := [state]], [key], [key + [state]])
  }

  lemma IsOneGroup(q: Query, row: Row, key: Row, state: ScalarValue)
    requires BuildTable(q, Partial, [row]) == Ok(map[key := [state]])
    ensures IsPiece(q, OneGroup(row, key, state))
  {
    hide BuildTable;
  }

  lemma TwicePartials(p: Piece)
    ensures PartialRows([p, p]) == p.emitted + p.emitted
  {
    assert [p, p][..1] == [p] && [p][..0] == [];
    assert PartialRows([p][..0]) == [];
    assert PartialRows([p]) == p.emitted;
  }

  lemma CountTwoPartials(floats: FloatOps)
    ensures BuildTable(CountQuery(floats), Final, [[Int32(1)], [Int32(1)]]) == Ok(map[[] := [Int32(2)]])
  {
    var q, partial: Row, once: Table := CountQuery(floats), [Int32(1)], map[[] := [Int32(1)]];
    CountQueryCounts(floats, partial);
    OneRow(q, Final, partial, Int32(1));
    assert [partial, partial][..1] == [partial];
    OneCall(q, Final, once, partial, Int32(2));
    assert once[[] := [Int32(2)]] == map[[] := [Int32(2)]];
  }

  /** COUNT over one row, run by two tasks, is 2: the columns are in place, both pieces
      are the single-mode table, and the final stage adds them up. */
  lemma CountedTwice(floats: FloatOps)
    ensures var q, row := CountQuery(floats), [Int32(7)];
            var piece := OneGroup(row, [], Int32(1));
            && TwoStages(q, q, [Reducer(Count, floats)]) && IsPiece(q, piece)
            && PartialRows([piece, piece]) == [[Int32(1)], [Int32(1)]]
            && BuildTable(q, Single, [row]) == Ok(map[[] := [Int32(1)]])
            && BuildTable(q, Final, [[Int32(1)], [Int32(1)]]) == Ok(map[[] := [Int32(2)]])
  {
    hide Reduces, ReadsPartialRows, IsPiece, BuildTable, PartialRows;
    var q, r, row := CountQuery(floats), Reducer(Count, floats), [Int32(7)];
    CallsReduce([], [r], ColumnsAt([0]));
    ReadsPartialRowsInPlace([], [r], [0]);
    CountQueryCounts(floats, row);
    OneRow(q, Single, row, Int32(1));
    OneRow(q, Partial, row, Int32(1));
    IsOneGroup(q, row, [], Int32(1));
    TwicePartials(OneGroup(row, [], Int32(1)));
    assert [] + [Int32(1)] == [Int32(1)];
    assert [[Int32(1)]] + [[Int32(1)]] == [[Int32(1)], [Int32(1)]];
    CountTwoPartials(floats);
  }

  /** A partial count of 2 is counted as one row by partial-reduce. */
  lemma PartialReduceMiscounts(floats: FloatOps)
    ensures var q, partials := CountQuery(floats), [[Int32(2)]];
            && BuildTable(q, PartialReduce, partials) == Ok(map[[] := [Int32(1)]])
            && BuildTable(q, Final, partials) == Ok(map[[] := [Int32(2)]])
  {
    CountQueryCounts(floats, [Int32(2)]);
    OneRow(CountQuery(floats), PartialReduce, [Int32(2)], Int32(1));
    OneRow(CountQuery(floats), Final, [Int32(2)], Int32(2));
  }

  // SELECT c1, MAX(c0) GROUP BY c1.
  function MaxQuery(floats: FloatOps): Query {
    ColumnQuery([1], [Reducer(Max, floats)], [0])
  }

  lemma MaxQueryReads(floats: FloatOps, a: ScalarValue, b: ScalarValue)
    ensures var q := MaxQuery(floats);
            && |q.calls| == 1 && q.calls[0] == CallOf(Reducer(Max, floats), ColumnAt(0))
            && KeyOf(q, [a, b]) == [b] && q.calls[0].input([a, b]) == a
  {
    assert ColumnsAt([0])[0] == ColumnAt(0);
    assert ColumnsAt([1])[0] == ColumnAt(1);
  }

  /** Out of place, the final stage takes the maximum for the key and the key for the
      maximum: the group 6 with maximum 5 becomes a group 5 with maximum 6. */
  lemma FinalReadsOutOfPlace(floats: FloatOps)
    ensures var q, row := MaxQuery(floats), [Int32(5), Int32(6)];
            && AllReduce(q, [Reducer(Max, floats)]) && !InPlace([1], [0])
            && IsPiece(q, OneGroup(row, [Int32(6)], Int32(5)))
            && PartialRows([OneGroup(row, [Int32(6)], Int32(5))]) == [[Int32(6), Int32(5)]]
            && BuildTable(q, Single, [row]) == Ok(map[[Int32(6)] := [Int32(5)]])
            && BuildTable(q, Final, [[Int32(6), Int32(5)]]) == Ok(map[[Int32(5)] := [Int32(6)]])
  {
    hide Reduces, IsPiece, BuildTable;
    var q := MaxQuery(floats);
    CallsReduce(ColumnsAt([1]), [Reducer(Max, floats)], ColumnsAt([0]));
    MaxQueryReads(floats, Int32(5), Int32(6));
    MaxQueryReads(floats, Int32(6), Int32(5));
    OneRow(q, Single, [Int32(5), Int32(6)], Int32(5));
    OneRow(q, Partial, [Int32(5), Int32(6)], Int32(5));
    OneRow(q, Final, [Int32(6), Int32(5)], Int32(6));
    var piece := OneGroup([Int32(5), Int32(6)], [Int32(6)], Int32(5));
    IsOneGroup(q, [Int32(5), Int32(6)], [Int32(6)], Int32(5));
    assert [Int32(6)] + [Int32(5)] == [Int32(6), Int32(5)];
    assert [piece][..0] == [];
    assert PartialRows([piece][..0]) == [];
  }

  /** Three copies of -128 sum to -128 in eight bits: harmless, and not zero. */
  lemma ThreeTimesMinimum(floats: FloatOps)
    ensures Harmless(Reducer(Sum, floats), Ok(Int8(-128)), 3) && !Harmless(Reducer(Sum, floats), Ok(Int8(-128)), 2)
    ensures NTimes(Reducer(Sum, floats), Ok(Int8(-128)), 3) == Ok(Int8(-128))
  {
    WrapUnique(-384, -128, -1, -0x80, 0x100);
    DivUnique(-256, 0x100, -1, 0);
    DivUnique(-128, 0x100, -1, 0x80);
  }
}
