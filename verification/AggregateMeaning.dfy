/** The aggregate operator computes what the logical aggregate means: the same rows, in
    whatever order it emits its groups. */
module AggregateMeaning {
  import opened Results
  import opened Scalars
  import opened Sequences
  import opened HashAggregate
  import opened TwoPhase
  import opened Batches
  import opened PushDownMeaning
  import opened AccumulatorLaws
  import opened ReducerMeaning
  import A = Accumulators
  import D = DistributedAggregate
  import J = HashJoinMeaning
  import L = LogicalPlan

  // ---------------------------------------------------------------- planning

  // AVG's running state is not modelled.
  predicate Modelled(aggs: seq<L.Expr>) {
    forall e :: e in aggs ==> e.AggregateFunction? && e.func != L.Avg
  }

  function KindOf(func: L.AggregateFunc): A.Kind
    requires func != L.Avg
  {
    match func
    case Min => A.Min
    case Max => A.Max
    case Sum => A.Sum
    case Count => A.Count
  }

  function ReducerOf(floats: A.FloatOps, e: L.Expr): A.Reducer {
    A.Reducer(if e.AggregateFunction? && e.func != L.Avg then KindOf(e.func) else A.Count, floats)
  }

  // A logical expression as the operator evaluates it.
  function CellOf(w: L.World, e: L.Expr, s: L.Schema): RowExpr {
    (row: Row) => match L.Eval(w, e, s, row) case Some(v) => v case None => Null
  }

  function CellsFrom(w: L.World, es: seq<L.Expr>, s: L.Schema): (out: seq<RowExpr>)
    ensures |out| == |es| && forall k :: 0 <= k < |es| ==> out[k] == CellOf(w, es[k], s)
  {
    seq(|es|, k requires 0 <= k < |es| => CellOf(w, es[k], s))
  }

  function PlanCalls(w: L.World, floats: A.FloatOps, aggs: seq<L.Expr>, args: seq<L.Expr>,
                     s: L.Schema): (calls: seq<Call>)
    requires |args| == |aggs|
    ensures |calls| == |aggs|
    ensures forall k :: 0 <= k < |calls| ==> calls[k] == CallOf(ReducerOf(floats, aggs[k]), CellOf(w, args[k], s))
  {
    seq(|aggs|, k requires 0 <= k < |aggs| => CallOf(ReducerOf(floats, aggs[k]), CellOf(w, args[k], s)))
  }

  function PlanAggregate(w: L.World, floats: A.FloatOps, group: seq<L.Expr>, aggs: seq<L.Expr>, args: seq<L.Expr>,
                         s: L.Schema)
    : Query
    requires |args| == |aggs|
  {
    Query(CellsFrom(w, group, s), PlanCalls(w, floats, aggs, args, s))
  }

  // The world reduces a group as the accumulators do.
  ghost predicate ReducesAlike(w: L.World, floats: A.FloatOps) {
    forall func: L.AggregateFunc, values: seq<ScalarValue> :: func != L.Avg ==>
      w.reduce(func, values) == Outcome(A.Fold(A.Reducer(KindOf(func), floats), values))
  }

  function Outcome<T>(r: Result<T>): Option<T> {
    match r case Ok(v) => Some(v) case Err(_) => None
  }

  /** What the aggregates of a group are, for values without floats: a number, a wrapped
      sum, and one of the values that none is below or above. */
  lemma AggregatesAre(w: L.World, floats: A.FloatOps, values: seq<ScalarValue>)
    requires ReducesAlike(w, floats) && forall v :: v in values ==> !IsFloat(v)
    ensures w.reduce(L.Count, values) == if NonNulls(values) < 0x8000_0000 then Some(Int32(NonNulls(values))) else None
    ensures w.reduce(L.Sum, values).Some? <==> Summable(values)
    ensures w.reduce(L.Sum, values).Some? ==> IsSum(values, w.reduce(L.Sum, values).value)
    ensures w.reduce(L.Min, values).Some? <==> Comparable(values)
    ensures w.reduce(L.Min, values).Some? ==> IsLeast(values, w.reduce(L.Min, values).value)
    ensures w.reduce(L.Max, values).Some? <==> Comparable(values)
    ensures w.reduce(L.Max, values).Some? ==> IsGreatest(values, w.reduce(L.Max, values).value)
  {
    hide A.Fold, IsSum, Summable, IsLeast, IsGreatest, Comparable;
    CountIsCardinality(A.Reducer(A.Count, floats), values);
    SumIsSum(A.Reducer(A.Sum, floats), values);
    MinMaxIsExtreme(A.Reducer(A.Min, floats), values);
    MinMaxIsExtreme(A.Reducer(A.Max, floats), values);
  }

  // ---------------------------------------------------------------- one row

  lemma {:induction false} EvalListCells(w: L.World, es: seq<L.Expr>, s: L.Schema, row: Row)
    requires L.EvalList(w, es, s, row).Some?
    ensures L.EvalList(w, es, s, row).value == CellsOf(CellsFrom(w, es, s), row)
  {
    var cells := CellsOf(CellsFrom(w, es, s), row);
    EvalListAt(w, es, s, row);
    forall k | 0 <= k < |es| ensures cells[k] == L.EvalList(w, es, s, row).value[k] {
    }
  }

  lemma {:induction false} EvalListAt(w: L.World, es: seq<L.Expr>, s: L.Schema, row: Row)
    requires L.EvalList(w, es, s, row).Some?
    ensures var v := L.EvalList(w, es, s, row).value;
            |v| == |es| && forall k :: 0 <= k < |es| ==> L.Eval(w, es[k], s, row) == Some(v[k])
  {
    if es != [] {
      EvalListAt(w, es[1..], s, row);
    }
  }

  lemma {:induction false} EvalRowsCells(w: L.World, es: seq<L.Expr>, r: L.Relation)
    requires L.EvalRows(w, es, r).Some?
    ensures var v := L.EvalRows(w, es, r).value;
            |v| == |r.rows| && forall i :: 0 <= i < |v| ==> v[i] == CellsOf(CellsFrom(w, es, r.schema), r.rows[i])
    decreases r.rows
  {
    if r.rows != [] {
      EvalListCells(w, es, r.schema, r.rows[0]);
      EvalRowsCells(w, es, r.(rows := r.rows[1..]));
    }
  }

  lemma {:induction false} ArgumentCount(aggs: seq<L.Expr>)
    requires L.AggregateArgs(aggs).Some?
    ensures |L.AggregateArgs(aggs).value| == |aggs|
  {
    if aggs != [] {
      ArgumentCount(aggs[1..]);
    }
  }

  // ---------------------------------------------------------------- one group

  // One column of a group's argument rows.
  function GroupColumn(members: seq<Row>, j: nat): seq<ScalarValue> {
    seq(|members|, i requires 0 <= i < |members| => if j < |members[i]| then members[i][j] else Null)
  }

  // The keys and arguments that a query reads off some rows.
  ghost predicate ReadOff(q: Query, rows: seq<Row>, keys: seq<Row>, args: seq<Row>) {
    && |keys| == |args| == |rows|
    && forall i :: 0 <= i < |rows| ==> keys[i] == KeyOf(q, rows[i]) && args[i] == InputsOf(q, rows[i])
  }

  lemma {:induction false} MembersAreValues(q: Query, rows: seq<Row>, keys: seq<Row>, args: seq<Row>, key: Row, j: nat)
    requires ReadOff(q, rows, keys, args) && j < |q.calls|
    ensures GroupColumn(L.MembersOf(keys, args, key), j) == MemberValues(q, rows, key, j)
  {
    if rows != [] {
      hide GroupColumn, MemberValues, KeyOf, InputsOf;
      MembersAreValues(q, rows[1..], keys[1..], args[1..], key, j);
      assert rows == [rows[0]] + rows[1..];
      MemberValuesAppend(q, [rows[0]], rows[1..], key, j);
      OneMember(q, rows[0], key, j);
      InputAt(q, rows[0], j);
      GroupColumnPush(args[0], L.MembersOf(keys[1..], args[1..], key), j);
    } else {
      NoColumn(j);
    }
  }

  lemma InputAt(q: Query, row: Row, j: nat)
    requires j < |q.calls|
    ensures |InputsOf(q, row)| == |q.calls| && InputsOf(q, row)[j] == q.calls[j].input(row)
  {
  }

  lemma NoColumn(j: nat)
    ensures GroupColumn([], j) == []
  {
  }

  lemma GroupColumnPush(first: Row, rest: seq<Row>, j: nat)
    requires j < |first|
    ensures GroupColumn([first] + rest, j) == [first[j]] + GroupColumn(rest, j)
    ensures [] + rest == rest
  {
  }

  lemma {:induction false} ReduceAt(w: L.World, aggs: seq<L.Expr>, members: seq<Row>, column: nat)
    requires Modelled(aggs)
    ensures var v := L.Reduce(w, aggs, members, column);
            && (v.Some? <==> forall j :: 0 <= j < |aggs| ==>
                  w.reduce(aggs[j].func, GroupColumn(members, column + j)).Some?)
            && (v.Some? ==> |v.value| == |aggs| && forall j :: 0 <= j < |aggs| ==>
                  w.reduce(aggs[j].func, GroupColumn(members, column + j)) == Some(v.value[j]))
  {
    if aggs != [] {
      assert aggs[0] in aggs;
      var rest := aggs[1..];
      ReduceAt(w, rest, members, column + 1);
      var tail := L.Reduce(w, rest, members, column + 1);
      forall j | 1 <= j < |aggs|
        ensures aggs[j] == rest[j - 1]
        ensures GroupColumn(members, column + j) == GroupColumn(members, (column + 1) + (j - 1))
      {
      }
      assert (forall j :: 0 <= j < |rest| ==> w.reduce(rest[j].func, GroupColumn(members, column + 1 + j)).Some?)
        <==> forall j :: 1 <= j < |aggs| ==> w.reduce(aggs[j].func, GroupColumn(members, column + j)).Some?
      by {
        forall j | 0 <= j < |rest| ensures rest[j] == aggs[j + 1] {
        }
      }
    }
  }

  // Each call reduces as its aggregate says.
  ghost predicate CallsFor(q: Query, floats: A.FloatOps, aggs: seq<L.Expr>) {
    && Modelled(aggs) && |q.calls| == |aggs|
    && forall j :: 0 <= j < |aggs| ==> q.calls[j] == CallOf(ReducerOf(floats, aggs[j]), q.calls[j].input)
  }

  // Reducing a group's argument rows is folding its values, call by call.
  lemma GroupReduces(w: L.World, floats: A.FloatOps, aggs: seq<L.Expr>, q: Query, rows: seq<Row>, keys: seq<Row>,
                     args: seq<Row>, key: Row)
    requires ReducesAlike(w, floats) && ReadOff(q, rows, keys, args) && CallsFor(q, floats, aggs)
    ensures var v := L.Reduce(w, aggs, L.MembersOf(keys, args, key), 0);
            && (v.Some? <==> forall j :: 0 <= j < |aggs| ==> GroupFold(q, Single, rows, key, j).Ok?)
            && (v.Some? ==> |v.value| == |aggs| && forall j :: 0 <= j < |aggs| ==>
                  GroupFold(q, Single, rows, key, j) == Ok(v.value[j]))
  {
    hide GroupColumn, MemberValues, L.MembersOf, L.Reduce, FoldWith;
    var members := L.MembersOf(keys, args, key);
    ReduceAt(w, aggs, members, 0);
    forall j | 0 <= j < |aggs|
      ensures w.reduce(aggs[j].func, GroupColumn(members, 0 + j)) == Outcome(GroupFold(q, Single, rows, key, j))
    {
      OneCallReduces(w, floats, aggs, q, rows, key, j);
      MembersAreValues(q, rows, keys, args, key, j);
    }
  }

  lemma OneCallReduces(w: L.World, floats: A.FloatOps, aggs: seq<L.Expr>, q: Query, rows: seq<Row>, key: Row, j: nat)
    requires ReducesAlike(w, floats) && CallsFor(q, floats, aggs) && j < |aggs|
    ensures aggs[j].AggregateFunction?
    ensures w.reduce(aggs[j].func, MemberValues(q, rows, key, j)) == Outcome(GroupFold(q, Single, rows, key, j))
  {
    assert aggs[j] in aggs;
    CallAccumulates(ReducerOf(floats, aggs[j]), q.calls[j].input, MemberValues(q, rows, key, j));
  }

  // ---------------------------------------------------------------- all groups

  lemma {:induction false} GroupRowsAt(w: L.World, aggs: seq<L.Expr>, keys: seq<Row>, args: seq<Row>, order: seq<Row>)
    requires |keys| == |args|
    ensures var g := L.GroupRows(w, aggs, keys, args, order);
            && (g.Some? <==> forall i :: 0 <= i < |order| ==>
                  L.Reduce(w, aggs, L.MembersOf(keys, args, order[i]), 0).Some?)
            && (g.Some? ==> |g.value| == |order| && forall i :: 0 <= i < |order| ==>
                  g.value[i] == order[i] + L.Reduce(w, aggs, L.MembersOf(keys, args, order[i]), 0).value)
    decreases order
  {
    if order != [] {
      hide L.Reduce, L.MembersOf;
      var rest := order[1..];
      GroupRowsAt(w, aggs, keys, args, rest);
      assert forall i :: 1 <= i < |order| ==> order[i] == rest[i - 1];
      assert (forall i :: 0 <= i < |order| ==> L.Reduce(w, aggs, L.MembersOf(keys, args, order[i]), 0).Some?)
        <==> L.Reduce(w, aggs, L.MembersOf(keys, args, order[0]), 0).Some?
             && forall i :: 0 <= i < |rest| ==> L.Reduce(w, aggs, L.MembersOf(keys, args, rest[i]), 0).Some?
      by {
        assert forall i :: 0 <= i < |rest| ==> rest[i] == order[i + 1];
      }
    }
  }

  lemma {:induction false} FirstOccurrencesOnce(keys: seq<Row>)
    ensures Distinct(L.FirstOccurrences(keys))
    ensures forall k :: k in L.FirstOccurrences(keys) <==> k in keys
  {
    if keys != [] {
      var front, last := keys[..|keys| - 1], keys[|keys| - 1];
      assert keys == front + [last];
      FirstOccurrencesOnce(front);
    }
  }

  lemma KeysReadOff(q: Query, rows: seq<Row>, keys: seq<Row>, args: seq<Row>, key: Row)
    requires ReadOff(q, rows, keys, args)
    ensures key in keys <==> key in KeySet(q, rows)
  {
    KeySetMember(q, rows, key);
    if key in keys {
      var i :| 0 <= i < |keys| && keys[i] == key;
      assert rows[i] in rows && KeyOf(q, rows[i]) == key;
    }
    if key in KeySet(q, rows) {
      var row :| row in rows && KeyOf(q, row) == key;
      var i :| 0 <= i < |rows| && rows[i] == row;
      assert keys[i] == key;
    }
  }

  /** Grouping by first occurrence lists the operator's table, and fails when it does. */
  lemma GroupRowsList(w: L.World, floats: A.FloatOps, aggs: seq<L.Expr>, q: Query, rows: seq<Row>, keys: seq<Row>,
                      args: seq<Row>)
    requires ReducesAlike(w, floats) && ReadOff(q, rows, keys, args) && CallsFor(q, floats, aggs)
    ensures var order, table := L.FirstOccurrences(keys), BuildTable(q, Single, rows);
            var g := L.GroupRows(w, aggs, keys, args, order);
            && (g.Some? <==> table.Ok?)
            && (g.Some? ==> Lists(order, table.value, g.value))
  {
    hide L.GroupRows, L.Reduce, L.MembersOf, L.FirstOccurrences, GroupFold, KeySet, BuildTable, ReducesAlike;
    var order := L.FirstOccurrences(keys);
    var g := L.GroupRows(w, aggs, keys, args, order);
    GroupRowsAt(w, aggs, keys, args, order);
    FirstOccurrencesOnce(keys);
    TableIsGroupBy(q, Single, rows);
    forall key
      ensures key in order <==> key in KeySet(q, rows)
    {
      KeysReadOff(q, rows, keys, args, key);
    }
    forall key
      ensures var v := L.Reduce(w, aggs, L.MembersOf(keys, args, key), 0);
              && (v.Some? <==> forall j :: 0 <= j < |aggs| ==> GroupFold(q, Single, rows, key, j).Ok?)
              && (v.Some? ==> |v.value| == |aggs| && forall j :: 0 <= j < |aggs| ==>
                    GroupFold(q, Single, rows, key, j) == Ok(v.value[j]))
    {
      GroupReduces(w, floats, aggs, q, rows, keys, args, key);
    }
    var table := BuildTable(q, Single, rows);
    if g.Some? {
      forall k, j | k in KeySet(q, rows) && 0 <= j < |q.calls| ensures GroupFold(q, Single, rows, k, j).Ok? {
        var i :| 0 <= i < |order| && order[i] == k;
      }
      forall i | 0 <= i < |order| ensures order[i] in table.value && g.value[i] == order[i] + table.value[order[i]] {
        assert order[i] in order;
        var v := L.Reduce(w, aggs, L.MembersOf(keys, args, order[i]), 0).value;
        assert forall j :: 0 <= j < |aggs| ==> Ok(table.value[order[i]][j]) == GroupFold(q, Single, rows, order[i], j);
        assert v == table.value[order[i]];
      }
    } else if table.Ok? {
      forall i | 0 <= i < |order| ensures L.Reduce(w, aggs, L.MembersOf(keys, args, order[i]), 0).Some? {
        assert order[i] in order;
      }
      assert false;
    }
  }

  // ---------------------------------------------------------------- the planned operator

  // Everything the aggregate reads can be evaluated on every row.
  ghost predicate Evaluates(w: L.World, group: seq<L.Expr>, aggs: seq<L.Expr>, r: L.Relation) {
    && L.AggregateArgs(aggs).Some? && L.AllBound(group, r.schema) && L.AllBound(L.AggregateArgs(aggs).value, r.schema)
    && L.EvalRows(w, group, r).Some? && L.EvalRows(w, L.AggregateArgs(aggs).value, r).Some?
  }

  lemma ReadsOff(w: L.World, floats: A.FloatOps, group: seq<L.Expr>, aggs: seq<L.Expr>, r: L.Relation)
    requires Evaluates(w, group, aggs, r)
    ensures var args := L.AggregateArgs(aggs).value;
            && |args| == |aggs|
            && ReadOff(PlanAggregate(w, floats, group, aggs, args, r.schema), r.rows,
                       L.EvalRows(w, group, r).value, L.EvalRows(w, args, r).value)
  {
    var args := L.AggregateArgs(aggs).value;
    ArgumentCount(aggs);
    EvalRowsCells(w, group, r);
    EvalRowsCells(w, args, r);
    assert InputExprs(PlanAggregate(w, floats, group, aggs, args, r.schema)) == CellsFrom(w, args, r.schema);
  }

  /** Building the table from the rows of the input means the logical aggregate: it exists
      exactly when the aggregate has a meaning, and any listing of it is a permutation of
      that meaning's rows. */
  lemma TableMeans(w: L.World, floats: A.FloatOps, input: L.Plan, group: seq<L.Expr>, aggs: seq<L.Expr>)
    requires L.WellTyped(w) && ReducesAlike(w, floats) && Modelled(aggs) && L.Denote(w, input).Some?
    requires Evaluates(w, group, aggs, L.Denote(w, input).value)
    requires L.SchemaOf(w.text, L.Aggregate(input, group, aggs)).Ok?
    ensures var r, out := L.Denote(w, input).value, L.Denote(w, L.Aggregate(input, group, aggs));
            && |L.AggregateArgs(aggs).value| == |aggs|
            && var q := PlanAggregate(w, floats, group, aggs, L.AggregateArgs(aggs).value, r.schema);
            && var table := BuildTable(q, Single, r.rows);
            && (table.Ok? <==> out.Some?)
            && (table.Ok? ==>
                  forall order, rows :: Lists(order, table.value, rows) ==> multiset(rows) == multiset(out.value.rows))
  {
    hide L.Denote, L.EvalRows, L.GroupRows, L.FirstOccurrences, BuildTable, Lists, ReadOff, CallsFor, ReducesAlike;
    var r, args := L.Denote(w, input).value, L.AggregateArgs(aggs).value;
    ReadsOff(w, floats, group, aggs, r);
    var q := PlanAggregate(w, floats, group, aggs, args, r.schema);
    var keys, values := L.EvalRows(w, group, r).value, L.EvalRows(w, args, r).value;
    CallsPlanned(w, floats, group, aggs, args, r.schema);
    GroupRowsList(w, floats, aggs, q, r.rows, keys, values);
    SameLengths(q, r.rows, keys, values);
    DenoteGroups(w, input, group, aggs, r, keys, values);
    var table, first := BuildTable(q, Single, r.rows), L.FirstOccurrences(keys);
    if table.Ok? {
      var g := L.GroupRows(w, aggs, keys, values, first).value;
      forall order, rows | Lists(order, table.value, rows) ensures multiset(rows) == multiset(g) {
        ListingsPermute(table.value, order, rows, first, g);
      }
    }
  }

  lemma SameLengths(q: Query, rows: seq<Row>, keys: seq<Row>, args: seq<Row>)
    requires ReadOff(q, rows, keys, args)
    ensures |keys| == |args| == |rows|
  {
  }

  lemma CallsPlanned(w: L.World, floats: A.FloatOps, group: seq<L.Expr>, aggs: seq<L.Expr>, args: seq<L.Expr>,
                     s: L.Schema)
    requires Modelled(aggs) && |args| == |aggs|
    ensures CallsFor(PlanAggregate(w, floats, group, aggs, args, s), floats, aggs)
  {
  }

  // What the meaning of an aggregate comes to once its expressions are evaluated.
  lemma DenoteGroups(w: L.World, input: L.Plan, group: seq<L.Expr>, aggs: seq<L.Expr>, r: L.Relation,
                     keys: seq<Row>, values: seq<Row>)
    requires L.Denote(w, input) == Some(r) && Evaluates(w, group, aggs, r)
    requires L.EvalRows(w, group, r) == Some(keys) && L.EvalRows(w, L.AggregateArgs(aggs).value, r) == Some(values)
    requires L.SchemaOf(w.text, L.Aggregate(input, group, aggs)).Ok? && |keys| == |values|
    ensures var out, g := L.Denote(w, L.Aggregate(input, group, aggs)),
                            L.GroupRows(w, aggs, keys, values, L.FirstOccurrences(keys));
            out.Some? == g.Some? && (g.Some? ==> out.value.rows == g.value)
  {
    hide L.GroupRows, L.FirstOccurrences, L.AllBound, L.EvalRows, L.AggregateArgs;
  }

  /** Planning and running an aggregate over an input that yields what its plan means
      succeeds exactly when the aggregate has a meaning, and then yields that meaning's rows
      in some order. */
  method RunPlannedAggregate(w: L.World, floats: A.FloatOps, input: L.Plan, group: seq<L.Expr>, aggs: seq<L.Expr>,
                             schema: L.Schema, batches: seq<RecordBatch>)
    returns (r: Result<RecordBatch>)
    requires L.WellTyped(w) && ReducesAlike(w, floats) && Modelled(aggs) && J.Yields(w, input, batches)
    requires schema == L.Denote(w, input).value.schema && Evaluates(w, group, aggs, L.Denote(w, input).value)
    requires L.SchemaOf(w.text, L.Aggregate(input, group, aggs)).Ok? && |group| + |aggs| > 0
    ensures var out := L.Denote(w, L.Aggregate(input, group, aggs));
            && (r.Ok? <==> out.Some?)
            && (r.Ok? ==> Valid(r.value) && multiset(Rows(r.value)) == multiset(out.value.rows))
  {
    TableMeans(w, floats, input, group, aggs);
    BatchRowsFlatten(batches);
    var q := PlanAggregate(w, floats, group, aggs, L.AggregateArgs(aggs).value, schema);
    ghost var order;
    r, order := D.AggregateBatch(q, Single, BatchRows(batches));
  }
}
