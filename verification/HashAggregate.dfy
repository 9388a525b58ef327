/** Group-by hash aggregation: a table of running states per group key, filled row by
    row and emitted as one row per key. The operator reaches its accumulators through
    their interface only, so it is modelled over any of them. */
module HashAggregate {
  import opened Results
  import opened Scalars
  import opened Sequences

  // A row-wise expression, evaluated column by column over a batch.
  type RowExpr = Row -> ScalarValue

  type StepFunction = (ScalarValue, ScalarValue) -> Result<ScalarValue>

  // An aggregate call: the expression it reads and the accumulator it creates.
  datatype Call = Call(input: RowExpr, initial: ScalarValue, accumulate: StepFunction, merge: StepFunction)

  datatype Query = Query(group: seq<RowExpr>, calls: seq<Call>)

  datatype Mode = Partial | PartialReduce | Final | FinalPartitioned | Single | SinglePartitioned

  // Only the final modes merge incoming partial states; all others accumulate.
  function StepOf(mode: Mode, c: Call): StepFunction {
    if mode == Final || mode == FinalPartitioned then c.merge else c.accumulate
  }

  // The cells some expressions compute on one row.
  function CellsOf(es: seq<RowExpr>, row: Row): (r: Row)
    ensures |r| == |es| && forall i :: 0 <= i < |es| ==> r[i] == es[i](row)
  {
    if es == [] then [] else CellsOf(es[..|es| - 1], row) + [es[|es| - 1](row)]
  }

  function InputExprs(q: Query): (r: seq<RowExpr>)
    ensures |r| == |q.calls| && forall i :: 0 <= i < |r| ==> r[i] == q.calls[i].input
  {
    seq(|q.calls|, i requires 0 <= i < |q.calls| => q.calls[i].input)
  }

  function KeyOf(q: Query, row: Row): Row {
    CellsOf(q.group, row)
  }

  function InputsOf(q: Query, row: Row): Row {
    CellsOf(InputExprs(q), row)
  }

  // ---------------------------------------------------------------- the table as a function

  type Table = map<Row, seq<ScalarValue>>

  ghost predicate IsTable(q: Query, t: Table) {
    forall k :: k in t ==> |t[k]| == |q.calls|
  }

  function Fresh(q: Query): (r: seq<ScalarValue>)
    ensures |r| == |q.calls|
  {
    seq(|q.calls|, i requires 0 <= i < |q.calls| => q.calls[i].initial)
  }

  // The states of a group after one of its rows: the first failing call fails the row.
  function StepStates(q: Query, mode: Mode, states: seq<ScalarValue>, inputs: Row,
                      n: nat): (out: Result<seq<ScalarValue>>)
    requires |states| == |inputs| == |q.calls| && n <= |q.calls|
    ensures out.Ok? ==> |out.value| == |q.calls|
  {
    if n == 0 then Ok(states)
    else
      var before :- StepStates(q, mode, states, inputs, n - 1);
      var s :- StepOf(mode, q.calls[n - 1])(before[n - 1], inputs[n - 1]);
      Ok(before[n - 1 := s])
  }

  function StatesAt(q: Query, t: Table, key: Row): (r: seq<ScalarValue>)
    requires IsTable(q, t)
    ensures |r| == |q.calls|
  {
    if key in t then t[key] else Fresh(q)
  }

  // One row folded into its group's states.
  function AddRow(q: Query, mode: Mode, t: Table, row: Row): (out: Result<Table>)
    requires IsTable(q, t)
    ensures out.Ok? ==> IsTable(q, out.value)
  {
    var states :- StepStates(q, mode, StatesAt(q, t, KeyOf(q, row)), InputsOf(q, row), |q.calls|);
    Ok(t[KeyOf(q, row) := states])
  }

  function BuildTable(q: Query, mode: Mode, rows: seq<Row>): (out: Result<Table>)
    ensures out.Ok? ==> IsTable(q, out.value)
  {
    if rows == [] then Ok(map[])
    else
      var t :- BuildTable(q, mode, rows[..|rows| - 1]);
      AddRow(q, mode, t, rows[|rows| - 1])
  }

  // One output row per key: the key's values, then its states.
  ghost predicate Lists(order: seq<Row>, t: Table, rows: seq<Row>) {
    && Distinct(order)
    && (forall k :: k in order <==> k in t)
    && |rows| == |order|
    && forall i :: 0 <= i < |order| ==> order[i] in t && rows[i] == order[i] + t[order[i]]
  }

  // ---------------------------------------------------------------- the operator

  method AccumulateRow(q: Query, mode: Mode, states: seq<ScalarValue>, inputs: Row)
    returns (r: Result<seq<ScalarValue>>)
    requires |states| == |inputs| == |q.calls|
    ensures r == StepStates(q, mode, states, inputs, |q.calls|)
  {
    var accumulators := states;
    for c := 0 to |q.calls|
      invariant StepStates(q, mode, states, inputs, c) == Ok(accumulators)
    {
      var s := if mode == Final || mode == FinalPartitioned then q.calls[c].merge(accumulators[c], inputs[c])
               else q.calls[c].accumulate(accumulators[c], inputs[c]);
      if s.Err? {
        StepFails(q, mode, states, inputs, c + 1, |q.calls|);
        return Err(s.error);
      }
      accumulators := accumulators[c := s.value];
    }
    return Ok(accumulators);
  }

  lemma {:induction false} StepFails(q: Query, mode: Mode, states: seq<ScalarValue>, inputs: Row, m: nat, n: nat)
    requires |states| == |inputs| == |q.calls| && m <= n <= |q.calls|
    requires StepStates(q, mode, states, inputs, m).Err?
    ensures StepStates(q, mode, states, inputs, n) == StepStates(q, mode, states, inputs, m)
  {
    if m < n {
      StepFails(q, mode, states, inputs, m, n - 1);
    }
  }

  method AddToGroup(q: Query, mode: Mode, table: Table, key: Row, inputs: Row, ghost row: Row)
    returns (r: Result<Table>)
    requires IsTable(q, table) && key == KeyOf(q, row) && inputs == InputsOf(q, row)
    ensures r == AddRow(q, mode, table, row)
  {
    var accumulators := if key in table then table[key] else Fresh(q);
    var updated :- AccumulateRow(q, mode, accumulators, inputs);
    return Ok(table[key := updated]);
  }

  // One column per expression, each as long as the batch.
  method EvaluateColumns(es: seq<RowExpr>, batch: seq<Row>) returns (columns: seq<seq<ScalarValue>>)
    ensures |columns| == |es| && forall c :: 0 <= c < |columns| ==> |columns[c]| == |batch|
    ensures forall i :: 0 <= i < |batch| ==> CellsAt(columns, i) == CellsOf(es, batch[i])
  {
    columns := [];
    for c := 0 to |es|
      invariant |columns| == c
      invariant forall d :: 0 <= d < c ==> |columns[d]| == |batch|
      invariant forall d, i :: 0 <= d < c && 0 <= i < |batch| ==> columns[d][i] == es[d](batch[i])
    {
      var e := es[c];
      columns := columns + [seq(|batch|, i requires 0 <= i < |batch| => e(batch[i]))];
    }
  }

  function CellsAt(columns: seq<seq<ScalarValue>>, i: nat): (r: Row)
    requires forall c :: 0 <= c < |columns| ==> i < |columns[c]|
    ensures |r| == |columns| && forall c :: 0 <= c < |r| ==> r[c] == columns[c][i]
  {
    seq(|columns|, c requires 0 <= c < |columns| => columns[c][i])
  }

  // The table after some more rows, taken from the front as the operator sees them.
  function BuildFrom(q: Query, mode: Mode, t: Table, rows: seq<Row>): (out: Result<Table>)
    requires IsTable(q, t)
    ensures out.Ok? ==> IsTable(q, out.value)
    decreases rows
  {
    if rows == [] then Ok(t)
    else
      var next :- AddRow(q, mode, t, rows[0]);
      BuildFrom(q, mode, next, rows[1..])
  }

  lemma {:induction false} BuildFromAppend(q: Query, mode: Mode, t: Table, a: seq<Row>, b: seq<Row>)
    requires IsTable(q, t)
    ensures BuildFrom(q, mode, t, a + b) ==
            var first := BuildFrom(q, mode, t, a);
            if first.Err? then first else BuildFrom(q, mode, first.value, b)
    decreases a
  {
    if a == [] {
      assert a + b == b;
    } else {
      assert (a + b)[1..] == a[1..] + b;
      var next := AddRow(q, mode, t, a[0]);
      if next.Ok? {
        BuildFromAppend(q, mode, next.value, a[1..], b);
      }
    }
  }

  lemma {:induction false} BuildFromStart(q: Query, mode: Mode, rows: seq<Row>)
    ensures BuildFrom(q, mode, map[], rows) == BuildTable(q, mode, rows)
  {
    if rows != [] {
      hide AddRow, BuildFrom, IsTable;
      var front, row := rows[..|rows| - 1], rows[|rows| - 1];
      BuildFromStart(q, mode, front);
      BuildFromAppend(q, mode, map[], front, [row]);
      assert rows == front + [row];
      var t := BuildTable(q, mode, front);
      if t.Ok? {
        BuildFromOne(q, mode, t.value, row);
      }
    }
  }

  lemma BuildFromOne(q: Query, mode: Mode, t: Table, row: Row)
    requires IsTable(q, t)
    ensures BuildFrom(q, mode, t, [row]) == AddRow(q, mode, t, row)
  {
    assert [row][1..] == [];
    var next := AddRow(q, mode, t, row);
    if next.Ok? {
      assert BuildFrom(q, mode, next.value, [row][1..]) == next;
    }
  }

  // Evaluates the expressions once per batch, then folds its rows into the table.
  method AddBatch(q: Query, mode: Mode, table: Table, batch: seq<Row>) returns (r: Result<Table>)
    requires IsTable(q, table)
    ensures r == BuildFrom(q, mode, table, batch)
  {
    var keyColumns := EvaluateColumns(q.group, batch);
    var inputColumns := EvaluateColumns(InputExprs(q), batch);
    var t := table;
    for i := 0 to |batch|
      invariant IsTable(q, t) && BuildFrom(q, mode, table, batch) == BuildFrom(q, mode, t, batch[i..])
    {
      var key := CellsAt(keyColumns, i);
      var inputs := CellsAt(inputColumns, i);
      assert batch[i..][1..] == batch[i + 1..];
      t :- AddToGroup(q, mode, t, key, inputs, batch[i]);
    }
    return Ok(t);
  }

  // The hash map's iteration order is arbitrary.
  method EmitRows(table: Table) returns (rows: seq<Row>, ghost order: seq<Row>)
    ensures Lists(order, table, rows)
  {
    rows, order := [], [];
    var keys := table.Keys;
    while keys != {}
      invariant keys <= table.Keys && Distinct(order) && (forall k :: k in order <==> k in table.Keys - keys)
      invariant |rows| == |order|
      invariant forall i :: 0 <= i < |order| ==> order[i] in table && rows[i] == order[i] + table[order[i]]
      decreases |keys|
    {
      var key :| key in keys;
      assert key !in order;
      rows := rows + [key + table[key]];
      order := order + [key];
      keys := keys - {key};
    }
  }

  /** The blocking aggregation over a batched input. It fails exactly when the table of
      the flattened rows does, and otherwise emits that table's entries, so how rows are
      cut into batches makes no difference. */
  method Execute(q: Query, mode: Mode, batches: seq<seq<Row>>) returns (r: Result<seq<Row>>, ghost order: seq<Row>)
    ensures r.Ok? == BuildTable(q, mode, Flatten(batches)).Ok?
    ensures r.Err? ==> r.error == BuildTable(q, mode, Flatten(batches)).error
    ensures r.Ok? ==> Lists(order, BuildTable(q, mode, Flatten(batches)).value, r.value)
  {
    order := [];
    BuildFromStart(q, mode, Flatten(batches));
    var table: Table := map[];
    for b := 0 to |batches|
      invariant IsTable(q, table)
      invariant BuildFrom(q, mode, map[], Flatten(batches)) == BuildFrom(q, mode, table, Flatten(batches[b..]))
    {
      assert batches[b..][1..] == batches[b + 1..];
      BuildFromAppend(q, mode, table, batches[b], Flatten(batches[b + 1..]));
      var updated := AddBatch(q, mode, table, batches[b]);
      if updated.Err? {
        return Err(updated.error), [];
      }
      table := updated.value;
    }
    var rows;
    rows, order := EmitRows(table);
    return Ok(rows), order;
  }

  // ---------------------------------------------------------------- group-by

  // What one row gives call `j` of a group: its input if it is a member.
  function MemberValue(q: Query, row: Row, key: Row, j: nat): seq<ScalarValue>
    requires j < |q.calls|
  {
    if KeyOf(q, row) == key then [q.calls[j].input(row)] else []
  }

  // The inputs of call `j` over one group's rows, in input order.
  function MemberValues(q: Query, rows: seq<Row>, key: Row, j: nat): seq<ScalarValue>
    requires j < |q.calls|
  {
    if rows == [] then []
    else
      MemberValues(q, rows[..|rows| - 1], key, j) + MemberValue(q, rows[|rows| - 1], key, j)
  }

  function FoldWith(step: StepFunction, initial: ScalarValue, values: seq<ScalarValue>): Result<ScalarValue> {
    if values == [] then Ok(initial)
    else
      var s :- FoldWith(step, initial, values[..|values| - 1]);
      step(s, values[|values| - 1])
  }

  function GroupFold(q: Query, mode: Mode, rows: seq<Row>, key: Row, j: nat): Result<ScalarValue>
    requires j < |q.calls|
  {
    FoldWith(StepOf(mode, q.calls[j]), q.calls[j].initial, MemberValues(q, rows, key, j))
  }

  function KeySet(q: Query, rows: seq<Row>): set<Row> {
    if rows == [] then {} else KeySet(q, rows[..|rows| - 1]) + {KeyOf(q, rows[|rows| - 1])}
  }

  ghost predicate EveryGroupFolds(q: Query, mode: Mode, rows: seq<Row>) {
    forall k, j :: k in KeySet(q, rows) && 0 <= j < |q.calls| ==> GroupFold(q, mode, rows, k, j).Ok?
  }

  // The table that grouping the whole input first and reducing each group would give.
  ghost predicate IsGroupBy(q: Query, mode: Mode, rows: seq<Row>, t: Table) {
    && t.Keys == KeySet(q, rows)
    && IsTable(q, t)
    && forall k, j :: k in t && 0 <= j < |q.calls| ==> GroupFold(q, mode, rows, k, j) == Ok(t[k][j])
  }

  lemma {:induction false} NoMembers(q: Query, rows: seq<Row>, key: Row, j: nat)
    requires j < |q.calls| && key !in KeySet(q, rows)
    ensures MemberValues(q, rows, key, j) == []
  {
    if rows != [] {
      NoMembers(q, rows[..|rows| - 1], key, j);
    }
  }

  // One more row extends its own group's fold by one step and no other.
  lemma GroupFoldStep(q: Query, mode: Mode, rows: seq<Row>, key: Row, j: nat)
    requires rows != [] && j < |q.calls|
    ensures var last := |rows| - 1;
            var before := GroupFold(q, mode, rows[..last], key, j);
            GroupFold(q, mode, rows, key, j) ==
              if KeyOf(q, rows[last]) != key || before.Err? then before
              else StepOf(mode, q.calls[j])(before.value, q.calls[j].input(rows[last]))
  {
    var last := |rows| - 1;
    var values := MemberValues(q, rows[..last], key, j);
    var v := q.calls[j].input(rows[last]);
    if KeyOf(q, rows[last]) == key {
      assert (values + [v])[..|values + [v]| - 1] == values;
    } else {
      assert MemberValues(q, rows, key, j) == values;
    }
  }

  // Each call's state is stepped on its own.
  lemma {:induction false} StepStatesPointwise(q: Query, mode: Mode, states: seq<ScalarValue>, inputs: Row, n: nat)
    requires |states| == |inputs| == |q.calls| && n <= |q.calls|
    ensures var out := StepStates(q, mode, states, inputs, n);
            && (out.Ok? <==> forall i :: 0 <= i < n ==> StepOf(mode, q.calls[i])(states[i], inputs[i]).Ok?)
            && (out.Ok? ==> forall i :: 0 <= i < |q.calls| ==>
                  out.value[i] == if i < n then StepOf(mode, q.calls[i])(states[i], inputs[i]).value else states[i])
  {
    if n > 0 {
      StepStatesPointwise(q, mode, states, inputs, n - 1);
    }
  }

  /** Hash aggregation refines group-by: it fails exactly when some group's fold does,
      and otherwise holds one entry per distinct key, with each value the fold of that
      group's inputs in input order. */
  lemma {:induction false} TableIsGroupBy(q: Query, mode: Mode, rows: seq<Row>)
    ensures BuildTable(q, mode, rows).Ok? <==> EveryGroupFolds(q, mode, rows)
    ensures BuildTable(q, mode, rows).Ok? ==> IsGroupBy(q, mode, rows, BuildTable(q, mode, rows).value)
  {
    if rows != [] {
      var front := rows[..|rows| - 1];
      TableIsGroupBy(q, mode, front);
      if BuildTable(q, mode, front).Err? {
        FailureStays(q, mode, rows);
      } else {
        LastRow(q, mode, rows, BuildTable(q, mode, front).value);
      }
    }
  }

  lemma FailureStays(q: Query, mode: Mode, rows: seq<Row>)
    requires rows != [] && !EveryGroupFolds(q, mode, rows[..|rows| - 1])
    ensures !EveryGroupFolds(q, mode, rows)
  {
    var front := rows[..|rows| - 1];
    var k, j :| k in KeySet(q, front) && 0 <= j < |q.calls| && GroupFold(q, mode, front, k, j).Err?;
    GroupFoldStep(q, mode, rows, k, j);
    assert k in KeySet(q, rows);
  }

  lemma LastRowFolds(q: Query, mode: Mode, rows: seq<Row>, t: Table, k: Row, j: nat)
    requires rows != [] && j < |q.calls| && IsGroupBy(q, mode, rows[..|rows| - 1], t)
    ensures var row := rows[|rows| - 1];
            GroupFold(q, mode, rows, k, j) ==
              if k == KeyOf(q, row) then StepOf(mode, q.calls[j])(StatesAt(q, t, k)[j], InputsOf(q, row)[j])
              else GroupFold(q, mode, rows[..|rows| - 1], k, j)
  {
    GroupFoldStep(q, mode, rows, k, j);
    if k !in t {
      NoMembers(q, rows[..|rows| - 1], k, j);
    }
  }

  lemma LastRow(q: Query, mode: Mode, rows: seq<Row>, t: Table)
    requires rows != []
    requires EveryGroupFolds(q, mode, rows[..|rows| - 1]) && IsGroupBy(q, mode, rows[..|rows| - 1], t)
    ensures var out := AddRow(q, mode, t, rows[|rows| - 1]);
            && (out.Ok? <==> EveryGroupFolds(q, mode, rows))
            && (out.Ok? ==> IsGroupBy(q, mode, rows, out.value))
  {
    var row := rows[|rows| - 1];
    var key := KeyOf(q, row);
    var out := StepStates(q, mode, StatesAt(q, t, key), InputsOf(q, row), |q.calls|);
    assert key in KeySet(q, rows);
    if out.Err? {
      LastRowFails(q, mode, rows, t);
    } else {
      LastRowGroups(q, mode, rows, t, out.value);
      GroupByFolds(q, mode, rows, t[key := out.value]);
    }
  }

  lemma GroupByFolds(q: Query, mode: Mode, rows: seq<Row>, t: Table)
    requires IsGroupBy(q, mode, rows, t)
    ensures EveryGroupFolds(q, mode, rows)
  {
  }

  lemma LastRowFails(q: Query, mode: Mode, rows: seq<Row>, t: Table)
    requires rows != [] && IsGroupBy(q, mode, rows[..|rows| - 1], t)
    requires var row := rows[|rows| - 1];
             StepStates(q, mode, StatesAt(q, t, KeyOf(q, row)), InputsOf(q, row), |q.calls|).Err?
    ensures !EveryGroupFolds(q, mode, rows)
  {
    var row := rows[|rows| - 1];
    var key := KeyOf(q, row);
    var start, inputs := StatesAt(q, t, key), InputsOf(q, row);
    StepStatesPointwise(q, mode, start, inputs, |q.calls|);
    var j :| 0 <= j < |q.calls| && StepOf(mode, q.calls[j])(start[j], inputs[j]).Err?;
    LastRowFolds(q, mode, rows, t, key, j);
    assert key in KeySet(q, rows);
  }

  lemma LastRowGroups(q: Query, mode: Mode, rows: seq<Row>, t: Table, states: seq<ScalarValue>)
    requires rows != [] && IsGroupBy(q, mode, rows[..|rows| - 1], t)
    requires var row := rows[|rows| - 1];
             StepStates(q, mode, StatesAt(q, t, KeyOf(q, row)), InputsOf(q, row), |q.calls|) == Ok(states)
    ensures IsGroupBy(q, mode, rows, t[KeyOf(q, rows[|rows| - 1]) := states])
  {
    var t' := t[KeyOf(q, rows[|rows| - 1]) := states];
    assert t'.Keys == t.Keys + {KeyOf(q, rows[|rows| - 1])} == KeySet(q, rows);
    assert IsTable(q, t');
    forall k, j | k in t' && 0 <= j < |q.calls| ensures GroupFold(q, mode, rows, k, j) == Ok(t'[k][j]) {
      LastRowGroup(q, mode, rows, t, states, k, j);
    }
  }

  lemma LastRowGroup(q: Query, mode: Mode, rows: seq<Row>, t: Table, states: seq<ScalarValue>, k: Row, j: nat)
    requires rows != [] && IsGroupBy(q, mode, rows[..|rows| - 1], t) && j < |q.calls|
    requires var row := rows[|rows| - 1];
             StepStates(q, mode, StatesAt(q, t, KeyOf(q, row)), InputsOf(q, row), |q.calls|) == Ok(states)
    requires k == KeyOf(q, rows[|rows| - 1]) || k in t
    ensures GroupFold(q, mode, rows, k, j) == Ok(if k == KeyOf(q, rows[|rows| - 1]) then states[j] else t[k][j])
  {
    var row := rows[|rows| - 1];
    StepStatesPointwise(q, mode, StatesAt(q, t, KeyOf(q, row)), InputsOf(q, row), |q.calls|);
    LastRowFolds(q, mode, rows, t, k, j);
  }

  // ---------------------------------------------------------------- any order

  lemma {:induction false} CountedOnce(a: seq<Row>, k: Row)
    requires Distinct(a)
    ensures multiset(a)[k] == if k in a then 1 else 0
  {
    if a != [] {
      var front, last := a[..|a| - 1], a[|a| - 1];
      assert a == front + [last];
      CountedOnce(front, k);
    }
  }

  lemma SameElements(a: seq<Row>, b: seq<Row>)
    requires Distinct(a) && Distinct(b) && forall k :: k in a <==> k in b
    ensures multiset(a) == multiset(b)
  {
    forall k ensures multiset(a)[k] == multiset(b)[k] {
      CountedOnce(a, k);
      CountedOnce(b, k);
    }
  }

  // The rows that listing keys in some order gives.
  ghost predicate ListedBy(t: Table, order: seq<Row>, rows: seq<Row>) {
    |rows| == |order| && forall i :: 0 <= i < |order| ==> order[i] in t && rows[i] == order[i] + t[order[i]]
  }

  lemma {:induction false} ReorderedRows(t: Table, a: seq<Row>, x: seq<Row>, b: seq<Row>, y: seq<Row>)
    requires ListedBy(t, a, x) && ListedBy(t, b, y) && multiset(a) == multiset(b)
    ensures multiset(x) == multiset(y)
  {
    if a == [] {
      assert |multiset(b)| == 0;
    } else {
      var last := |a| - 1;
      var i := FindLast(a, b);
      ReorderedRows(t, a[..last], x[..last], Without(b, i), Without(y, i));
      WithoutMultiset(x, last);
      WithoutMultiset(y, i);
      assert Without(x, last) == x[..last];
    }
  }

  lemma ListingsPermute(t: Table, a: seq<Row>, x: seq<Row>, b: seq<Row>, y: seq<Row>)
    requires Lists(a, t, x) && Lists(b, t, y)
    ensures multiset(x) == multiset(y)
  {
    SameElements(a, b);
    ReorderedRows(t, a, x, b, y);
  }
}
