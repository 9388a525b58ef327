/** Evaluating an expression on selected rows only: filter, evaluate, scatter back. */
module Selection {
  import opened Results
  import opened Scalars

  // A selection: true, false or null for each row.
  type Mask = seq<Option<bool>>

  datatype ColumnarValue = Array(values: seq<ScalarValue>) | Scalar(value: ScalarValue)

  predicate Selects(mask: Mask, i: nat)
    requires i < |mask|
  {
    mask[i] == Some(true)
  }

  // How many of the first `n` rows are selected.
  function TrueCount(mask: Mask, n: nat): (k: nat)
    requires n <= |mask|
    ensures k <= n
  {
    if n == 0 then 0 else TrueCount(mask, n - 1) + if Selects(mask, n - 1) then 1 else 0
  }

  predicate AllTrue(mask: Mask) {
    forall i :: 0 <= i < |mask| ==> mask[i] == Some(true)
  }

  // The selected elements, in order.
  function Gather<T>(mask: Mask, values: seq<T>): (out: seq<T>)
    requires |mask| == |values|
    ensures |out| == TrueCount(mask, |mask|)
  {
    if mask == [] then []
    else
      var last := |mask| - 1;
      TrueCountPrefix(mask, last);
      Gather(mask[..last], values[..last]) + (if Selects(mask, last) then [values[last]] else [])
  }

  lemma {:induction false} TrueCountPrefix(mask: Mask, n: nat)
    requires n <= |mask|
    ensures TrueCount(mask[..n], n) == TrueCount(mask, n)
    decreases n
  {
    if n > 0 {
      TrueCountPrefix(mask, n - 1);
      TrueCountPrefix(mask[..n], n - 1);
      assert mask[..n][..n - 1] == mask[..n - 1];
    }
  }

  // The k-th value at the k-th selected row, null everywhere else.
  function Scattered(mask: Mask, truthy: seq<ScalarValue>, n: nat): (out: seq<ScalarValue>)
    requires n <= |mask| && TrueCount(mask, n) <= |truthy|
    ensures |out| == n
  {
    if n == 0 then []
    else
      Scattered(mask, truthy, n - 1)
      + (if Selects(mask, n - 1) then [truthy[TrueCount(mask, n - 1)]] else [Null])
  }

  lemma {:induction false} ScatteredAt(mask: Mask, truthy: seq<ScalarValue>, n: nat, i: nat)
    requires i < n <= |mask| && TrueCount(mask, n) <= |truthy|
    ensures Selects(mask, i) ==>
              TrueCount(mask, i) < |truthy| && Scattered(mask, truthy, n)[i] == truthy[TrueCount(mask, i)]
    ensures !Selects(mask, i) ==> Scattered(mask, truthy, n)[i] == Null
  {
    if i < n - 1 {
      ScatteredAt(mask, truthy, n - 1, i);
    }
  }

  // ---------------------------------------------------------------- scatter

  lemma {:induction false} CountRange(mask: Mask, from: nat, upTo: nat, selected: bool)
    requires from <= upTo <= |mask|
    requires forall i :: from <= i < upTo ==> Selects(mask, i) == selected
    ensures TrueCount(mask, upTo) == TrueCount(mask, from) + if selected then upTo - from else 0
  {
    if from < upTo {
      CountRange(mask, from, upTo - 1, selected);
    }
  }

  lemma {:induction false} CountGrows(mask: Mask, m: nat, n: nat)
    requires m <= n <= |mask|
    ensures TrueCount(mask, m) <= TrueCount(mask, n) <= TrueCount(mask, m) + (n - m)
  {
    if m < n {
      CountGrows(mask, m, n - 1);
    }
  }

  function NullArray(n: nat): (out: seq<ScalarValue>)
    ensures |out| == n && forall i :: 0 <= i < n ==> out[i] == Null
  {
    if n == 0 then [] else NullArray(n - 1) + [Null]
  }

  // The next run of selected rows; an empty one at the end when there is none.
  method NextRun(mask: Mask, from: nat) returns (start: nat, end: nat)
    requires from <= |mask|
    ensures from <= start <= end <= |mask|
    ensures forall i :: from <= i < start ==> !Selects(mask, i)
    ensures forall i :: start <= i < end ==> Selects(mask, i)
    ensures start == end ==> start == |mask|
  {
    start := from;
    while start < |mask| && !Selects(mask, start)
      invariant from <= start <= |mask|
      invariant forall i :: from <= i < start ==> !Selects(mask, i)
    {
      start := start + 1;
    }
    end := start;
    while end < |mask| && Selects(mask, end)
      invariant start <= end <= |mask|
      invariant forall i :: start <= i < end ==> Selects(mask, i)
      invariant start < |mask| && end == start ==> Selects(mask, start)
    {
      end := end + 1;
    }
  }

  /** Places successive values at the selected rows and nulls elsewhere. Too few values run
      out of bounds; an all-true mask hands the values back as they are. */
  method Scatter(mask: Mask, truthy: seq<ScalarValue>) returns (r: Result<seq<ScalarValue>>)
    ensures AllTrue(mask) && mask != [] ==> r == Ok(truthy)
    ensures !AllTrue(mask) || mask == [] ==>
              r == if TrueCount(mask, |mask|) <= |truthy| then Ok(Scattered(mask, truthy, |mask|)) else Err(Panic)
  {
    if forall i :: 0 <= i < |mask| ==> !Selects(mask, i) {
      CountRange(mask, 0, |mask|, false);
      GapScattered(mask, truthy, 0, |mask|);
      assert Scattered(mask, truthy, 0) + NullArray(|mask|) == NullArray(|mask|);
      return Ok(NullArray(|mask|));
    }
    if forall i :: 0 <= i < |mask| ==> mask[i] == Some(true) {
      return Ok(truthy);
    }
    var filled, truePos := 0, 0;
    var mutable: seq<ScalarValue> := [];
    while filled < |mask|
      invariant filled <= |mask| && truePos == TrueCount(mask, filled) <= |truthy|
      invariant mutable == Scattered(mask, truthy, filled)
      decreases |mask| - filled
    {
      var start, end := NextRun(mask, filled);
      CountRange(mask, filled, start, false);
      CountRange(mask, start, end, true);
      mutable := mutable + NullArray(start - filled);
      var len := end - start;
      if truePos + len > |truthy| {
        CountGrows(mask, end, |mask|);
        return Err(Panic);
      }
      RunScattered(mask, truthy, filled, start, end);
      mutable := mutable + truthy[truePos..truePos + len];
      truePos := truePos + len;
      filled := end;
    }
    return Ok(mutable);
  }

  lemma {:induction false} GapScattered(mask: Mask, truthy: seq<ScalarValue>, filled: nat, start: nat)
    requires filled <= start <= |mask| && TrueCount(mask, start) <= |truthy|
    requires forall i :: filled <= i < start ==> !Selects(mask, i)
    ensures TrueCount(mask, filled) == TrueCount(mask, start)
    ensures Scattered(mask, truthy, start) == Scattered(mask, truthy, filled) + NullArray(start - filled)
  {
    if filled < start {
      GapScattered(mask, truthy, filled, start - 1);
    }
  }

  lemma {:induction false} ValuesScattered(mask: Mask, truthy: seq<ScalarValue>, start: nat, end: nat)
    requires start <= end <= |mask| && TrueCount(mask, end) <= |truthy|
    requires forall i :: start <= i < end ==> Selects(mask, i)
    ensures TrueCount(mask, end) == TrueCount(mask, start) + (end - start)
    ensures Scattered(mask, truthy, end)
            == Scattered(mask, truthy, start) + truthy[TrueCount(mask, start)..TrueCount(mask, end)]
  {
    if start < end {
      ValuesScattered(mask, truthy, start, end - 1);
      var m, n := TrueCount(mask, start), TrueCount(mask, end - 1);
      assert truthy[m..n + 1] == truthy[m..n] + [truthy[n]];
    }
  }

  // A gap of nulls and a run of values extend what is scattered.
  lemma RunScattered(mask: Mask, truthy: seq<ScalarValue>, filled: nat, start: nat, end: nat)
    requires filled <= start <= end <= |mask| && TrueCount(mask, end) <= |truthy|
    requires forall i :: filled <= i < start ==> !Selects(mask, i)
    requires forall i :: start <= i < end ==> Selects(mask, i)
    requires TrueCount(mask, filled) <= |truthy|
    ensures TrueCount(mask, end) == TrueCount(mask, start) + (end - start)
    ensures Scattered(mask, truthy, end)
            == Scattered(mask, truthy, filled) + NullArray(start - filled)
               + truthy[TrueCount(mask, start)..TrueCount(mask, end)]
  {
    CountGrows(mask, start, end);
    GapScattered(mask, truthy, filled, start);
    ValuesScattered(mask, truthy, start, end);
  }

  lemma {:induction false} GatherAt<T>(mask: Mask, values: seq<T>, i: nat)
    requires |mask| == |values| && i < |mask| && Selects(mask, i)
    ensures TrueCount(mask, i) < TrueCount(mask, |mask|)
    ensures Gather(mask, values)[TrueCount(mask, i)] == values[i]
  {
    var last := |mask| - 1;
    TrueCountPrefix(mask, last);
    TrueCountPrefix(mask, i);
    CountGrows(mask, i + 1, |mask|);
    if i < last {
      TrueCountPrefix(mask[..last], i);
      assert mask[..last][..i] == mask[..i];
      GatherAt(mask[..last], values[..last], i);
    }
  }

  /** Scattering what was gathered restores every selected value and nulls the rest. */
  lemma GatherThenScatter(mask: Mask, values: seq<ScalarValue>)
    requires |mask| == |values|
    ensures var out := Scattered(mask, Gather(mask, values), |mask|);
            forall i :: 0 <= i < |mask| ==> out[i] == if Selects(mask, i) then values[i] else Null
  {
    forall i | 0 <= i < |mask|
      ensures Scattered(mask, Gather(mask, values), |mask|)[i] == if Selects(mask, i) then values[i] else Null
    {
      ScatteredAt(mask, Gather(mask, values), |mask|, i);
      if Selects(mask, i) {
        GatherAt(mask, values, i);
      }
    }
  }

  // ---------------------------------------------------------------- evaluation

  type Evaluator = seq<Row> -> Result<ColumnarValue>

  function ValueAt(v: ColumnarValue, i: nat): ScalarValue
    requires v.Array? ==> i < |v.values|
  {
    match v
    case Array(values) => values[i]
    case Scalar(value) => value
  }

  function AsBooleans(mask: Mask): (out: seq<ScalarValue>)
    ensures |out| == |mask|
    ensures forall i :: 0 <= i < |mask| ==> out[i] == if mask[i].None? then Null else Boolean(mask[i].value)
  {
    seq(|mask|, i requires 0 <= i < |mask| => if mask[i].None? then Null else Boolean(mask[i].value))
  }

  method FilterBatch(batch: seq<Row>, selection: Mask) returns (rows: seq<Row>)
    requires |batch| == |selection|
    ensures rows == Gather(selection, batch)
  {
    rows := [];
    for i := 0 to |batch|
      invariant rows == Gather(selection[..i], batch[..i])
    {
      assert selection[..i + 1][..i] == selection[..i] && batch[..i + 1][..i] == batch[..i];
      if selection[i] == Some(true) {
        rows := rows + [batch[i]];
      }
    }
    assert selection[..|batch|] == selection && batch[..|batch|] == batch;
  }

  // `dataType` is the outcome of asking for the expression's type.
  method EvaluateSelection(evaluate: Evaluator, dataType: Result<()>, batch: seq<Row>, selection: Mask)
    returns (r: Result<ColumnarValue>)
    ensures r == Selected(evaluate, dataType, batch, selection)
  {
    if |batch| != |selection| {
      return Err(Execution);
    }
    if forall i :: 0 <= i < |selection| ==> selection[i] == Some(true) {
      return evaluate(batch);
    }
    var filtered;
    if exists i :: 0 <= i < |selection| && selection[i] == Some(true) {
      var rows := FilterBatch(batch, selection);
      filtered :- evaluate(rows);
    } else {
      var t :- dataType;
      filtered := Array([]);
    }
    match filtered
    case Array(values) =>
      var out :- Scatter(selection, values);
      return Ok(Array(out));
    case Scalar(Boolean(b)) =>
      if b {
        return Ok(Array(AsBooleans(selection)));
      }
      return Ok(filtered);
    case Scalar(_) =>
      return Ok(filtered);
  }

  // The same as an expression.
  function Selected(evaluate: Evaluator, dataType: Result<()>, batch: seq<Row>, selection: Mask): Result<ColumnarValue>
  {
    if |batch| != |selection| then Err(Execution)
    else if AllTrue(selection) then evaluate(batch)
    else
      var filtered :-
        if exists i :: 0 <= i < |selection| && selection[i] == Some(true) then evaluate(Gather(selection, batch))
        else if dataType.Ok? then Ok(Array([])) else Err(dataType.error);
      match filtered
      case Array(values) =>
        if TrueCount(selection, |selection|) <= |values| then Ok(Array(Scattered(selection, values, |selection|)))
        else Err(Panic)
      case Scalar(v) => Ok(if v == Boolean(true) then Array(AsBooleans(selection)) else filtered)
  }

  // Evaluates row by row, as an array or as one value for all rows.
  ghost predicate RowWise(evaluate: Evaluator, f: Row -> Result<ScalarValue>) {
    forall rows: seq<Row> ::
      && (evaluate(rows).Ok? <==> forall i :: 0 <= i < |rows| ==> f(rows[i]).Ok?)
      && (evaluate(rows).Ok? ==>
            && (evaluate(rows).value.Array? ==> |evaluate(rows).value.values| == |rows|)
            && forall i :: 0 <= i < |rows| ==> f(rows[i]) == Ok(ValueAt(evaluate(rows).value, i)))
  }

  lemma {:induction false} GatherMember<T>(mask: Mask, values: seq<T>, k: nat) returns (i: nat)
    requires |mask| == |values| && k < TrueCount(mask, |mask|)
    ensures i < |mask| && Selects(mask, i) && TrueCount(mask, i) == k && Gather(mask, values)[k] == values[i]
  {
    var last := |mask| - 1;
    TrueCountPrefix(mask, last);
    if k == TrueCount(mask, last) {
      i := last;
    } else {
      i := GatherMember(mask[..last], values[..last], k);
      TrueCountPrefix(mask[..last], i);
      TrueCountPrefix(mask, i);
      assert mask[..last][..i] == mask[..i];
    }
  }

  lemma NoneCounted(mask: Mask)
    ensures TrueCount(mask, |mask|) == 0 <==> !exists i :: 0 <= i < |mask| && mask[i] == Some(true)
  {
    if exists i :: 0 <= i < |mask| && mask[i] == Some(true) {
      var i :| 0 <= i < |mask| && mask[i] == Some(true);
      CountGrows(mask, i + 1, |mask|);
    } else {
      CountRange(mask, 0, |mask|, false);
    }
  }

  /** Selection is faithful: over a row-wise expression it succeeds exactly when every
      selected row evaluates (and, with none selected, when the type is known), whatever
      the other rows would do; then each selected row has its value. */
  lemma SelectionIsFaithful(evaluate: Evaluator, f: Row -> Result<ScalarValue>, dataType: Result<()>,
                            batch: seq<Row>, selection: Mask)
    requires RowWise(evaluate, f) && |batch| == |selection|
    ensures var r := Selected(evaluate, dataType, batch, selection);
            var some := exists i :: 0 <= i < |selection| && selection[i] == Some(true);
            && (r.Ok? <==> (some || AllTrue(selection) || dataType.Ok?)
                           && forall i :: 0 <= i < |batch| && Selects(selection, i) ==> f(batch[i]).Ok?)
            && (r.Ok? ==>
                  && (r.value.Array? ==> |r.value.values| == |batch|)
                  && forall i :: 0 <= i < |batch| && Selects(selection, i) ==> f(batch[i]) == Ok(ValueAt(r.value, i)))
  {
    hide Gather, Scattered, AsBooleans, TrueCount;
    var r := Selected(evaluate, dataType, batch, selection);
    NoneCounted(selection);
    if AllTrue(selection) {
      assert evaluate(batch).Ok? <==> forall i :: 0 <= i < |batch| ==> f(batch[i]).Ok?;
      assert forall i :: 0 <= i < |batch| ==> Selects(selection, i);
    } else if exists i :: 0 <= i < |selection| && selection[i] == Some(true) {
      PartlySelected(evaluate, f, batch, selection);
      var filtered := evaluate(Gather(selection, batch));
      if filtered.Ok? && filtered.value.Array? {
        forall i | 0 <= i < |batch| && Selects(selection, i) ensures f(batch[i]) == Ok(ValueAt(r.value, i)) {
          ScatteredAt(selection, filtered.value.values, |selection|, i);
        }
      }
    }
  }

  /** A true scalar stands for the selection itself: over a partial selection the result is
      true on the selected rows only, and null where the mask is. */
  lemma TrueScalarIsSelection(evaluate: Evaluator, dataType: Result<()>, batch: seq<Row>, selection: Mask)
    requires |batch| == |selection| && !AllTrue(selection) && TrueCount(selection, |selection|) > 0
    requires evaluate(Gather(selection, batch)) == Ok(Scalar(Boolean(true)))
    ensures var r := Selected(evaluate, dataType, batch, selection);
            && r.Ok? && r.value.Array? && |r.value.values| == |batch|
            && forall i :: 0 <= i < |batch| ==>
                 && (r.value.values[i] == Boolean(true) <==> Selects(selection, i))
                 && (r.value.values[i] == Null <==> selection[i] == None)
  {
    NoneCounted(selection);
  }

  /** An expression that yields arrays leaves nulls at the rows a partial selection drops. */
  lemma UnselectedAreNull(evaluate: Evaluator, dataType: Result<()>, batch: seq<Row>, selection: Mask, i: nat)
    requires forall rows :: evaluate(rows).Ok? ==> evaluate(rows).value.Array?
    requires i < |batch| == |selection| && !Selects(selection, i)
    ensures var r := Selected(evaluate, dataType, batch, selection);
            r.Ok? ==> r.value.Array? && |r.value.values| == |batch| && r.value.values[i] == Null
  {
    assert !AllTrue(selection);
    var r := Selected(evaluate, dataType, batch, selection);
    if r.Ok? {
      var values := if exists i :: 0 <= i < |selection| && selection[i] == Some(true)
                    then evaluate(Gather(selection, batch)).value.values else [];
      ScatteredAt(selection, values, |selection|, i);
    }
  }

  lemma PartlySelected(evaluate: Evaluator, f: Row -> Result<ScalarValue>, batch: seq<Row>, selection: Mask)
    requires RowWise(evaluate, f) && |batch| == |selection|
    ensures var rows := Gather(selection, batch);
            && (evaluate(rows).Ok? <==> forall i :: 0 <= i < |batch| && Selects(selection, i) ==> f(batch[i]).Ok?)
            && (evaluate(rows).Ok? ==> forall i :: 0 <= i < |batch| && Selects(selection, i) ==>
                  && TrueCount(selection, i) < |rows|
                  && (evaluate(rows).value.Array? ==> |evaluate(rows).value.values| == |rows|)
                  && f(batch[i]) == Ok(ValueAt(evaluate(rows).value, TrueCount(selection, i))))
  {
    var rows := Gather(selection, batch);
    forall i | 0 <= i < |batch| && Selects(selection, i)
      ensures TrueCount(selection, i) < |rows| && rows[TrueCount(selection, i)] == batch[i]
    {
      GatherAt(selection, batch, i);
    }
    if forall i :: 0 <= i < |batch| && Selects(selection, i) ==> f(batch[i]).Ok? {
      forall k | 0 <= k < |rows| ensures f(rows[k]).Ok? {
        var i := GatherMember(selection, batch, k);
      }
    }
  }
}
