/** A planned query computes what its logical plan means: scans, projections, filters,
    limits and joins, nested in any way, each running over the batches of the one below. */
module PlannedQuery {
  import opened Results
  import opened Scalars
  import opened Sequences
  import opened Batches
  import opened LogicalPlan
  import opened PushDownMeaning
  import opened OuterJoinNulls
  import opened PlanNulls
  import opened Limits
  import HashJoinMeaning

  // ---------------------------------------------------------------- columns of a batch

  // One operation on every cell of a column, or of two columns side by side; the first cell it
  // refuses fails the column.
  method MapCells(f: ScalarValue -> Option<ScalarValue>, cells: seq<ScalarValue>)
    returns (r: Result<seq<ScalarValue>>)
    ensures r.Ok? <==> forall i :: 0 <= i < |cells| ==> f(cells[i]).Some?
    ensures r.Ok? ==> |r.value| == |cells| && forall i :: 0 <= i < |cells| ==> f(cells[i]) == Some(r.value[i])
  {
    var out := [];
    for i := 0 to |cells|
      invariant |out| == i && forall k :: 0 <= k < i ==> f(cells[k]) == Some(out[k])
    {
      match f(cells[i])
      case Some(v) => out := out + [v];
      case None => return Err(Execution);
    }
    return Ok(out);
  }

  method ZipCells(f: (ScalarValue, ScalarValue) -> Option<ScalarValue>, a: seq<ScalarValue>, b: seq<ScalarValue>)
    returns (r: Result<seq<ScalarValue>>)
    requires |a| == |b|
    ensures r.Ok? <==> forall i :: 0 <= i < |a| ==> f(a[i], b[i]).Some?
    ensures r.Ok? ==> |r.value| == |a| && forall i :: 0 <= i < |a| ==> f(a[i], b[i]) == Some(r.value[i])
  {
    var out := [];
    for i := 0 to |a|
      invariant |out| == i && forall k :: 0 <= k < i ==> f(a[k], b[k]) == Some(out[k])
    {
      match f(a[i], b[i])
      case Some(v) => out := out + [v];
      case None => return Err(Execution);
    }
    return Ok(out);
  }

  // The column holds, row by row, what the expression means.
  ghost predicate IsColumn(w: World, e: Expr, s: Schema, b: RecordBatch, r: Result<seq<ScalarValue>>)
    requires Valid(b)
  {
    && (r.Ok? <==> forall i :: 0 <= i < b.numRows ==> Eval(w, e, s, RowAt(b, i)).Some?)
    && (r.Ok? ==> |r.value| == b.numRows)
    && (r.Ok? ==> forall i :: 0 <= i < b.numRows ==> Eval(w, e, s, RowAt(b, i)) == Some(r.value[i]))
  }

  lemma NamedColumn(w: World, name: string, s: Schema, b: RecordBatch)
    requires Valid(b) && |b.columns| == |s| && name in Names(s)
    ensures IsColumn(w, Column(name), s, b, Ok(b.columns[Position(s, name).value]))
  {
    forall i | 0 <= i < b.numRows {
      CellPosition(s, RowAt(b, i), name);
    }
  }

  /** An expression over a batch, column by column: its operands' columns first, whole, then
      the operation cell by cell. It comes to evaluating the expression row by row. */
  method EvaluateColumn(w: World, e: Expr, s: Schema, b: RecordBatch) returns (r: Result<seq<ScalarValue>>)
    requires Valid(b) && |b.columns| == |s| && Bound(e, s)
    ensures IsColumn(w, e, s, b, r)
    decreases e
  {
    hide Position, Cell, Names;
    match e
    case Column(name) =>
      r := Ok(b.columns[Position(s, name).value]);
      NamedColumn(w, name, s, b);
    case ColumnIndex(index) =>
      r := Ok(b.columns[index]);
    case Literal(v) =>
      r := Ok(seq(b.numRows, _ => v));
    case DateSubtractInterval(d, n) =>
      var dates :- EvaluateColumn(w, d, s, b);
      var days :- EvaluateColumn(w, n, s, b);
      r := ZipCells((x, y) => w.shiftDate(x, y, false), dates, days);
    case DateAddInterval(d, n) =>
      var dates :- EvaluateColumn(w, d, s, b);
      var days :- EvaluateColumn(w, n, s, b);
      r := ZipCells((x, y) => w.shiftDate(x, y, true), dates, days);
    case Cast(inner, t) =>
      var cells :- EvaluateColumn(w, inner, s, b);
      r := MapCells(x => w.cast(x, t), cells);
    case BinaryExpr(left, op, right) =>
      var ll :- EvaluateColumn(w, left, s, b);
      var rr :- EvaluateColumn(w, right, s, b);
      r := ZipCells((x, y) => w.binary(op, x, y), ll, rr);
    case Alias(inner, _) =>
      r := EvaluateColumn(w, inner, s, b);
  }

  // ---------------------------------------------------------------- rows of all batches

  lemma {:induction false} EvalRowsAppend(w: World, es: seq<Expr>, s: Schema, a: seq<Row>, b: seq<Row>)
    ensures var x, y := EvalRows(w, es, Relation(s, a)), EvalRows(w, es, Relation(s, b));
            EvalRows(w, es, Relation(s, a + b)) == if x.Some? && y.Some? then Some(x.value + y.value) else None
    decreases a
  {
    if a == [] {
      assert a + b == b;
      NoRowsEvaluate(w, es, s);
      var y := EvalRows(w, es, Relation(s, b));
      assert y.Some? ==> [] + y.value == y.value;
    } else {
      assert (a + b)[1..] == a[1..] + b;
      EvalRowsAppend(w, es, s, a[1..], b);
      var v, x, y := EvalList(w, es, s, a[0]), EvalRows(w, es, Relation(s, a[1..])), EvalRows(w, es, Relation(s, b));
      if v.Some? && x.Some? && y.Some? {
        Associative([v.value], x.value, y.value);
      }
    }
  }

  lemma {:induction false} EvalRowsAt(w: World, es: seq<Expr>, s: Schema, rows: seq<Row>)
    ensures EvalRows(w, es, Relation(s, rows)).Some? <==>
            forall i :: 0 <= i < |rows| ==> EvalList(w, es, s, rows[i]).Some?
    ensures EvalRows(w, es, Relation(s, rows)).Some? ==>
              var v := EvalRows(w, es, Relation(s, rows)).value;
              |v| == |rows| && forall i :: 0 <= i < |rows| ==> EvalList(w, es, s, rows[i]) == Some(v[i])
    decreases rows
  {
    if rows != [] {
      EvalRowsAt(w, es, s, rows[1..]);
      assert rows == [rows[0]] + rows[1..];
    }
  }

  lemma {:induction false} EvalListAt(w: World, es: seq<Expr>, s: Schema, row: Row)
    ensures EvalList(w, es, s, row).Some? <==> forall c :: 0 <= c < |es| ==> Eval(w, es[c], s, row).Some?
    ensures EvalList(w, es, s, row).Some? ==>
              var v := EvalList(w, es, s, row).value;
              |v| == |es| && forall c :: 0 <= c < |es| ==> Eval(w, es[c], s, row) == Some(v[c])
  {
    if es != [] {
      EvalListAt(w, es[1..], s, row);
      assert es == [es[0]] + es[1..];
    }
  }

  // ---------------------------------------------------------------- projection

  // The columns of some rows.
  ghost predicate AreColumns(columns: seq<seq<ScalarValue>>, rows: seq<Row>) {
    forall c :: 0 <= c < |columns| ==> IsColumnOf(columns[c], rows, c, |columns|)
  }

  ghost predicate IsColumnOf(column: seq<ScalarValue>, rows: seq<Row>, c: nat, width: nat)
    requires c < width
  {
    |column| == |rows| && forall i :: 0 <= i < |rows| ==> |rows[i]| == width && column[i] == rows[i][c]
  }

  // Columns whose rows keep to a schema make a batch for it.
  lemma ColumnsMakeBatch(s: Schema, columns: seq<seq<ScalarValue>>, rows: seq<Row>)
    requires columns != [] && AreColumns(columns, rows) && AllAllowed(s, rows)
    ensures var r := CreateFor(HashJoinMeaning.Required(s), |columns|, columns);
            r.Ok? && Valid(r.value) && |r.value.columns| == |columns| && Rows(r.value) == rows
  {
    forall c: nat | c in HashJoinMeaning.Required(s) && c < |columns| ensures Null !in columns[c] {
      assert IsColumnOf(columns[c], rows, c, |columns|);
      forall i | 0 <= i < |rows| ensures columns[c][i] != Null {
        assert RowAllowed(s, rows[i]);
      }
    }
    assert IsColumnOf(columns[0], rows, 0, |columns|);
    forall c, i | 0 <= c < |columns| && 0 <= i < |rows| ensures |columns[c]| == |rows| && columns[c][i] == rows[i][c] {
      assert IsColumnOf(columns[c], rows, c, |columns|);
    }
    assert forall c :: 0 <= c < |columns| ==> IsColumnOf(columns[c], rows, c, |columns|);
    RowsDetermine(RecordBatch(|rows|, columns), rows);
  }

  // The output's fields are those of the expressions, nullable or not as they say.
  method ProjectBatch(w: World, es: seq<Expr>, s: Schema, fields: Schema, b: RecordBatch)
    returns (r: Result<RecordBatch>)
    requires Valid(b) && |b.columns| == |s| && es != [] && AllBound(es, s)
    requires ToFields(w.text, es, Ok(s)) == Ok(fields) && AllAllowed(s, Rows(b))
    ensures r.Ok? <==> EvalRows(w, es, Relation(s, Rows(b))).Some?
    ensures r.Ok? ==> Valid(r.value) && |r.value.columns| == |es|
    ensures r.Ok? ==> Rows(r.value) == EvalRows(w, es, Relation(s, Rows(b))).value
  {
    hide Eval, EvalRows, EvalList;
    var columns: seq<seq<ScalarValue>> := [];
    EvalRowsAt(w, es, s, Rows(b));
    for c := 0 to |es|
      invariant |columns| == c && forall d :: 0 <= d < c ==> |columns[d]| == b.numRows
      invariant forall d, i :: 0 <= d < c && 0 <= i < b.numRows ==>
        Eval(w, es[d], s, RowAt(b, i)) == Some(columns[d][i])
    {
      var column := EvaluateColumn(w, es[c], s, b);
      if column.Err? {
        ghost var i :| 0 <= i < b.numRows && Eval(w, es[c], s, RowAt(b, i)).None?;
        EvalListAt(w, es, s, RowAt(b, i));
        assert Rows(b)[i] == RowAt(b, i);
        return Err(column.error);
      }
      columns := columns + [column.value];
    }
    ghost var rows := ColumnsEvaluate(w, es, s, b, columns);
    EvalRowsAllowed(w, es, Relation(s, Rows(b)));
    ColumnsMakeBatch(fields, columns, rows);
    r := CreateFor(HashJoinMeaning.Required(fields), |es|, columns);
  }

  lemma ColumnsEvaluate(w: World, es: seq<Expr>, s: Schema, b: RecordBatch, columns: seq<seq<ScalarValue>>)
    returns (rows: seq<Row>)
    requires Valid(b) && |columns| == |es| && forall c :: 0 <= c < |columns| ==> |columns[c]| == b.numRows
    requires forall c, i :: 0 <= c < |es| && 0 <= i < b.numRows ==>
      Eval(w, es[c], s, RowAt(b, i)) == Some(columns[c][i])
    ensures EvalRows(w, es, Relation(s, Rows(b))) == Some(rows) && AreColumns(columns, rows)
  {
    hide Eval, EvalRows, EvalList;
    EvalRowsAt(w, es, s, Rows(b));
    forall i | 0 <= i < b.numRows ensures EvalList(w, es, s, Rows(b)[i]).Some? {
      EvalListAt(w, es, s, RowAt(b, i));
    }
    rows := EvalRows(w, es, Relation(s, Rows(b))).value;
    forall i | 0 <= i < b.numRows
      ensures |rows[i]| == |es| && forall c :: 0 <= c < |es| ==> columns[c][i] == rows[i][c]
    {
      EvalListAt(w, es, s, RowAt(b, i));
    }
  }

  method Project(w: World, es: seq<Expr>, s: Schema, fields: Schema, batches: seq<RecordBatch>)
    returns (r: Result<seq<RecordBatch>>)
    requires Shaped(batches, |s|) && es != [] && AllBound(es, s)
    requires ToFields(w.text, es, Ok(s)) == Ok(fields) && AllAllowed(s, AllRows(batches))
    ensures r.Ok? <==> EvalRows(w, es, Relation(s, AllRows(batches))).Some?
    ensures r.Ok? ==> Shaped(r.value, |es|) && AllRows(r.value) == EvalRows(w, es, Relation(s, AllRows(batches))).value
  {
    hide EvalRows, Rows;
    var out := [];
    NoRowsEvaluate(w, es, s);
    for i := 0 to |batches|
      invariant Shaped(out, |es|)
      invariant EvalRows(w, es, Relation(s, AllRows(batches[..i]))) == Some(AllRows(out))
    {
      assert batches[..i + 1][..i] == batches[..i];
      EvalRowsAppend(w, es, s, AllRows(batches[..i]), Rows(batches[i]));
      BatchAllowed(s, batches, i);
      var projected := ProjectBatch(w, es, s, fields, batches[i]);
      if projected.Err? {
        RowsSplit(batches, i + 1);
        EvalRowsAppend(w, es, s, AllRows(batches[..i + 1]), AllRows(batches[i + 1..]));
        return Err(projected.error);
      }
      assert (out + [projected.value])[..|out|] == out;
      out := out + [projected.value];
    }
    assert batches[..|batches|] == batches;
    return Ok(out);
  }

  lemma LastRows(batches: seq<RecordBatch>)
    requires AllValid(batches) && batches != []
    ensures forall row :: row in Rows(batches[|batches| - 1]) ==> row in AllRows(batches)
  {
    hide Rows;
  }

  lemma BatchAllowed(s: Schema, batches: seq<RecordBatch>, i: nat)
    requires AllValid(batches) && i < |batches| && AllAllowed(s, AllRows(batches))
    ensures AllAllowed(s, Rows(batches[i]))
  {
    hide Rows, RowAllowed, AllRows;
    RowsSplit(batches, i + 1);
    LastRows(batches[..i + 1]);
    assert forall row :: row in Rows(batches[i]) ==> row in AllRows(batches[..i + 1]);
  }

  lemma NoRowsEvaluate(w: World, es: seq<Expr>, s: Schema)
    ensures EvalRows(w, es, Relation(s, [])) == Some([])
  {
  }

  lemma {:induction false} RowsSplit(batches: seq<RecordBatch>, i: nat)
    requires AllValid(batches) && i <= |batches|
    ensures AllRows(batches) == AllRows(batches[..i]) + AllRows(batches[i..])
  {
    hide Rows;
    var last := |batches| - 1;
    if i == |batches| {
      assert batches[..i] == batches && batches[i..] == [];
    } else {
      var rest := batches[i..];
      assert rest[..|rest| - 1] == batches[..last][i..] && rest[|rest| - 1] == batches[last];
      assert batches[..last][..i] == batches[..i];
      RowsSplit(batches[..last], i);
      Associative(AllRows(batches[..i]), AllRows(batches[..last][i..]), Rows(batches[last]));
    }
  }

  // ---------------------------------------------------------------- filter

  // The cells whose row is selected.
  function Kept(cells: seq<ScalarValue>, mask: seq<ScalarValue>): seq<ScalarValue>
    requires |cells| == |mask|
  {
    if cells == [] then []
    else
      Kept(cells[..|cells| - 1], mask[..|mask| - 1])
      + if mask[|mask| - 1] == Boolean(true) then [cells[|cells| - 1]] else []
  }

  method FilterColumn(cells: seq<ScalarValue>, mask: seq<ScalarValue>) returns (kept: seq<ScalarValue>)
    requires |cells| == |mask|
    ensures kept == Kept(cells, mask)
  {
    kept := [];
    for i := 0 to |mask|
      invariant kept == Kept(cells[..i], mask[..i])
    {
      assert cells[..i + 1][..i] == cells[..i] && mask[..i + 1][..i] == mask[..i];
      if mask[i] == Boolean(true) {
        kept := kept + [cells[i]];
      }
    }
    assert cells[..|cells|] == cells && mask[..|mask|] == mask;
  }

  // The rows whose mask cell is true, from the back.
  function KeptRows(rows: seq<Row>, mask: seq<ScalarValue>): seq<Row>
    requires |rows| == |mask|
  {
    if rows == [] then []
    else
      KeptRows(rows[..|rows| - 1], mask[..|mask| - 1])
      + if mask[|mask| - 1] == Boolean(true) then [rows[|rows| - 1]] else []
  }

  lemma {:induction false} SelectedPush(rows: seq<Row>, verdicts: seq<Row>, row: Row, verdict: Row)
    requires |rows| == |verdicts|
    ensures Selected(rows + [row], verdicts + [verdict])
            == Selected(rows, verdicts) + if verdict == [Boolean(true)] then [row] else []
  {
    if rows == [] {
      assert rows + [row] == [row] && verdicts + [verdict] == [verdict];
      assert [row][1..] == [] && [verdict][1..] == [];
      assert Selected([row][1..], [verdict][1..]) == [];
    } else {
      assert (rows + [row])[1..] == rows[1..] + [row] && (verdicts + [verdict])[1..] == verdicts[1..] + [verdict];
      SelectedPush(rows[1..], verdicts[1..], row, verdict);
    }
  }

  lemma {:induction false} KeptRowsAreSelected(rows: seq<Row>, mask: seq<ScalarValue>, verdicts: seq<Row>)
    requires |rows| == |mask| == |verdicts| && forall i :: 0 <= i < |mask| ==> verdicts[i] == [mask[i]]
    ensures KeptRows(rows, mask) == Selected(rows, verdicts)
  {
    if rows != [] {
      var last := |rows| - 1;
      KeptRowsAreSelected(rows[..last], mask[..last], verdicts[..last]);
      SelectedPush(rows[..last], verdicts[..last], rows[last], verdicts[last]);
      assert rows == rows[..last] + [rows[last]] && verdicts == verdicts[..last] + [verdicts[last]];
    }
  }

  lemma {:induction false} KeptCells(rows: seq<Row>, cells: seq<ScalarValue>, mask: seq<ScalarValue>, c: nat,
                                     width: nat)
    requires |rows| == |cells| == |mask| && c < width
    requires forall i :: 0 <= i < |rows| ==> |rows[i]| == width && rows[i][c] == cells[i]
    ensures |Kept(cells, mask)| == |KeptRows(rows, mask)|
    ensures forall i :: 0 <= i < |KeptRows(rows, mask)| ==>
              |KeptRows(rows, mask)[i]| == width && Kept(cells, mask)[i] == KeptRows(rows, mask)[i][c]
  {
    if rows != [] {
      var last := |rows| - 1;
      KeptCells(rows[..last], cells[..last], mask[..last], c, width);
    }
  }

  lemma {:induction false} KeptAllowed(s: Schema, rows: seq<Row>, mask: seq<ScalarValue>)
    requires |rows| == |mask| && AllAllowed(s, rows)
    ensures AllAllowed(s, KeptRows(rows, mask))
  {
    if rows != [] {
      KeptAllowed(s, rows[..|rows| - 1], mask[..|mask| - 1]);
      assert rows[|rows| - 1] in rows;
    }
  }

  // A mask column selects the rows its condition does.
  lemma MaskSelects(w: World, condition: Expr, s: Schema, b: RecordBatch, mask: Result<seq<ScalarValue>>)
    requires Valid(b) && IsColumn(w, condition, s, b, mask)
    ensures var verdicts := EvalRows(w, [condition], Relation(s, Rows(b)));
            && (mask.Ok? <==> verdicts.Some?)
            && (mask.Ok? ==> |verdicts.value| == |mask.value| == b.numRows
                             && KeptRows(Rows(b), mask.value) == Selected(Rows(b), verdicts.value))
  {
    hide KeptRows, Selected, Eval, EvalList, EvalRows;
    EvalRowsAt(w, [condition], s, Rows(b));
    forall i | 0 <= i < b.numRows
      ensures EvalList(w, [condition], s, Rows(b)[i]) ==
              match Eval(w, condition, s, RowAt(b, i)) case Some(v) => Some([v]) case None => None
    {
      OneExpression(w, condition, s, RowAt(b, i));
    }
    if mask.Ok? {
      KeptRowsAreSelected(Rows(b), mask.value, EvalRows(w, [condition], Relation(s, Rows(b))).value);
    }
  }

  // Every column cut by the mask.
  method FilterColumns(s: Schema, b: RecordBatch, mask: seq<ScalarValue>) returns (r: Result<RecordBatch>)
    requires Valid(b) && |b.columns| == |s| && s != [] && |mask| == b.numRows && AllAllowed(s, Rows(b))
    ensures r.Ok? && Valid(r.value) && |r.value.columns| == |s| && Rows(r.value) == KeptRows(Rows(b), mask)
  {
    hide KeptRows, Kept, RowAllowed;
    var columns: seq<seq<ScalarValue>> := [];
    for c := 0 to |b.columns|
      invariant |columns| == c && forall d :: 0 <= d < c ==> columns[d] == Kept(b.columns[d], mask)
    {
      var column := FilterColumn(b.columns[c], mask);
      columns := columns + [column];
    }
    ghost var kept := KeptRows(Rows(b), mask);
    forall c | 0 <= c < |columns| ensures IsColumnOf(columns[c], kept, c, |columns|) {
      KeptCells(Rows(b), b.columns[c], mask, c, |b.columns|);
    }
    KeptAllowed(s, Rows(b), mask);
    ColumnsMakeBatch(s, columns, kept);
    r := CreateFor(HashJoinMeaning.Required(s), |b.columns|, columns);
  }

  method FilterBatch(w: World, condition: Expr, s: Schema, b: RecordBatch) returns (r: Result<RecordBatch>)
    requires Valid(b) && |b.columns| == |s| && s != [] && Bound(condition, s) && AllAllowed(s, Rows(b))
    ensures r.Ok? <==> EvalRows(w, [condition], Relation(s, Rows(b))).Some?
    ensures r.Ok? ==> Valid(r.value) && |r.value.columns| == |b.columns|
    ensures r.Ok? ==> |EvalRows(w, [condition], Relation(s, Rows(b))).value| == b.numRows
    ensures r.Ok? ==> Rows(r.value) == Selected(Rows(b), EvalRows(w, [condition], Relation(s, Rows(b))).value)
  {
    hide KeptRows, Selected, Eval, EvalRows, IsColumn, AllAllowed;
    var mask := EvaluateColumn(w, condition, s, b);
    MaskSelects(w, condition, s, b, mask);
    if mask.Err? {
      return Err(mask.error);
    }
    r := FilterColumns(s, b, mask.value);
  }

  lemma OneExpression(w: World, e: Expr, s: Schema, row: Row)
    ensures EvalList(w, [e], s, row) == match Eval(w, e, s, row) case Some(v) => Some([v]) case None => None
  {
    assert [e][1..] == [];
    assert EvalList(w, [e][1..], s, row) == Some([]);
    if Eval(w, e, s, row).Some? {
      assert [Eval(w, e, s, row).value] + [] == [Eval(w, e, s, row).value];
    }
  }

  // Each batch is filtered on its own; one left without rows is handed on.
  method FilterAll(w: World, condition: Expr, s: Schema, batches: seq<RecordBatch>)
    returns (r: Result<seq<RecordBatch>>)
    requires Shaped(batches, |s|) && s != [] && Bound(condition, s) && AllAllowed(s, AllRows(batches))
    ensures r.Ok? <==> EvalRows(w, [condition], Relation(s, AllRows(batches))).Some?
    ensures r.Ok? ==> Shaped(r.value, |s|)
    ensures r.Ok? ==> |EvalRows(w, [condition], Relation(s, AllRows(batches))).value| == |AllRows(batches)|
    ensures r.Ok? ==>
      AllRows(r.value) == Selected(AllRows(batches), EvalRows(w, [condition], Relation(s, AllRows(batches))).value)
  {
    hide EvalRows, Rows, Selected;
    var out := [];
    NoRowsEvaluate(w, [condition], s);
    NoneSelected();
    for i := 0 to |batches|
      invariant Shaped(out, |s|)
      invariant FilteredSoFar(w, condition, s, AllRows(batches[..i]), AllRows(out))
    {
      assert batches[..i + 1][..i] == batches[..i];
      EvalRowsAppend(w, [condition], s, AllRows(batches[..i]), Rows(batches[i]));
      BatchAllowed(s, batches, i);
      var filtered := FilterBatch(w, condition, s, batches[i]);
      if filtered.Err? {
        RowsSplit(batches, i + 1);
        EvalRowsAppend(w, [condition], s, AllRows(batches[..i + 1]), AllRows(batches[i + 1..]));
        return Err(filtered.error);
      }
      SelectedAppend(AllRows(batches[..i]), EvalRows(w, [condition], Relation(s, AllRows(batches[..i]))).value,
                     Rows(batches[i]), EvalRows(w, [condition], Relation(s, Rows(batches[i]))).value);
      assert (out + [filtered.value])[..|out|] == out;
      out := out + [filtered.value];
    }
    assert batches[..|batches|] == batches;
    return Ok(out);
  }

  ghost predicate FilteredSoFar(w: World, condition: Expr, s: Schema, rows: seq<Row>, out: seq<Row>) {
    var verdicts := EvalRows(w, [condition], Relation(s, rows));
    verdicts.Some? && |verdicts.value| == |rows| && out == Selected(rows, verdicts.value)
  }

  lemma NoneSelected()
    ensures Selected([], []) == []
  {
  }

  lemma {:induction false} SelectedAppend(a: seq<Row>, x: seq<Row>, b: seq<Row>, y: seq<Row>)
    requires |a| == |x| && |b| == |y|
    ensures Selected(a + b, x + y) == Selected(a, x) + Selected(b, y)
    decreases a
  {
    if a == [] {
      assert a + b == b && x + y == y;
    } else {
      assert (a + b)[1..] == a[1..] + b && (x + y)[1..] == x[1..] + y;
      SelectedAppend(a[1..], x[1..], b, y);
    }
  }

  // ---------------------------------------------------------------- limit

  // A negative limit is cast to an unsigned 64-bit number.
  function Fetch(limit: I32): nat {
    if limit < 0 then limit + 0x1_0000_0000_0000_0000 else limit
  }

  lemma PrefixIs<T>(rows: seq<T>, limit: I32)
    requires |rows| <= 0x7FFF_FFFF_FFFF_FFFF
    ensures Take(Drop(rows, 0), Fetch(limit)) == if limit < 0 || limit >= |rows| then rows else rows[..limit]
  {
    if rows != [] {
      assert rows[0..] == rows;
    }
  }

  method LimitAll(limit: I32, width: nat, batches: seq<RecordBatch>) returns (r: seq<RecordBatch>)
    requires Shaped(batches, width) && width > 0 && |AllRows(batches)| <= 0x7FFF_FFFF_FFFF_FFFF
    ensures Shaped(r, width) && AllRows(r) == Prefix(AllRows(batches), limit)
  {
    BatchRowsFlatten(batches);
    PrefixIs(AllRows(batches), limit);
    var limited, _ := GlobalLimit(Stream(BatchRows(batches), None), 0, Some(Fetch(limit)));
    forall row | row in Flatten(limited.batches) ensures |row| == width {
      assert row in AllRows(batches);
      WideRows(batches, width, row);
    }
    r := Rebatch(limited.batches, width);
  }

  // A slice of a batch is a batch of its rows.
  method Rebatch(slices: seq<seq<Row>>, width: nat) returns (r: seq<RecordBatch>)
    requires width > 0 && forall row :: row in Flatten(slices) ==> |row| == width
    ensures Shaped(r, width) && AllRows(r) == Flatten(slices)
  {
    hide Rows;
    r := [];
    for i := 0 to |slices|
      invariant Shaped(r, width) && Flatten(slices) == AllRows(r) + Flatten(slices[i..])
    {
      assert slices[i..][1..] == slices[i + 1..];
      assert forall row :: row in slices[i] ==> row in Flatten(slices);
      var b := CreateBatch(slices[i], width, {});
      Associative(AllRows(r), slices[i], Flatten(slices[i + 1..]));
      assert (r + [b.value])[..|r|] == r;
      r := r + [b.value];
    }
  }

  lemma {:induction false} WideRows(batches: seq<RecordBatch>, width: nat, row: Row)
    requires Shaped(batches, width) && row in AllRows(batches)
    ensures |row| == width
  {
    var last := |batches| - 1;
    if row in AllRows(batches[..last]) {
      WideRows(batches[..last], width, row);
    }
  }

  // ---------------------------------------------------------------- scan

  method ScanAll(s: Schema, projection: seq<string>, batches: seq<RecordBatch>) returns (r: Result<seq<RecordBatch>>)
    requires Shaped(batches, |s|)
    ensures r.Ok? <==> DeriveSchema(s, projection).Ok?
    ensures r.Ok? ==> Shaped(r.value, |DeriveSchema(s, projection).value|)
    ensures r.Ok? ==> AllRows(r.value) == ScanRows(s, AllRows(batches), projection)
  {
    if projection == [] {
      return Ok(batches);
    }
    ProjectsIff(s, projection);
    var indices :- Indices(s, projection);
    r := CutAll(s, projection, indices, batches);
  }

  method CutAll(s: Schema, names: seq<string>, indices: seq<nat>, batches: seq<RecordBatch>)
    returns (r: Result<seq<RecordBatch>>)
    requires Shaped(batches, |s|) && names != [] && AreIndices(s, names, indices)
    ensures r.Ok? && Shaped(r.value, |names|) && AllRows(r.value) == ScanRows(s, AllRows(batches), names)
  {
    hide AreIndices, ScanRows, Rows;
    var out := [];
    NoRowsScanned(s, names);
    for i := 0 to |batches|
      invariant Shaped(out, |names|) && AllRows(out) == ScanRows(s, AllRows(batches[..i]), names)
    {
      assert batches[..i + 1][..i] == batches[..i];
      var cut := CutBatch(s, names, indices, batches[i]);
      ScanRowsAppend(s, AllRows(batches[..i]), Rows(batches[i]), names);
      assert (out + [cut])[..|out|] == out;
      out := out + [cut];
    }
    assert batches[..|batches|] == batches;
    return Ok(out);
  }

  method CutBatch(s: Schema, names: seq<string>, indices: seq<nat>, b: RecordBatch) returns (cut: RecordBatch)
    requires Valid(b) && |b.columns| == |s| && names != [] && AreIndices(s, names, indices)
    ensures Valid(cut) && |cut.columns| == |names| && Rows(cut) == ScanRows(s, Rows(b), names)
  {
    hide Rows, ScanRows;
    cut := RecordBatch(b.numRows, seq(|indices|, k requires 0 <= k < |indices| => b.columns[indices[k]]));
    ScannedRows(s, names, indices, b, cut);
  }

  lemma NoRowsScanned(s: Schema, names: seq<string>)
    ensures ScanRows(s, [], names) == []
  {
  }

  // Each name's first position in the table's schema.
  predicate AreIndices(s: Schema, names: seq<string>, indices: seq<nat>) {
    && |indices| == |names|
    && forall k :: 0 <= k < |names| ==> Position(s, names[k]) == Some(indices[k]) && indices[k] < |s|
  }

  method Indices(s: Schema, names: seq<string>) returns (r: Result<seq<nat>>)
    ensures r.Ok? <==> ProjectSchema(s, names).Ok?
    ensures r.Ok? ==> |ProjectSchema(s, names).value| == |names| && AreIndices(s, names, r.value)
  {
    var indices: seq<nat> := [];
    ProjectsIff(s, names);
    for k := 0 to |names|
      invariant |indices| == k
      invariant forall j :: 0 <= j < k ==> Position(s, names[j]) == Some(indices[j]) && indices[j] < |s|
    {
      match Position(s, names[k])
      case Some(i) => indices := indices + [i];
      case None => return Err(SchemaError);
    }
    return Ok(indices);
  }

  lemma {:induction false} ProjectsIff(s: Schema, names: seq<string>)
    ensures ProjectSchema(s, names).Ok? <==> forall k :: 0 <= k < |names| ==> Position(s, names[k]).Some?
    ensures ProjectSchema(s, names).Ok? ==> |ProjectSchema(s, names).value| == |names|
  {
    if names != [] {
      ProjectsIff(s, names[1..]);
      assert names == [names[0]] + names[1..];
    }
  }

  lemma {:induction false} ProjectedAt(s: Schema, row: Row, names: seq<string>, indices: seq<nat>)
    requires |indices| == |names| && |row| == |s|
    requires forall k :: 0 <= k < |names| ==> Position(s, names[k]) == Some(indices[k]) && indices[k] < |s|
    ensures |ProjectRow(s, row, names)| == |names|
    ensures forall k :: 0 <= k < |names| ==> ProjectRow(s, row, names)[k] == row[indices[k]]
  {
    if names != [] {
      ProjectedAt(s, row, names[1..], indices[1..]);
    }
  }

  lemma ScanRowsAppend(s: Schema, a: seq<Row>, b: seq<Row>, projection: seq<string>)
    ensures ScanRows(s, a + b, projection) == ScanRows(s, a, projection) + ScanRows(s, b, projection)
  {
  }

  lemma {:induction false} ScannedRows(s: Schema, names: seq<string>, indices: seq<nat>, b: RecordBatch,
                                       cut: RecordBatch)
    requires Valid(b) && |b.columns| == |s| && names != [] && AreIndices(s, names, indices)
    requires cut.numRows == b.numRows && |cut.columns| == |names|
    requires forall k :: 0 <= k < |names| ==> cut.columns[k] == b.columns[indices[k]]
    ensures Valid(cut) && Rows(cut) == ScanRows(s, Rows(b), names)
  {
    var rows := ScanRows(s, Rows(b), names);
    forall i | 0 <= i < b.numRows
      ensures |rows[i]| == |names| && forall k :: 0 <= k < |names| ==> cut.columns[k][i] == rows[i][k]
    {
      ProjectedAt(s, RowAt(b, i), names, indices);
      assert rows[i] == ProjectRow(s, RowAt(b, i), names);
    }
    RowsDetermine(cut, rows);
  }

  // ---------------------------------------------------------------- the whole plan

  // What each table's provider holds: its rows, in batches of all its columns, with nulls only
  // where its schema allows them.
  ghost predicate Stored(w: World, tables: TableSource -> seq<RecordBatch>) {
    (forall t :: Shaped(tables(t), |t.schema|) && AllRows(tables(t)) == w.rows(t)) && TablesAllow(w)
  }

  // Rows come out in a determined order, and every operator has a column to put them in.
  predicate InOrder(p: Plan) {
    match p
    case TableScan(_, source, _) => source.schema != []
    case Projection(input, exprs) => exprs != [] && InOrder(input)
    case Filter(input, _) => InOrder(input)
    case Aggregate(_, _, _) => false
    case Limit(input, _) => InOrder(input)
    case Join(left, right, joinType, _) =>
      (joinType == Inner || joinType == LeftOuter) && InOrder(left) && InOrder(right)
  }

  // A negative limit is an unsigned number that no more rows are held below it.
  ghost predicate CountsFit(w: World, p: Plan) {
    match p
    case TableScan(_, _, _) => true
    case Projection(input, _) => CountsFit(w, input)
    case Filter(input, _) => CountsFit(w, input)
    case Aggregate(input, _, _) => CountsFit(w, input)
    case Limit(input, _) =>
      CountsFit(w, input) && (Denote(w, input).Some? ==> |Denote(w, input).value.rows| <= 0x7FFF_FFFF_FFFF_FFFF)
    case Join(left, right, _, _) => CountsFit(w, left) && CountsFit(w, right)
  }

  // The batches hold what the plan means, in order.
  ghost predicate Computes(w: World, p: Plan, r: Result<seq<RecordBatch>>) {
    && (r.Ok? <==> Denote(w, p).Some? && NullsHeld(w, p))
    && (r.Ok? ==> Shaped(r.value, |Denote(w, p).value.schema|) && AllRows(r.value) == Denote(w, p).value.rows)
  }

  lemma {:induction false} WellTypedWorld(w: World, tables: TableSource -> seq<RecordBatch>)
    requires Stored(w, tables)
    ensures WellTyped(w)
  {
    forall t: TableSource, row: Row | row in w.rows(t) ensures |row| == |t.schema| {
      WideRows(tables(t), |t.schema|, row);
    }
  }

  lemma {:induction false} HasColumns(w: World, p: Plan)
    requires InOrder(p) && SchemaOf(w.text, p).Ok?
    ensures SchemaOf(w.text, p).value != []
  {
    match p
    case TableScan(_, source, projection) => ProjectsIff(source.schema, projection);
    case Projection(input, exprs) => ToFieldsWidth(w.text, exprs, SchemaOf(w.text, input));
    case Filter(input, _) => HasColumns(w, input);
    case Limit(input, _) => HasColumns(w, input);
    case Join(left, _, _, _) => HasColumns(w, left);
  }

  lemma PaddingHeld(w: World, p: Plan)
    requires WellTyped(w) && p.Join? && NullsHeld(w, p.left) && NullsHeld(w, p.right)
    ensures Denote(w, p).Some? ==> (NullsHeld(w, p) <==> HashJoinMeaning.NullsAllowed(Denote(w, p).value))
  {
    hide Denote;
    if Denote(w, p).Some? {
      DenoteRectangular(w, p);
      AllowedRows(Denote(w, p).value.schema, Denote(w, p).value.rows);
    }
  }

  /** Planning and running a query. Each operator runs over the batches its input yields; a
      name that cannot be resolved, a row that cannot be evaluated, or a missing schema fails
      it, and so does a null in a field that allows none. It succeeds exactly when the logical
      plan has a meaning and no join in it pads a field that is not nullable, and then yields
      that meaning's rows in order. */
  method RunPlan(w: World, p: Plan, tables: TableSource -> seq<RecordBatch>) returns (r: Result<seq<RecordBatch>>)
    requires Stored(w, tables) && InOrder(p) && CountsFit(w, p)
    ensures Computes(w, p, r)
    decreases p
  {
    WellTypedWorld(w, tables);
    var schema :- SchemaOf(w.text, p);
    HasColumns(w, p);
    match p
    case TableScan(_, source, projection) =>
      r := ScanAll(source.schema, projection, tables(source));
    case Projection(input, exprs) =>
      var batches :- RunPlan(w, input, tables);
      DenoteRectangular(w, input);
      var s := SchemaOf(w.text, input);
      if !AllBound(exprs, s.value) {
        return Err(SchemaError);
      }
      ToFieldsWidth(w.text, exprs, s);
      HeldAllows(w, input);
      r := Project(w, exprs, s.value, schema, batches);
    case Filter(input, condition) =>
      var batches :- RunPlan(w, input, tables);
      DenoteRectangular(w, input);
      if !Bound(condition, schema) {
        return Err(SchemaError);
      }
      HeldAllows(w, input);
      r := FilterAll(w, condition, schema, batches);
    case Limit(input, n) =>
      var batches :- RunPlan(w, input, tables);
      DenoteRectangular(w, input);
      var first := LimitAll(n, |schema|, batches);
      r := Ok(first);
    case Join(left, right, joinType, on) =>
      var lefts :- RunPlan(w, left, tables);
      var rights :- RunPlan(w, right, tables);
      PaddingHeld(w, p);
      r := HashJoinMeaning.RunPlannedJoin(w, left, right, joinType, on, lefts, rights);
  }
}
