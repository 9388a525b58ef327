/** What filters, projections and joins do to their inputs' rows, said of the rows themselves. */
module PlanLaws {
  import opened Results
  import opened Scalars
  import opened LogicalPlan
  import opened PushDownMeaning
  import opened PushDownSchemas
  import opened PlannedQuery
  import O = Operators
  import BooleanCells

  lemma MeaningHasSchema(w: World, p: Plan)
    requires Denote(w, p).Some?
    ensures SchemaOf(w.text, p) == Ok(Denote(w, p).value.schema)
  {
  }

  // ---------------------------------------------------------------- filter

  // The rows a filter keeps stand at these places of its input.
  ghost predicate KeptAt(rows: seq<Row>, kept: seq<Row>, places: seq<nat>) {
    && |places| == |kept|
    && (forall i, j :: 0 <= i < j < |places| ==> places[i] < places[j])
    && forall i :: 0 <= i < |places| ==> places[i] < |rows| && rows[places[i]] == kept[i]
  }

  lemma {:induction false} SelectedAt(rows: seq<Row>, verdicts: seq<Row>) returns (places: seq<nat>)
    requires |rows| == |verdicts|
    ensures KeptAt(rows, Selected(rows, verdicts), places)
    ensures forall i :: 0 <= i < |rows| ==> (i in places <==> verdicts[i] == [Boolean(true)])
  {
    if rows == [] {
      places := [];
    } else {
      hide Selected;
      var last := |rows| - 1;
      var front := SelectedAt(rows[..last], verdicts[..last]);
      SelectedPush(rows[..last], verdicts[..last], rows[last], verdicts[last]);
      assert rows == rows[..last] + [rows[last]] && verdicts == verdicts[..last] + [verdicts[last]];
      places := front + if verdicts[last] == [Boolean(true)] then [last] else [];
    }
  }

  /** A filter keeps, in order, the rows on which its condition is true: not those on which
      it is false, and not those on which it is null. */
  lemma FilterKeepsTheTrue(w: World, input: Plan, condition: Expr) returns (places: seq<nat>)
    requires Denote(w, Filter(input, condition)).Some?
    ensures var before, after := Denote(w, input).value, Denote(w, Filter(input, condition)).value;
            && after.schema == before.schema && KeptAt(before.rows, after.rows, places)
            && forall i :: 0 <= i < |before.rows| ==>
                 (i in places <==> Eval(w, condition, before.schema, before.rows[i]) == Some(Boolean(true)))
  {
    var before := Denote(w, input).value;
    MeaningHasSchema(w, input);
    var verdicts := EvalRows(w, [condition], before).value;
    EvalRowsAt(w, [condition], before.schema, before.rows);
    assert before == Relation(before.schema, before.rows);
    places := SelectedAt(before.rows, verdicts);
    forall i | 0 <= i < |before.rows|
      ensures verdicts[i] == [Boolean(true)] <==>
              Eval(w, condition, before.schema, before.rows[i]) == Some(Boolean(true))
    {
      OneExpression(w, condition, before.schema, before.rows[i]);
    }
  }

  // ---------------------------------------------------------------- projection

  // The name an expression's column goes by when it is given one.
  predicate GoesBy(e: Expr, name: string) {
    e == Column(name) || (e.Alias? && e.alias == name) || (e.Cast? && e.expr == Column(name))
  }

  lemma {:induction false} FieldOf(text: Texts, es: seq<Expr>, input: Result<Schema>, k: nat)
    requires k < |es| && ToFields(text, es, input).Ok?
    ensures |ToFields(text, es, input).value| == |es|
    ensures ToField(text, es[k], input) == Ok(ToFields(text, es, input).value[k])
  {
    ToFieldsWidth(text, es, input);
    if k > 0 {
      FieldOf(text, es[1..], input, k - 1);
    }
  }

  lemma {:induction false} FirstPosition(s: Schema, k: nat)
    requires k < |s| && forall i :: 0 <= i < k ==> s[i].name != s[k].name
    ensures s[k].name in Names(s) && Position(s, s[k].name) == Some(k)
  {
    if k > 0 {
      FirstPosition(s[1..], k - 1);
    }
    assert s[k] in s;
  }

  lemma {:induction false} FieldIsFound(s: Schema, name: string)
    requires FindField(s, name).Some?
    ensures FindField(s, name).value.name == name
  {
    if s[0].name != name {
      FieldIsFound(s[1..], name);
    }
  }

  /** The first column of a projection that goes by a name is what the name reads: an alias
      stands for its expression, a bare column, cast or not, for itself. */
  lemma NameReadsItsExpression(w: World, input: Plan, exprs: seq<Expr>, k: nat, name: string, i: nat)
    requires Denote(w, Projection(input, exprs)).Some? && k < |exprs| && GoesBy(exprs[k], name)
    requires forall j :: 0 <= j < k && j < |Denote(w, Projection(input, exprs)).value.schema| ==>
               Denote(w, Projection(input, exprs)).value.schema[j].name != name
    requires i < |Denote(w, input).value.rows|
    ensures var before, after := Denote(w, input).value, Denote(w, Projection(input, exprs)).value;
            && |after.rows| == |before.rows|
            && Eval(w, Column(name), after.schema, after.rows[i])
               == Eval(w, exprs[k], before.schema, before.rows[i])
  {
    var before, after := Denote(w, input).value, Denote(w, Projection(input, exprs)).value;
    MeaningHasSchema(w, input);
    FieldOf(w.text, exprs, Ok(before.schema), k);
    GoesByItsName(w.text, exprs[k], Ok(before.schema), name);
    assert after.schema[k].name == name;
    FirstPosition(after.schema, k);
    EvalRowsAt(w, exprs, before.schema, before.rows);
    assert before == Relation(before.schema, before.rows);
    EvalListAt(w, exprs, before.schema, before.rows[i]);
    CellPosition(after.schema, after.rows[i], name);
  }

  // ---------------------------------------------------------------- comparison

  // A world whose operators answer as the engine's boolean kernels do.
  ghost predicate AnswersRight(w: World, floats: BooleanCells.FloatComparison) {
    forall op: O.Operator, a, b :: (op.IsComparison() || op.IsLogic()) && w.binary(op, a, b).Some? ==>
      BooleanCells.RightCell(floats, op, a, b, w.binary(op, a, b).value)
  }

  /** A filter by a comparison of two columns keeps, in order, the rows whose first column's
      number or text compares so to the second's, and none with a null in either. */
  lemma ComparisonFilters(w: World, floats: BooleanCells.FloatComparison, input: Plan, x: string, op: O.Operator,
                          y: string)
    returns (places: seq<nat>)
    requires AnswersRight(w, floats) && WellTyped(w) && op in {O.Eq, O.NotEq, O.Lt, O.LtEq, O.Gt, O.GtEq}
    requires Denote(w, Filter(input, BinaryExpr(Column(x), op, Column(y)))).Some?
    ensures var before, after := Denote(w, input).value,
                                 Denote(w, Filter(input, BinaryExpr(Column(x), op, Column(y)))).value;
            && KeptAt(before.rows, after.rows, places) && x in Names(before.schema) && y in Names(before.schema)
            && forall i :: 0 <= i < |before.rows| ==>
                 var a, b := Cell(before.schema, before.rows[i], x), Cell(before.schema, before.rows[i], y);
                 && a.Some? && b.Some?
                 && (a == Some(Null) || b == Some(Null) ==> i !in places)
                 && (a.value.Utf8? && b.value.Utf8? ==>
                       (i in places <==> BooleanCells.TextTest(op, a.value.s, b.value.s)))
                 && (BooleanCells.ComparesAsNumbers(a.value, b.value) ==>
                       (i in places <==> BooleanCells.NumberTest(op, BooleanCells.WholeNumber(a.value).value,
                                                                 BooleanCells.WholeNumber(b.value).value)))
  {
    hide Denote, BooleanCells.NumberTest, BooleanCells.TextTest, Cell, KeptAt;
    var condition := BinaryExpr(Column(x), op, Column(y));
    places := FilterKeepsTheTrue(w, input, condition);
    ConditionBound(w, input, condition);
    var before := Denote(w, input).value;
    forall i | 0 <= i < |before.rows| ensures RowAnswersRight(w, floats, op, x, y, before.schema, before.rows[i]) {
      ConditionAnswers(w, floats, op, x, y, before.schema, before.rows[i]);
    }
  }

  lemma ConditionBound(w: World, input: Plan, condition: Expr)
    requires Denote(w, Filter(input, condition)).Some?
    ensures Denote(w, input).Some? && Bound(condition, Denote(w, input).value.schema)
    ensures forall i :: 0 <= i < |Denote(w, input).value.rows| ==>
              Eval(w, condition, Denote(w, input).value.schema, Denote(w, input).value.rows[i]).Some?
  {
    var r := Denote(w, input).value;
    assert r == Relation(r.schema, r.rows);
    EvalRowsAt(w, [condition], r.schema, r.rows);
    forall i | 0 <= i < |r.rows| ensures Eval(w, condition, r.schema, r.rows[i]).Some? {
      OneExpression(w, condition, r.schema, r.rows[i]);
    }
  }

  ghost predicate RowAnswersRight(w: World, floats: BooleanCells.FloatComparison, op: O.Operator, x: string, y: string,
                                  s: Schema, row: Row)
  {
    var a, b, cell := Cell(s, row, x), Cell(s, row, y), Eval(w, BinaryExpr(Column(x), op, Column(y)), s, row);
    a.Some? && b.Some? && cell.Some? && BooleanCells.RightCell(floats, op, a.value, b.value, cell.value)
  }

  lemma ConditionAnswers(w: World, floats: BooleanCells.FloatComparison, op: O.Operator, x: string, y: string,
                         s: Schema, row: Row)
    requires AnswersRight(w, floats) && op in {O.Eq, O.NotEq, O.Lt, O.LtEq, O.Gt, O.GtEq}
    requires Eval(w, BinaryExpr(Column(x), op, Column(y)), s, row).Some?
    ensures RowAnswersRight(w, floats, op, x, y, s, row)
  {
    hide BooleanCells.RightCell;
    assert Eval(w, Column(x), s, row) == Cell(s, row, x) && Eval(w, Column(y), s, row) == Cell(s, row, y);
    assert op.IsComparison();
    assert Eval(w, BinaryExpr(Column(x), op, Column(y)), s, row)
           == w.binary(op, Cell(s, row, x).value, Cell(s, row, y).value);
  }

  // ---------------------------------------------------------------- join

  /** The right cells a joined row leaves out are those of keys with one name on both sides,
      and the left row has the same cell under that name. */
  lemma LeftOutIsRepeated(l: Schema, left: Row, r: Schema, right: Row, on: seq<(string, string)>, name: string)
    requires KeyCells(l, left, LeftNames(on)) == KeyCells(r, right, RightNames(on))
    ensures name in DuplicateKeys(on) <==> (name, name) in on
    ensures name in DuplicateKeys(on) ==> Cell(r, right, name) == Cell(l, left, name)
  {
    if name in DuplicateKeys(on) {
      var k :| 0 <= k < |on| && on[k] == (name, name);
      assert KeyCells(l, left, LeftNames(on))[k] == KeyCells(r, right, RightNames(on))[k];
    }
  }

  /** The one field left of such a key is the left side's, or in a right join the right's. */
  lemma KeyFieldKept(l: Schema, r: Schema, joinType: JoinType, on: seq<(string, string)>, name: string)
    requires (name, name) in on && name in Names(l) && name in Names(r)
    requires joinType in {Inner, LeftOuter, RightOuter}
    ensures JoinSchema(l, r, joinType, on).Ok?
    ensures FindField(JoinSchema(l, r, joinType, on).value, name)
            == if joinType == RightOuter then FindField(r, name) else FindField(l, name)
  {
    var hidden := DuplicateKeys(on);
    FindFieldAppend(l, Without(r, hidden), name);
    FindFieldAppend(Without(l, hidden), r, name);
    FindFieldWithout(l, hidden, name);
  }

  // ---------------------------------------------------------------- aggregate

  // What an aggregate's column is called.
  function CallName(func: AggregateFunc, distinct: bool): string {
    match func
    case Count => if distinct then "COUNT_DISTINCT" else "COUNT"
    case Sum => "SUM"
    case Avg => "AVG"
    case Max => "MAX"
    case Min => "MIN"
  }

  /** An aggregate's columns are its keys, under the names they go by, then its calls, each
      under the name of its function. */
  lemma AggregateColumns(text: Texts, input: Plan, group: seq<Expr>, aggs: seq<Expr>, k: nat)
    requires SchemaOf(text, Aggregate(input, group, aggs)).Ok? && k < |group| + |aggs|
    ensures var s := SchemaOf(text, Aggregate(input, group, aggs)).value;
            && |s| == |group| + |aggs|
            && (k < |group| ==> forall name :: GoesBy(group[k], name) ==> s[k].name == name)
            && (k >= |group| && aggs[k - |group|].AggregateFunction? ==>
                  s[k].name == CallName(aggs[k - |group|].func, aggs[k - |group|].distinct))
  {
    hide ToField, ToFields, GoesBy, CallName;
    var s := SchemaOf(text, input);
    ToFieldsWidth(text, group, s);
    ToFieldsWidth(text, aggs, s);
    if k < |group| {
      FieldOf(text, group, s, k);
      forall name | GoesBy(group[k], name) ensures ToField(text, group[k], s).value.name == name {
        GoesByItsName(text, group[k], s, name);
      }
    } else {
      FieldOf(text, aggs, s, k - |group|);
      CallGoesByItsName(text, aggs[k - |group|], s);
    }
  }

  lemma GoesByItsName(text: Texts, e: Expr, s: Result<Schema>, name: string)
    requires GoesBy(e, name) && ToField(text, e, s).Ok?
    ensures ToField(text, e, s).value.name == name
  {
    if e.Column? || e.Cast? {
      FieldIsFound(s.value, name);
    }
  }

  lemma CallGoesByItsName(text: Texts, e: Expr, s: Result<Schema>)
    requires ToField(text, e, s).Ok?
    ensures e.AggregateFunction? ==> ToField(text, e, s).value.name == CallName(e.func, e.distinct)
  {
  }
}
