/** Where the nulls of a plan's meaning may stand: only in nullable fields, as long as no
    join pads a field that is not. */
module PlanNulls {
  import opened Results
  import opened Scalars
  import opened LogicalPlan
  import opened PushDownSchemas
  import opened PushDownMeaning
  import opened OuterJoinNulls

  // ---------------------------------------------------------------- expressions

  lemma {:induction false} EvalAllowed(w: World, e: Expr, s: Schema, row: Row)
    requires RowAllowed(s, row) && Eval(w, e, s, row).Some? && ToField(w.text, e, Ok(s)).Ok?
    ensures ToField(w.text, e, Ok(s)).value.nullable || Eval(w, e, s, row).value != Null
  {
    if e.Column? {
      CellPosition(s, row, e.name);
      FindFieldPosition(s, e.name);
    }
  }

  lemma {:induction false} EvalListAllowed(w: World, es: seq<Expr>, s: Schema, row: Row)
    requires RowAllowed(s, row) && EvalList(w, es, s, row).Some? && ToFields(w.text, es, Ok(s)).Ok?
    ensures RowAllowed(ToFields(w.text, es, Ok(s)).value, EvalList(w, es, s, row).value)
  {
    if es != [] {
      EvalAllowed(w, es[0], s, row);
      EvalListAllowed(w, es[1..], s, row);
    }
  }

  lemma {:induction false} EvalRowsAllowed(w: World, es: seq<Expr>, r: Relation)
    requires AllAllowed(r.schema, r.rows) && EvalRows(w, es, r).Some? && ToFields(w.text, es, Ok(r.schema)).Ok?
    ensures AllAllowed(ToFields(w.text, es, Ok(r.schema)).value, EvalRows(w, es, r).value)
    decreases r.rows
  {
    if r.rows != [] {
      EvalListAllowed(w, es, r.schema, r.rows[0]);
      EvalRowsAllowed(w, es, r.(rows := r.rows[1..]));
    }
  }

  // ---------------------------------------------------------------- scans and groups

  lemma {:induction false} ProjectedAllowed(s: Schema, row: Row, names: seq<string>)
    requires RowAllowed(s, row) && ProjectSchema(s, names).Ok?
    ensures RowAllowed(ProjectSchema(s, names).value, ProjectRow(s, row, names))
  {
    if names != [] {
      ProjectedAllowed(s, row, names[1..]);
      CellPosition(s, row, names[0]);
    }
  }

  lemma {:induction false} ScanAllowed(s: Schema, rows: seq<Row>, projection: seq<string>)
    requires AllAllowed(s, rows) && DeriveSchema(s, projection).Ok?
    ensures AllAllowed(DeriveSchema(s, projection).value, ScanRows(s, rows, projection))
  {
    if projection != [] {
      forall row | row in ScanRows(s, rows, projection) ensures RowAllowed(ProjectSchema(s, projection).value, row) {
        var i :| 0 <= i < |rows| && ScanRows(s, rows, projection)[i] == row;
        ProjectedAllowed(s, rows[i], projection);
      }
    }
  }

  lemma {:induction false} AggregatesNullable(text: Texts, aggs: seq<Expr>, s: Schema)
    requires AggregateArgs(aggs).Some? && ToFields(text, aggs, Ok(s)).Ok?
    ensures |ToFields(text, aggs, Ok(s)).value| == |aggs| && AllNullable(ToFields(text, aggs, Ok(s)).value)
  {
    if aggs != [] {
      AggregatesNullable(text, aggs[1..], s);
    }
  }

  lemma {:induction false} GroupsAllowed(w: World, aggs: seq<Expr>, keys: seq<Row>, args: seq<Row>, order: seq<Row>,
                                         g: Schema, a: Schema)
    requires |keys| == |args| && |a| == |aggs| && AllNullable(a) && AllAllowed(g, order)
    requires GroupRows(w, aggs, keys, args, order).Some?
    ensures AllAllowed(g + a, GroupRows(w, aggs, keys, args, order).value)
    decreases order
  {
    if order != [] {
      GroupsAllowed(w, aggs, keys, args, order[1..], g, a);
      var v := Reduce(w, aggs, MembersOf(keys, args, order[0]), 0).value;
      ReduceWidth(w, aggs, MembersOf(keys, args, order[0]), 0);
      assert RowAllowed(g, order[0]);
      AllowedBoth(g, a, order[0], v);
    }
  }

  // ---------------------------------------------------------------- plans

  // The tables keep to their schemas.
  ghost predicate TablesAllow(w: World) {
    forall t: TableSource :: AllAllowed(t.schema, w.rows(t))
  }

  // No join of the plan pads a field that is not nullable.
  ghost predicate NullsHeld(w: World, p: Plan) {
    match p
    case TableScan(_, _, _) => true
    case Projection(input, _) => NullsHeld(w, input)
    case Filter(input, _) => NullsHeld(w, input)
    case Aggregate(input, _, _) => NullsHeld(w, input)
    case Limit(input, _) => NullsHeld(w, input)
    case Join(left, right, _, _) =>
      && NullsHeld(w, left) && NullsHeld(w, right)
      && (Denote(w, p).Some? ==> AllAllowed(Denote(w, p).value.schema, Denote(w, p).value.rows))
  }

  /** Nulls stand in nullable fields only, throughout a plan that pads no others: a
      projection's and an aggregate's new fields are nullable wherever their cells may be
      null. */
  lemma {:induction false} HeldAllows(w: World, p: Plan)
    requires TablesAllow(w) && Denote(w, p).Some? && NullsHeld(w, p)
    ensures SchemaOf(w.text, p) == Ok(Denote(w, p).value.schema)
    ensures AllAllowed(Denote(w, p).value.schema, Denote(w, p).value.rows)
  {
    hide RowAllowed, ScanRows, DeriveSchema, EvalRows, GroupRows, AllNullable;
    match p
    case TableScan(_, source, projection) =>
      ScanAllowed(source.schema, w.rows(source), projection);
    case Projection(input, exprs) =>
      HeldAllows(w, input);
      EvalRowsAllowed(w, exprs, Denote(w, input).value);
    case Filter(input, condition) =>
      HeldAllows(w, input);
      EvalRowsLength(w, [condition], Denote(w, input).value);
      SelectedIsPart(Denote(w, input).value.rows, EvalRows(w, [condition], Denote(w, input).value).value);
    case Aggregate(input, group, aggs) =>
      HeldAllows(w, input);
      EvalRowsLength(w, group, Denote(w, input).value);
      EvalRowsLength(w, AggregateArgs(aggs).value, Denote(w, input).value);
      AggregateAllowed(w, group, aggs, Denote(w, input).value);
    case Limit(input, _) =>
      HeldAllows(w, input);
    case Join(_, _, _, _) =>
  }

  lemma AggregateAllowed(w: World, group: seq<Expr>, aggs: seq<Expr>, r: Relation)
    requires AllAllowed(r.schema, r.rows) && AggregateArgs(aggs).Some?
    requires ToFields(w.text, group, Ok(r.schema)).Ok? && ToFields(w.text, aggs, Ok(r.schema)).Ok?
    requires EvalRows(w, group, r).Some? && EvalRows(w, AggregateArgs(aggs).value, r).Some?
    requires var keys, values := EvalRows(w, group, r).value, EvalRows(w, AggregateArgs(aggs).value, r).value;
             |keys| == |values| && GroupRows(w, aggs, keys, values, FirstOccurrences(keys)).Some?
    ensures var keys, values := EvalRows(w, group, r).value, EvalRows(w, AggregateArgs(aggs).value, r).value;
            AllAllowed(ToFields(w.text, group, Ok(r.schema)).value + ToFields(w.text, aggs, Ok(r.schema)).value,
                       GroupRows(w, aggs, keys, values, FirstOccurrences(keys)).value)
  {
    hide RowAllowed, EvalRows, GroupRows, AllNullable;
    var keys, values := EvalRows(w, group, r).value, EvalRows(w, AggregateArgs(aggs).value, r).value;
    EvalRowsAllowed(w, group, r);
    AggregatesNullable(w.text, aggs, r.schema);
    FirstOccurrencesArePart(keys);
    GroupsAllowed(w, aggs, keys, values, FirstOccurrences(keys), ToFields(w.text, group, Ok(r.schema)).value,
                  ToFields(w.text, aggs, Ok(r.schema)).value);
  }
}
