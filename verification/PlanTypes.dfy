/** Every cell of a plan's meaning is null or of its field's type, if the cell-level
    operations keep to theirs. */
module PlanTypes {
  import opened Results
  import opened Scalars
  import opened Operators
  import opened LogicalPlan
  import opened PushDownSchemas
  import opened PushDownMeaning

  // A cell of a column of some type; nulls fit everywhere.
  predicate Fits(v: ScalarValue, t: DataType) {
    v.Null? ||
    match t
    case NullType => false
    case BooleanType => v.Boolean?
    case Int8Type => v.Int8?
    case Int16Type => v.Int16?
    case Int32Type => v.Int32?
    case Int64Type => v.Int64?
    case UInt8Type => v.UInt8?
    case UInt16Type => v.UInt16?
    case UInt32Type => v.UInt32?
    case UInt64Type => v.UInt64?
    case Float32Type => v.Float32?
    case Float64Type => v.Float64?
    case Utf8Type => v.Utf8?
    case BinaryType => v.Binary?
    case Date32Type => v.Date32?
  }

  // The operators that answer true, false or null.
  predicate Decides(op: Operator) {
    op in {And, Or, Eq, NotEq, Lt, LtEq, Gt, GtEq, IsDistinctFrom, IsNotDistinctFrom,
           LikeMatch, ILikeMatch, NotLikeMatch, NotILikeMatch,
           RegexMatch, RegexIMatch, RegexNotMatch, RegexNotIMatch}
  }

  ghost predicate TypedRow(s: Schema, row: Row) {
    |row| == |s| && forall i :: 0 <= i < |s| ==> Fits(row[i], s[i].dataType)
  }

  ghost predicate Typed(r: Relation) {
    forall i :: 0 <= i < |r.rows| ==> TypedRow(r.schema, r.rows[i])
  }

  ghost predicate AllFit(values: seq<ScalarValue>, t: DataType) {
    forall v :: v in values ==> Fits(v, t)
  }

  // Tables hold what their schemas say; casts and date shifts give the type they name,
  // comparisons truth values, arithmetic its left operand's type; COUNT is a 32-bit integer
  // and the other aggregates are of their argument's type.
  ghost predicate TypedWorld(w: World) {
    && (forall t: TableSource, row: Row :: row in w.rows(t) ==> TypedRow(t.schema, row))
    && (forall v, t :: w.cast(v, t).Some? ==> Fits(w.cast(v, t).value, t))
    && (forall a, b, later :: w.shiftDate(a, b, later).Some? ==> Fits(w.shiftDate(a, b, later).value, Date32Type))
    && (forall op: Operator, a, b :: w.binary(op, a, b).Some? ==>
          Fits(w.binary(op, a, b).value, if Decides(op) then BooleanType else TypeOf(a)))
    && (forall values :: w.reduce(Count, values).Some? ==> Fits(w.reduce(Count, values).value, Int32Type))
    && (forall func, values, t :: func != Count && AllFit(values, t) && w.reduce(func, values).Some? ==>
          Fits(w.reduce(func, values).value, t))
  }

  // ---------------------------------------------------------------- expressions

  lemma CellTyped(s: Schema, row: Row, name: string)
    requires TypedRow(s, row) && Cell(s, row, name).Some?
    ensures FindField(s, name).Some? && Fits(Cell(s, row, name).value, FindField(s, name).value.dataType)
  {
    CellPosition(s, row, name);
    FindFieldPosition(s, name);
  }

  lemma {:induction false} EvalTyped(w: World, e: Expr, s: Schema, row: Row)
    requires TypedWorld(w) && TypedRow(s, row)
    requires Eval(w, e, s, row).Some? && ToField(w.text, e, Ok(s)).Ok?
    ensures Fits(Eval(w, e, s, row).value, ToField(w.text, e, Ok(s)).value.dataType)
  {
    match e
    case Column(name) => CellTyped(s, row, name);
    case BinaryExpr(l, op, r) =>
      if !Decides(op) {
        EvalTyped(w, l, s, row);
        ArithmeticTyped(w, op, Eval(w, l, s, row).value, Eval(w, r, s, row).value,
                        ToField(w.text, l, Ok(s)).value.dataType);
      }
    case Alias(inner, _) => EvalTyped(w, inner, s, row);
    case _ =>
  }

  lemma ArithmeticTyped(w: World, op: Operator, a: ScalarValue, b: ScalarValue, t: DataType)
    requires TypedWorld(w) && !Decides(op) && Fits(a, t) && w.binary(op, a, b).Some?
    ensures Fits(w.binary(op, a, b).value, t)
  {
    assert Fits(w.binary(op, a, b).value, TypeOf(a));
    if w.binary(op, a, b).value.Null? {
    } else {
      assert TypeOf(w.binary(op, a, b).value) == TypeOf(a);
      NullOnly(w.binary(op, a, b).value);
    }
  }

  lemma NullOnly(v: ScalarValue)
    ensures TypeOf(v) == NullType <==> v.Null?
  {
  }

  lemma {:induction false} EvalListTyped(w: World, es: seq<Expr>, s: Schema, row: Row)
    requires TypedWorld(w) && TypedRow(s, row)
    requires EvalList(w, es, s, row).Some? && ToFields(w.text, es, Ok(s)).Ok?
    ensures TypedRow(ToFields(w.text, es, Ok(s)).value, EvalList(w, es, s, row).value)
  {
    if es != [] {
      hide TypedWorld;
      EvalTyped(w, es[0], s, row);
      EvalListTyped(w, es[1..], s, row);
    }
  }

  lemma {:induction false} EvalRowsTyped(w: World, es: seq<Expr>, r: Relation)
    requires TypedWorld(w) && Typed(r) && EvalRows(w, es, r).Some? && ToFields(w.text, es, Ok(r.schema)).Ok?
    ensures Typed(Relation(ToFields(w.text, es, Ok(r.schema)).value, EvalRows(w, es, r).value))
    decreases r.rows
  {
    if r.rows != [] {
      hide TypedWorld, TypedRow;
      EvalListTyped(w, es, r.schema, r.rows[0]);
      EvalRowsTyped(w, es, r.(rows := r.rows[1..]));
    }
  }

  // ---------------------------------------------------------------- aggregates

  // The argument fields the aggregates read, one per call.
  ghost predicate TypedArguments(w: World, aggs: seq<Expr>, s: Schema, fields: Schema, column: nat) {
    && column + |aggs| <= |fields|
    && forall j :: 0 <= j < |aggs| ==>
         && aggs[j].AggregateFunction? && aggs[j].args != [] && !aggs[j].distinct
         && ToField(w.text, aggs[j].args[0], Ok(s)) == Ok(fields[column + j])
  }

  lemma {:induction false} ReduceTyped(w: World, aggs: seq<Expr>, s: Schema, fields: Schema, args: seq<Row>,
                                       column: nat)
    requires TypedWorld(w) && TypedArguments(w, aggs, s, fields, column)
    requires forall i :: 0 <= i < |args| ==> TypedRow(fields, args[i])
    requires Reduce(w, aggs, args, column).Some? && ToFields(w.text, aggs, Ok(s)).Ok?
    ensures TypedRow(ToFields(w.text, aggs, Ok(s)).value, Reduce(w, aggs, args, column).value)
  {
    if aggs != [] {
      var values := seq(|args|, i requires 0 <= i < |args| => if column < |args[i]| then args[i][column] else Null);
      assert AllFit(values, fields[column].dataType);
      assert TypedArguments(w, aggs[1..], s, fields, column + 1) by {
        forall j | 0 <= j < |aggs[1..]|
          ensures aggs[1..][j] == aggs[j + 1] && fields[column + 1 + j] == fields[column + (j + 1)]
        {
        }
      }
      ReduceTyped(w, aggs[1..], s, fields, args, column + 1);
      HeadTyped(w, aggs[0], s, values, fields[column].dataType);
      var first, rest := ToField(w.text, aggs[0], Ok(s)).value, ToFields(w.text, aggs[1..], Ok(s)).value;
      RowsAppend([first], rest, [w.reduce(aggs[0].func, values).value], Reduce(w, aggs[1..], args, column + 1).value);
    }
  }

  lemma HeadTyped(w: World, agg: Expr, s: Schema, values: seq<ScalarValue>, t: DataType)
    requires TypedWorld(w) && agg.AggregateFunction? && agg.args != [] && !agg.distinct
    requires ToField(w.text, agg.args[0], Ok(s)).Ok? && ToField(w.text, agg.args[0], Ok(s)).value.dataType == t
    requires AllFit(values, t) && w.reduce(agg.func, values).Some? && ToField(w.text, agg, Ok(s)).Ok?
    ensures Fits(w.reduce(agg.func, values).value, ToField(w.text, agg, Ok(s)).value.dataType)
  {
  }

  lemma {:induction false} MembersArePart(keys: seq<Row>, args: seq<Row>, key: Row)
    requires |keys| == |args|
    ensures forall m :: m in MembersOf(keys, args, key) ==> m in args
  {
    if keys != [] {
      MembersArePart(keys[1..], args[1..], key);
    }
  }

  lemma {:induction false} GroupRowsTyped(w: World, group: Schema, aggs: seq<Expr>, s: Schema, fields: Schema,
                                          keys: seq<Row>, args: seq<Row>, order: seq<Row>)
    requires TypedWorld(w) && TypedArguments(w, aggs, s, fields, 0) && |keys| == |args|
    requires (forall row :: row in args ==> TypedRow(fields, row)) && (forall k :: k in order ==> TypedRow(group, k))
    requires GroupRows(w, aggs, keys, args, order).Some? && ToFields(w.text, aggs, Ok(s)).Ok?
    ensures Typed(Relation(group + ToFields(w.text, aggs, Ok(s)).value, GroupRows(w, aggs, keys, args, order).value))
    decreases order
  {
    if order != [] {
      hide TypedWorld, TypedArguments;
      var members := MembersOf(keys, args, order[0]);
      MembersArePart(keys, args, order[0]);
      ReduceTyped(w, aggs, s, fields, members, 0);
      assert order[0] in order;
      GroupRowsTyped(w, group, aggs, s, fields, keys, args, order[1..]);
      RowsAppend(group, ToFields(w.text, aggs, Ok(s)).value, order[0], Reduce(w, aggs, members, 0).value);
    }
  }

  lemma RowsAppend(a: Schema, b: Schema, x: Row, y: Row)
    requires TypedRow(a, x) && TypedRow(b, y)
    ensures TypedRow(a + b, x + y)
  {
  }

  lemma {:induction false} ArgumentFields(w: World, aggs: seq<Expr>, s: Schema)
    requires AggregateArgs(aggs).Some? && ToFields(w.text, AggregateArgs(aggs).value, Ok(s)).Ok?
    ensures TypedArguments(w, aggs, s, ToFields(w.text, AggregateArgs(aggs).value, Ok(s)).value, 0)
  {
    if aggs != [] {
      var args := AggregateArgs(aggs).value;
      assert args[1..] == AggregateArgs(aggs[1..]).value;
      ArgumentFields(w, aggs[1..], s);
      var fields, rest := ToFields(w.text, args, Ok(s)).value, ToFields(w.text, args[1..], Ok(s)).value;
      forall j | 0 <= j < |aggs|
        ensures aggs[j].AggregateFunction? && aggs[j].args != [] && !aggs[j].distinct
        ensures ToField(w.text, aggs[j].args[0], Ok(s)) == Ok(fields[j])
      {
        if j > 0 {
          assert aggs[j] == aggs[1..][j - 1] && fields[j] == rest[j - 1];
          assert ToField(w.text, aggs[1..][j - 1].args[0], Ok(s)) == Ok(rest[0 + (j - 1)]);
        }
      }
    }
  }

  // A bound argument has a field.
  lemma {:induction false} BoundFields(text: Texts, es: seq<Expr>, s: Schema)
    requires AllBound(es, s)
    ensures ToFields(text, es, Ok(s)).Ok?
  {
    if es != [] {
      assert es[0] in es;
      BoundField(text, es[0], s);
      BoundFields(text, es[1..], s);
    }
  }

  lemma {:induction false} BoundField(text: Texts, e: Expr, s: Schema)
    requires Bound(e, s)
    ensures ToField(text, e, Ok(s)).Ok?
  {
    match e
    case Column(name) => FindFieldNames(s, name);
    case Cast(inner, _) => BoundField(text, inner, s);
    case BinaryExpr(l, _, _) => BoundField(text, l, s);
    case Alias(inner, _) => BoundField(text, inner, s);
    case _ =>
  }

  // ---------------------------------------------------------------- operators

  lemma {:induction false} ProjectedTyped(s: Schema, row: Row, names: seq<string>)
    requires TypedRow(s, row) && ProjectSchema(s, names).Ok?
    ensures TypedRow(ProjectSchema(s, names).value, ProjectRow(s, row, names))
  {
    if names != [] {
      ProjectedTyped(s, row, names[1..]);
    }
  }

  lemma {:induction false} WithoutTyped(s: Schema, row: Row, hidden: set<string>)
    requires TypedRow(s, row)
    ensures TypedRow(Without(s, hidden), WithoutCells(s, row, hidden))
  {
    if s != [] {
      WithoutTyped(s[1..], row[1..], hidden);
    }
  }

  lemma JoinedTyped(l: Schema, lrow: Row, r: Schema, rrow: Row, hidden: set<string>)
    requires TypedRow(l, lrow) && TypedRow(r, rrow)
    ensures TypedRow(l + Without(r, hidden), lrow + WithoutCells(r, rrow, hidden))
  {
    WithoutTyped(r, rrow, hidden);
    RowsAppend(l, Without(r, hidden), lrow, WithoutCells(r, rrow, hidden));
  }

  lemma NullsTyped(s: Schema)
    ensures TypedRow(s, Nulls(|s|))
  {
  }

  lemma {:induction false} MatchesTyped(l: Schema, lrow: Row, r: Relation, on: seq<(string, string)>)
    requires TypedRow(l, lrow) && Typed(r)
    ensures Typed(Relation(l + Without(r.schema, DuplicateKeys(on)), Matches(l, lrow, r, on)))
    decreases r.rows
  {
    if r.rows != [] {
      hide TypedRow, KeyCells;
      MatchesTyped(l, lrow, r.(rows := r.rows[1..]), on);
      JoinedTyped(l, lrow, r.schema, r.rows[0], DuplicateKeys(on));
    }
  }

  lemma {:induction false} JoinRowsTyped(l: Relation, r: Relation, outer: bool, on: seq<(string, string)>)
    requires Typed(l) && Typed(r)
    ensures Typed(Relation(l.schema + Without(r.schema, DuplicateKeys(on)), JoinRows(l, r, outer, on)))
    decreases l.rows
  {
    if l.rows != [] {
      hide TypedRow, Matches;
      MatchesTyped(l.schema, l.rows[0], r, on);
      NullsTyped(r.schema);
      JoinedTyped(l.schema, l.rows[0], r.schema, Nulls(|r.schema|), DuplicateKeys(on));
      JoinRowsTyped(l.(rows := l.rows[1..]), r, outer, on);
    }
  }

  lemma {:induction false} UnpairedTyped(l: Relation, r: Relation, on: seq<(string, string)>)
    requires Typed(r)
    ensures Typed(Relation(l.schema + Without(r.schema, DuplicateKeys(on)), Unpaired(l, r, on)))
    decreases r.rows
  {
    if r.rows != [] {
      hide TypedRow, Paired;
      UnpairedTyped(l, r.(rows := r.rows[1..]), on);
      NullsTyped(l.schema);
      JoinedTyped(l.schema, Nulls(|l.schema|), r.schema, r.rows[0], DuplicateKeys(on));
    }
  }

  lemma AggregateTyped(w: World, group: seq<Expr>, aggs: seq<Expr>, r: Relation, keys: seq<Row>, args: seq<Row>)
    requires TypedWorld(w) && Typed(r) && AggregateArgs(aggs).Some? && AllBound(AggregateArgs(aggs).value, r.schema)
    requires EvalRows(w, group, r) == Some(keys) && EvalRows(w, AggregateArgs(aggs).value, r) == Some(args)
    requires |keys| == |args| && GroupRows(w, aggs, keys, args, FirstOccurrences(keys)).Some?
    requires ToFields(w.text, group, Ok(r.schema)).Ok? && ToFields(w.text, aggs, Ok(r.schema)).Ok?
    ensures Typed(Relation(ToFields(w.text, group, Ok(r.schema)).value + ToFields(w.text, aggs, Ok(r.schema)).value,
                           GroupRows(w, aggs, keys, args, FirstOccurrences(keys)).value))
  {
    hide TypedWorld, TypedArguments, TypedRow;
    BoundFields(w.text, AggregateArgs(aggs).value, r.schema);
    ArgumentFields(w, aggs, r.schema);
    EvalRowsTyped(w, group, r);
    EvalRowsTyped(w, AggregateArgs(aggs).value, r);
    FirstOccurrencesArePart(keys);
    var fields := ToFields(w.text, AggregateArgs(aggs).value, Ok(r.schema)).value;
    GroupRowsTyped(w, ToFields(w.text, group, Ok(r.schema)).value, aggs, r.schema, fields, keys, args,
                   FirstOccurrences(keys));
  }

  lemma TypedRowsAreWide(w: World)
    requires TypedWorld(w)
    ensures WellTyped(w)
  {
  }

  lemma SelectedTyped(r: Relation, verdicts: seq<Row>)
    requires Typed(r) && |verdicts| == |r.rows|
    ensures Typed(r.(rows := Selected(r.rows, verdicts)))
  {
    hide TypedRow;
    var kept := Selected(r.rows, verdicts);
    SelectedIsPart(r.rows, verdicts);
    forall i | 0 <= i < |kept| ensures TypedRow(r.schema, kept[i]) {
      assert kept[i] in r.rows;
    }
  }

  /** The cells of every meaning have their fields' types. */
  lemma {:induction false} DenoteTyped(w: World, p: Plan)
    requires TypedWorld(w) && Denote(w, p).Some?
    ensures Typed(Denote(w, p).value)
  {
    hide TypedWorld, TypedRow;
    TypedRowsAreWide(w);
    match p
    case TableScan(_, source, projection) => ScanTyped(w, source, projection);
    case Projection(input, exprs) =>
      DenoteTyped(w, input);
      DenoteRectangular(w, input);
      EvalRowsTyped(w, exprs, Denote(w, input).value);
    case Filter(input, condition) =>
      DenoteTyped(w, input);
      DenoteRectangular(w, input);
      var r := Denote(w, input).value;
      EvalRowsLength(w, [condition], r);
      SelectedTyped(r, EvalRows(w, [condition], r).value);
    case Aggregate(input, group, aggs) =>
      DenoteTyped(w, input);
      DenoteRectangular(w, input);
      var r, args := Denote(w, input).value, AggregateArgs(aggs).value;
      EvalRowsLength(w, group, r);
      EvalRowsLength(w, args, r);
      AggregateTyped(w, group, aggs, r, EvalRows(w, group, r).value, EvalRows(w, args, r).value);
    case Limit(input, _) =>
      DenoteTyped(w, input);
      DenoteRectangular(w, input);
    case Join(left, right, joinType, on) =>
      DenoteTyped(w, left);
      DenoteTyped(w, right);
      DenoteRectangular(w, left);
      DenoteRectangular(w, right);
      JoinTyped(Denote(w, left).value, Denote(w, right).value, joinType, on);
  }

  lemma JoinTyped(l: Relation, r: Relation, joinType: JoinType, on: seq<(string, string)>)
    requires Typed(l) && Typed(r) && HasOneLayout(joinType, on)
    ensures JoinSchema(l.schema, r.schema, joinType, on).Ok?
    ensures Typed(Relation(JoinSchema(l.schema, r.schema, joinType, on).value, JoinResult(l, r, joinType, on)))
  {
    hide TypedRow, JoinRows, Unpaired;
    OneLayout(l.schema, r.schema, joinType, on);
    JoinRowsTyped(l, r, joinType == LeftOuter, on);
    UnpairedTyped(l, r, on);
  }

  lemma ScanTyped(w: World, source: TableSource, projection: seq<string>)
    requires TypedWorld(w) && DeriveSchema(source.schema, projection).Ok?
    ensures Typed(Relation(DeriveSchema(source.schema, projection).value,
                           ScanRows(source.schema, w.rows(source), projection)))
  {
    var rows := w.rows(source);
    forall i | 0 <= i < |rows|
      ensures TypedRow(DeriveSchema(source.schema, projection).value, ScanRows(source.schema, rows, projection)[i])
    {
      assert rows[i] in rows;
      if projection != [] {
        ProjectedTyped(source.schema, rows[i], projection);
      }
    }
  }
}
