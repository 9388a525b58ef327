/** Logical expressions and plans, their schemas, and what a plan means: a schema
    together with a sequence of rows. */
module LogicalPlan {
  import opened Results
  import opened Scalars
  import opened Operators

  // ---------------------------------------------------------------- schemas

  datatype DataType =
    | NullType | BooleanType
    | Int8Type | Int16Type | Int32Type | Int64Type
    | UInt8Type | UInt16Type | UInt32Type | UInt64Type
    | Float32Type | Float64Type | Utf8Type | BinaryType | Date32Type

  datatype Field = Field(name: string, dataType: DataType, nullable: bool)

  type Schema = seq<Field>

  function Names(s: Schema): set<string> {
    set f | f in s :: f.name
  }

  // Name lookup takes the first match.
  function FindField(s: Schema, name: string): Option<Field> {
    if s == [] then None else if s[0].name == name then Some(s[0]) else FindField(s[1..], name)
  }

  function Position(s: Schema, name: string): (r: Option<nat>)
    ensures r.Some? ==> r.value < |s| && s[r.value].name == name
    ensures r.None? <==> name !in Names(s)
  {
    if s == [] then None
    else if s[0].name == name then Some(0)
    else
      assert Names(s) == {s[0].name} + Names(s[1..]);
      match Position(s[1..], name)
      case None => None
      case Some(i) => Some(i + 1)
  }

  // ---------------------------------------------------------------- expressions

  datatype AggregateFunc = Min | Max | Sum | Avg | Count

  datatype Expr =
    | Column(name: string)
    | ColumnIndex(index: nat)
    | Literal(value: ScalarValue)
    | DateSubtractInterval(date: Expr, interval: Expr)
    | DateAddInterval(date: Expr, interval: Expr)
    | Cast(expr: Expr, dataType: DataType)
    | Not(expr: Expr)
    | BinaryExpr(left: Expr, op: Operator, right: Expr)
    | Alias(expr: Expr, alias: string)
    | ScalarFunction(funcName: string, args: seq<Expr>, returnType: DataType)
    | AggregateFunction(func: AggregateFunc, args: seq<Expr>, distinct: bool)

  function TypeOf(v: ScalarValue): DataType {
    match v
    case Null => NullType
    case Boolean(_) => BooleanType
    case Int8(_) => Int8Type
    case Int16(_) => Int16Type
    case Int32(_) => Int32Type
    case Int64(_) => Int64Type
    case UInt8(_) => UInt8Type
    case UInt16(_) => UInt16Type
    case UInt32(_) => UInt32Type
    case UInt64(_) => UInt64Type
    case Float32(_) => Float32Type
    case Float64(_) => Float64Type
    case Utf8(_) => Utf8Type
    case Binary(_) => BinaryType
    case Date32(_) => Date32Type
  }

  // The field an expression produces against an input whose schema is `input`. The
  // input's schema is asked for only when a column is reached, so an input without
  // one fails those expressions and no others. The display text of literals and
  // operators comes from `text`.
  function ToField(text: Texts, e: Expr, input: Result<Schema>): Result<Field> {
    match e
    case Column(name) =>
      var s :- input;
      (match FindField(s, name)
       case Some(f) => Ok(f)
       case None => Err(SchemaError))
    case ColumnIndex(i) =>
      var s :- input;
      if i < |s| then Ok(s[i]) else Err(Internal)
    case Literal(v) => Ok(Field(text.literal(v), TypeOf(v), v.Null?))
    case DateSubtractInterval(_, _) => Ok(Field("date_subtract", Date32Type, true))
    case DateAddInterval(_, _) => Ok(Field("date_add", Date32Type, true))
    case Cast(inner, t) =>
      var f :- ToField(text, inner, input);
      Ok(Field(f.name, t, true))
    case Not(_) => Ok(Field("not", BooleanType, true))
    case BinaryExpr(l, op, _) =>
      if op.IsComparison() || op.IsLogic() then Ok(Field(text.operator(op), BooleanType, true))
      else
        var f :- ToField(text, l, input);
        Ok(Field(text.operator(op), f.dataType, true))
    case Alias(inner, alias) =>
      var f :- ToField(text, inner, input);
      Ok(Field(alias, f.dataType, true))
    case ScalarFunction(name, _, t) => Ok(Field(name, t, true))
    case AggregateFunction(func, args, distinct) =>
      if args == [] then Err(Internal)
      else match func
        case Count =>
          Ok(if distinct then Field("COUNT_DISTINCT", UInt32Type, true) else Field("COUNT", Int32Type, true))
        case _ =>
          var f :- ToField(text, args[0], input);
          Ok(Field(AggregateName(func), f.dataType, true))
  }

  datatype Texts = Texts(literal: ScalarValue -> string, operator: Operator -> string)

  function AggregateName(func: AggregateFunc): string {
    match func
    case Min => "MIN"
    case Max => "MAX"
    case Sum => "SUM"
    case Avg => "AVG"
    case Count => "COUNT"
  }

  function ToFields(text: Texts, es: seq<Expr>, input: Result<Schema>): Result<Schema> {
    if es == [] then Ok([])
    else
      var f :- ToField(text, es[0], input);
      var rest :- ToFields(text, es[1..], input);
      Ok([f] + rest)
  }

  // ---------------------------------------------------------------- plans

  datatype TableSource = TableSource(table: string, schema: Schema)

  datatype JoinType =
    | Inner | LeftOuter | RightOuter | FullOuter
    | LeftSemi | RightSemi | LeftAnti | RightAnti | LeftMark | RightMark

  datatype Plan =
    | TableScan(path: string, source: TableSource, projection: seq<string>)
    | Projection(input: Plan, exprs: seq<Expr>)
    | Filter(input: Plan, condition: Expr)
    | Aggregate(input: Plan, groupExpr: seq<Expr>, aggregateExpr: seq<Expr>)
    | Limit(input: Plan, limit: I32)
    | Join(left: Plan, right: Plan, joinType: JoinType, on: seq<(string, string)>)

  // Keys whose two names are identical keep one output column.
  function DuplicateKeys(on: seq<(string, string)>): set<string> {
    set k | k in on && k.0 == k.1 :: k.0
  }

  function Without(s: Schema, hidden: set<string>): Schema {
    if s == [] then []
    else if s[0].name in hidden then Without(s[1..], hidden)
    else [s[0]] + Without(s[1..], hidden)
  }

  function ProjectSchema(s: Schema, names: seq<string>): Result<Schema> {
    if names == [] then Ok([])
    else match Position(s, names[0])
      case None => Err(SchemaError)
      case Some(i) =>
        var rest :- ProjectSchema(s, names[1..]);
        Ok([s[i]] + rest)
  }

  // An empty projection keeps every column.
  function DeriveSchema(s: Schema, projection: seq<string>): Result<Schema> {
    if projection == [] then Ok(s) else ProjectSchema(s, projection)
  }

  function JoinSchema(l: Schema, r: Schema, joinType: JoinType, on: seq<(string, string)>): Result<Schema> {
    match joinType
    case Inner | LeftOuter => Ok(l + Without(r, DuplicateKeys(on)))
    case RightOuter => Ok(Without(l, DuplicateKeys(on)) + r)
    case _ => Err(Panic)
  }

  function SchemaOf(text: Texts, p: Plan): Result<Schema> {
    match p
    case TableScan(_, source, projection) => DeriveSchema(source.schema, projection)
    case Projection(input, exprs) => ToFields(text, exprs, SchemaOf(text, input))
    case Filter(input, _) => SchemaOf(text, input)
    case Aggregate(input, group, aggs) =>
      var s := SchemaOf(text, input);
      var g :- ToFields(text, group, s);
      var a :- ToFields(text, aggs, s);
      Ok(g + a)
    case Limit(input, _) => SchemaOf(text, input)
    case Join(left, right, joinType, on) =>
      var l :- SchemaOf(text, left);
      var r :- SchemaOf(text, right);
      JoinSchema(l, r, joinType, on)
  }

  // ---------------------------------------------------------------- meaning

  // What the plan layer leaves open: the tables' rows, the cell-level operations, and
  // how one group's values are reduced.
  datatype World = World(
    text: Texts,
    rows: TableSource -> seq<Row>,
    binary: (Operator, ScalarValue, ScalarValue) -> Option<ScalarValue>,
    cast: (ScalarValue, DataType) -> Option<ScalarValue>,
    shiftDate: (ScalarValue, ScalarValue, bool) -> Option<ScalarValue>,
    reduce: (AggregateFunc, seq<ScalarValue>) -> Option<ScalarValue>)

  ghost predicate WellTyped(w: World) {
    forall t: TableSource, r: Row :: r in w.rows(t) ==> |r| == |t.schema|
  }

  datatype Relation = Relation(schema: Schema, rows: seq<Row>)

  // The cell of the first column called `name`.
  function Cell(s: Schema, row: Row, name: string): Option<ScalarValue> {
    if s == [] || row == [] then None
    else if s[0].name == name then Some(row[0])
    else Cell(s[1..], row[1..], name)
  }

  // Planning an expression resolves its names, whether or not a row ever reaches it.
  predicate Bound(e: Expr, s: Schema) {
    match e
    case Column(name) => name in Names(s)
    case ColumnIndex(i) => i < |s|
    case Literal(_) => true
    case DateSubtractInterval(d, i) => Bound(d, s) && Bound(i, s)
    case DateAddInterval(d, i) => Bound(d, s) && Bound(i, s)
    case Cast(inner, _) => Bound(inner, s)
    case Not(_) => false
    case BinaryExpr(l, _, r) => Bound(l, s) && Bound(r, s)
    case Alias(inner, _) => Bound(inner, s)
    case ScalarFunction(_, _, _) => false
    case AggregateFunction(_, _, _) => false
  }

  function Eval(w: World, e: Expr, s: Schema, row: Row): Option<ScalarValue> {
    match e
    case Column(name) => Cell(s, row, name)
    case ColumnIndex(i) => if i < |row| then Some(row[i]) else None
    case Literal(v) => Some(v)
    case DateSubtractInterval(d, i) =>
      (match (Eval(w, d, s, row), Eval(w, i, s, row))
       case (Some(a), Some(b)) => w.shiftDate(a, b, false)
       case _ => None)
    case DateAddInterval(d, i) =>
      (match (Eval(w, d, s, row), Eval(w, i, s, row))
       case (Some(a), Some(b)) => w.shiftDate(a, b, true)
       case _ => None)
    case Cast(inner, t) =>
      (match Eval(w, inner, s, row)
       case Some(a) => w.cast(a, t)
       case None => None)
    case BinaryExpr(l, op, r) =>
      (match (Eval(w, l, s, row), Eval(w, r, s, row))
       case (Some(a), Some(b)) => w.binary(op, a, b)
       case _ => None)
    case Alias(inner, _) => Eval(w, inner, s, row)
    case _ => None
  }

  function EvalList(w: World, es: seq<Expr>, s: Schema, row: Row): Option<Row> {
    if es == [] then Some([])
    else match (Eval(w, es[0], s, row), EvalList(w, es[1..], s, row))
      case (Some(v), Some(rest)) => Some([v] + rest)
      case _ => None
  }

  // The same expressions on every row; one failing row fails the whole.
  function EvalRows(w: World, es: seq<Expr>, r: Relation): Option<seq<Row>>
    decreases r.rows
  {
    if r.rows == [] then Some([])
    else match (EvalList(w, es, r.schema, r.rows[0]), EvalRows(w, es, r.(rows := r.rows[1..])))
      case (Some(v), Some(rest)) => Some([v] + rest)
      case _ => None
  }

  predicate AllBound(es: seq<Expr>, s: Schema) {
    forall e :: e in es ==> Bound(e, s)
  }

  // Rows whose computed predicate cell is `true`.
  function Selected(rows: seq<Row>, verdicts: seq<Row>): seq<Row>
    requires |rows| == |verdicts|
  {
    if rows == [] then []
    else (if verdicts[0] == [Boolean(true)] then [rows[0]] else []) + Selected(rows[1..], verdicts[1..])
  }

  // The one argument each aggregate reads; only non-distinct calls are planned.
  function AggregateArgs(aggs: seq<Expr>): Option<seq<Expr>> {
    if aggs == [] then Some([])
    else if aggs[0].AggregateFunction? && aggs[0].args != [] && !aggs[0].distinct then
      match AggregateArgs(aggs[1..])
      case Some(rest) => Some([aggs[0].args[0]] + rest)
      case None => None
    else None
  }

  function Reduce(w: World, aggs: seq<Expr>, args: seq<Row>, column: nat): Option<Row> {
    if aggs == [] then Some([])
    else
      var values := seq(|args|, i requires 0 <= i < |args| =>
        if column < |args[i]| then args[i][column] else Null);
      if !aggs[0].AggregateFunction? then None
      else match (w.reduce(aggs[0].func, values), Reduce(w, aggs[1..], args, column + 1))
        case (Some(v), Some(rest)) => Some([v] + rest)
        case _ => None
  }

  function MembersOf(keys: seq<Row>, args: seq<Row>, key: Row): seq<Row>
    requires |keys| == |args|
  {
    if keys == [] then []
    else (if keys[0] == key then [args[0]] else []) + MembersOf(keys[1..], args[1..], key)
  }

  // One output row per distinct key, keys in the order `order` lists them.
  function GroupRows(w: World, aggs: seq<Expr>, keys: seq<Row>, args: seq<Row>, order: seq<Row>): Option<seq<Row>>
    requires |keys| == |args|
    decreases order
  {
    if order == [] then Some([])
    else match (Reduce(w, aggs, MembersOf(keys, args, order[0]), 0), GroupRows(w, aggs, keys, args, order[1..]))
      case (Some(v), Some(rest)) => Some([order[0] + v] + rest)
      case _ => None
  }

  function FirstOccurrences(keys: seq<Row>): seq<Row> {
    if keys == [] then []
    else
      var last := |keys| - 1;
      var before := FirstOccurrences(keys[..last]);
      if keys[last] in keys[..last] then before else before + [keys[last]]
  }

  function WithoutCells(s: Schema, row: Row, hidden: set<string>): Row {
    if s == [] || row == [] then []
    else if s[0].name in hidden then WithoutCells(s[1..], row[1..], hidden)
    else [row[0]] + WithoutCells(s[1..], row[1..], hidden)
  }

  function KeyCells(s: Schema, row: Row, names: seq<string>): seq<Option<ScalarValue>> {
    seq(|names|, i requires 0 <= i < |names| => Cell(s, row, names[i]))
  }

  function LeftNames(on: seq<(string, string)>): seq<string> {
    seq(|on|, i requires 0 <= i < |on| => on[i].0)
  }

  function RightNames(on: seq<(string, string)>): seq<string> {
    seq(|on|, i requires 0 <= i < |on| => on[i].1)
  }

  function Nulls(n: nat): Row {
    seq(n, _ => Null)
  }

  // Every match of one left row, in right order.
  function Matches(l: Schema, lrow: Row, r: Relation, on: seq<(string, string)>): seq<Row>
    decreases r.rows
  {
    if r.rows == [] then []
    else
      var rest := Matches(l, lrow, r.(rows := r.rows[1..]), on);
      if KeyCells(l, lrow, LeftNames(on)) == KeyCells(r.schema, r.rows[0], RightNames(on)) then
        [lrow + WithoutCells(r.schema, r.rows[0], DuplicateKeys(on))] + rest
      else rest
  }

  // What one left row contributes; a left join pads a row that matches nothing.
  function Contribution(l: Schema, lrow: Row, r: Relation, outer: bool, on: seq<(string, string)>): seq<Row> {
    var found := Matches(l, lrow, r, on);
    if found == [] && outer then [lrow + WithoutCells(r.schema, Nulls(|r.schema|), DuplicateKeys(on))]
    else found
  }

  // Left-then-right nested loops.
  function JoinRows(l: Relation, r: Relation, outer: bool, on: seq<(string, string)>): seq<Row>
    decreases l.rows
  {
    if l.rows == [] then []
    else Contribution(l.schema, l.rows[0], r, outer, on) + JoinRows(l.(rows := l.rows[1..]), r, outer, on)
  }

  // The right rows that no left row matches, padded with nulls, in right order.
  function Unpaired(l: Relation, r: Relation, on: seq<(string, string)>): seq<Row>
    decreases r.rows
  {
    if r.rows == [] then []
    else
      (if Paired(l, r.schema, r.rows[0], on) then []
       else [Nulls(|l.schema|) + WithoutCells(r.schema, r.rows[0], DuplicateKeys(on))])
      + Unpaired(l, r.(rows := r.rows[1..]), on)
  }

  predicate Paired(l: Relation, r: Schema, rrow: Row, on: seq<(string, string)>) {
    exists i :: 0 <= i < |l.rows| && KeyCells(l.schema, l.rows[i], LeftNames(on)) == KeyCells(r, rrow, RightNames(on))
  }

  // The two layouts of a right join, its schema's and its rows', agree only when no key's
  // two names are identical.
  predicate HasOneLayout(joinType: JoinType, on: seq<(string, string)>) {
    joinType == Inner || joinType == LeftOuter || (joinType == RightOuter && DuplicateKeys(on) == {})
  }

  function JoinResult(l: Relation, r: Relation, joinType: JoinType, on: seq<(string, string)>): seq<Row> {
    JoinRows(l, r, joinType == LeftOuter, on) + if joinType == RightOuter then Unpaired(l, r, on) else []
  }

  predicate KeysBound(l: Schema, r: Schema, on: seq<(string, string)>) {
    forall k :: k in on ==> k.0 in Names(l) && k.1 in Names(r)
  }

  function Prefix(rows: seq<Row>, limit: I32): seq<Row> {
    // A negative limit is read as an unsigned number beyond any row count.
    if limit < 0 || limit >= |rows| then rows else rows[..limit]
  }

  function ProjectRow(s: Schema, row: Row, names: seq<string>): Row {
    if names == [] then []
    else match Position(s, names[0])
      case Some(i) => (if i < |row| then [row[i]] else []) + ProjectRow(s, row, names[1..])
      case None => ProjectRow(s, row, names[1..])
  }

  function ScanRows(s: Schema, rows: seq<Row>, projection: seq<string>): seq<Row> {
    if projection == [] then rows
    else seq(|rows|, i requires 0 <= i < |rows| => ProjectRow(s, rows[i], projection))
  }

  /** What a plan produces, or `None` when it cannot be planned or a row fails. Right
      joins on same-named keys are not given a meaning: their two layouts disagree in the
      source. A right join's unmatched rows come last, in right order. */
  function Denote(w: World, p: Plan): Option<Relation> {
    match SchemaOf(w.text, p)
    case Err(_) => None
    case Ok(schema) =>
      match p
      case TableScan(_, source, projection) =>
        Some(Relation(schema, ScanRows(source.schema, w.rows(source), projection)))
      case Projection(input, exprs) =>
        (match Denote(w, input)
         case None => None
         case Some(r) =>
           if !AllBound(exprs, r.schema) then None
           else match EvalRows(w, exprs, r)
             case None => None
             case Some(rows) => Some(Relation(schema, rows)))
      case Filter(input, condition) =>
        (match Denote(w, input)
         case None => None
         case Some(r) =>
           if !Bound(condition, r.schema) then None
           else match EvalRows(w, [condition], r)
             case None => None
             case Some(verdicts) =>
               EvalRowsLength(w, [condition], r);
               Some(Relation(schema, Selected(r.rows, verdicts))))
      case Aggregate(input, group, aggs) =>
        (match (Denote(w, input), AggregateArgs(aggs))
         case (Some(r), Some(args)) =>
           if !AllBound(group, r.schema) || !AllBound(args, r.schema) then None
           else
             (match (EvalRows(w, group, r), EvalRows(w, args, r))
              case (Some(keys), Some(values)) =>
                EvalRowsLength(w, group, r);
                EvalRowsLength(w, args, r);
                (match GroupRows(w, aggs, keys, values, FirstOccurrences(keys))
                 case Some(rows) => Some(Relation(schema, rows))
                 case None => None)
              case _ => None)
         case _ => None)
      case Limit(input, n) =>
        (match Denote(w, input)
         case None => None
         case Some(r) => Some(Relation(schema, Prefix(r.rows, n))))
      case Join(left, right, joinType, on) =>
        if !HasOneLayout(joinType, on) then None
        else match (Denote(w, left), Denote(w, right))
          case (Some(l), Some(r)) =>
            if KeysBound(l.schema, r.schema, on) then
              Some(Relation(schema, JoinResult(l, r, joinType, on)))
            else None
          case _ => None
  }

  lemma EvalRowsLength(w: World, es: seq<Expr>, r: Relation)
    ensures EvalRows(w, es, r).Some? ==> |EvalRows(w, es, r).value| == |r.rows|
    decreases r.rows
  {
    if r.rows != [] {
      EvalRowsLength(w, es, r.(rows := r.rows[1..]));
    }
  }
}
