/** Comparison and logic over columns, with SQL's three truth values. */
module BooleanCells {
  import opened Results
  import opened Scalars
  import opened FloatCompare
  import L = LogicalPlan
  import O = Operators

  // ---------------------------------------------------------------- three-valued logic

  function And3(l: Option<bool>, r: Option<bool>): Option<bool> {
    if l == Some(false) || r == Some(false) then Some(false)
    else if l == Some(true) && r == Some(true) then Some(true)
    else None
  }

  function Or3(l: Option<bool>, r: Option<bool>): Option<bool> {
    if l == Some(true) || r == Some(true) then Some(true)
    else if l == Some(false) && r == Some(false) then Some(false)
    else None
  }

  // False below unknown below true.
  function Truth(b: Option<bool>): int {
    match b
    case Some(false) => 0
    case None => 1
    case Some(true) => 2
  }

  /** Conjunction is the lesser and disjunction the greater of the two truth values. */
  lemma KleeneIsMinMax(l: Option<bool>, r: Option<bool>)
    ensures Truth(And3(l, r)) == if Truth(l) <= Truth(r) then Truth(l) else Truth(r)
    ensures Truth(Or3(l, r)) == if Truth(l) <= Truth(r) then Truth(r) else Truth(l)
  {
  }

  // ---------------------------------------------------------------- cells

  // Float comparisons are left open.
  type FloatComparison = (Comparison, ScalarValue, ScalarValue) -> bool

  function ComparisonOf(op: O.Operator): Option<Comparison> {
    match op
    case Eq => Some(Comparison.Eq)
    case NotEq => Some(Comparison.NotEq)
    case Lt => Some(Comparison.Lt)
    case LtEq => Some(Comparison.LtEq)
    case Gt => Some(Comparison.Gt)
    case GtEq => Some(Comparison.GtEq)
    case _ => None
  }

  // Text compares by code point.
  predicate CompareText(op: Comparison, a: string, b: string) {
    match op
    case Eq => a == b
    case NotEq => a != b
    case Lt => !StringLeq(b, a)
    case LtEq => StringLeq(a, b)
    case Gt => !StringLeq(a, b)
    case GtEq => StringLeq(b, a)
  }

  predicate HasType(v: ScalarValue, t: L.DataType) {
    L.TypeOf(v) == t
  }

  predicate Comparable(t: L.DataType) {
    match t
    case Int8Type | Int16Type | Int32Type | Int64Type | Float32Type | Float64Type | Date32Type | Utf8Type => true
    case _ => false
  }

  // Two cells of one type.
  predicate CompareCells(floats: FloatComparison, op: Comparison, l: ScalarValue, r: ScalarValue) {
    match (l, r)
    case (Int8(a), Int8(b)) => CompareViaFloat(op, a, b)
    case (Int16(a), Int16(b)) => CompareViaFloat(op, a, b)
    case (Int32(a), Int32(b)) => CompareViaFloat(op, a, b)
    case (Int64(a), Int64(b)) => CompareViaFloat(op, a, b)
    case (Date32(a), Date32(b)) => CompareViaFloat(op, a, b)
    case (Utf8(a), Utf8(b)) => CompareText(op, a, b)
    case _ => floats(op, l, r)
  }

  // A null operand makes the comparison unknown; cells of another type than the column's
  // are an error, and so are columns of types with no comparison, unsigned ones included.
  function CompareDispatch(floats: FloatComparison, op: Comparison, l: ScalarValue, r: ScalarValue,
                           t: L.DataType): Result<Option<bool>>
  {
    if !Comparable(t) then Err(Internal)
    else if !(l.Null? || HasType(l, t)) || !(r.Null? || HasType(r, t)) then Err(Internal)
    else if l.Null? || r.Null? then Ok(None)
    else Ok(Some(CompareCells(floats, op, l, r)))
  }

  function AsOptBool(v: ScalarValue): Result<Option<bool>> {
    match v
    case Null => Ok(None)
    case Boolean(b) => Ok(Some(b))
    case _ => Err(Internal)
  }

  function BooleanCell(floats: FloatComparison, op: O.Operator, l: ScalarValue, r: ScalarValue,
                       t: L.DataType): Result<Option<bool>>
  {
    if op == O.And || op == O.Or then
      var a :- AsOptBool(l);
      var b :- AsOptBool(r);
      Ok(if op == O.And then And3(a, b) else Or3(a, b))
    else match ComparisonOf(op)
      case Some(comparison) => CompareDispatch(floats, comparison, l, r, t)
      case None => Err(Internal)
  }

  // What integer and date cells hold.
  function WholeNumber(v: ScalarValue): Option<I64> {
    match v
    case Int8(n) => Some(n)
    case Int16(n) => Some(n)
    case Int32(n) => Some(n)
    case Int64(n) => Some(n)
    case Date32(n) => Some(n)
    case _ => None
  }

  /** Cells narrower than 64 bits compare as integers; 64-bit cells do for every operator
      exactly when they are equal or convert to different doubles. */
  lemma CellsCompareAsIntegers(floats: FloatComparison, l: ScalarValue, r: ScalarValue)
    requires WholeNumber(l).Some? && WholeNumber(r).Some? && L.TypeOf(l) == L.TypeOf(r)
    ensures var a, b := WholeNumber(l).value, WholeNumber(r).value;
            (forall op :: CompareDispatch(floats, op, l, r, L.TypeOf(l)) == Ok(Some(Compare(op, a, b))))
            <==> !l.Int64? || a == b || Round(a) != Round(b)
  {
    var a, b := WholeNumber(l).value, WholeNumber(r).value;
    forall op ensures CompareDispatch(floats, op, l, r, L.TypeOf(l)) == Ok(Some(CompareViaFloat(op, a, b))) {
    }
    ComparesRightIff(a, b);
    if !l.Int64? {
      ComparesRight(a, b);
    } else if a != b && Round(a) == Round(b) {
      assert CompareDispatch(floats, Comparison.Eq, l, r, L.TypeOf(l)) != Ok(Some(Compare(Comparison.Eq, a, b)));
    }
  }

  // ---------------------------------------------------------------- what a cell holds

  function Verdict(b: Option<bool>): ScalarValue {
    if b.Some? then Boolean(b.value) else Null
  }

  predicate IsTruth(v: ScalarValue) {
    v.Null? || v.Boolean?
  }

  // False below null below true.
  function Rank(v: ScalarValue): int {
    if v == Boolean(true) then 2 else if v == Boolean(false) then 0 else 1
  }

  // The test an operator makes on numbers, and on text by code point.
  predicate NumberTest(op: O.Operator, a: int, b: int) {
    (op.Eq? && a == b) || (op.NotEq? && a != b) || (op.Lt? && a < b) || (op.LtEq? && a <= b)
    || (op.Gt? && a > b) || (op.GtEq? && a >= b)
  }

  predicate TextTest(op: O.Operator, a: string, b: string) {
    (op.Eq? && a == b) || (op.NotEq? && a != b)
    || (op.Lt? && a != b && StringLeq(a, b)) || (op.LtEq? && StringLeq(a, b))
    || (op.Gt? && a != b && StringLeq(b, a)) || (op.GtEq? && StringLeq(b, a))
  }

  // Integers, dates and 64-bit integers that lie around different doubles.
  predicate ComparesAsNumbers(l: ScalarValue, r: ScalarValue) {
    && WholeNumber(l).Some? && WholeNumber(r).Some? && L.TypeOf(l) == L.TypeOf(r)
    && (l.Int64? ==> !Confused(l.i64, r.i64))
  }

  predicate FloatTest(floats: FloatComparison, op: O.Operator, l: ScalarValue, r: ScalarValue) {
    (op.Eq? && floats(Comparison.Eq, l, r)) || (op.NotEq? && floats(Comparison.NotEq, l, r))
    || (op.Lt? && floats(Comparison.Lt, l, r)) || (op.LtEq? && floats(Comparison.LtEq, l, r))
    || (op.Gt? && floats(Comparison.Gt, l, r)) || (op.GtEq? && floats(Comparison.GtEq, l, r))
  }

  /** What a cell of a boolean column holds: of a conjunction the lesser and of a disjunction
      the greater truth value; of a comparison null beside a null, and otherwise the test on
      the numbers, the texts or the floats. */
  predicate RightCell(floats: FloatComparison, op: O.Operator, l: ScalarValue, r: ScalarValue, cell: ScalarValue) {
    if op == O.And then Rank(cell) == (if Rank(l) <= Rank(r) then Rank(l) else Rank(r))
    else if op == O.Or then Rank(cell) == (if Rank(l) <= Rank(r) then Rank(r) else Rank(l))
    else if l.Null? || r.Null? then cell == Null
    else if l.Utf8? && r.Utf8? then cell == Boolean(TextTest(op, l.s, r.s))
    else if ComparesAsNumbers(l, r) then cell == Boolean(NumberTest(op, WholeNumber(l).value, WholeNumber(r).value))
    else if (l.Float32? && r.Float32?) || (l.Float64? && r.Float64?) then cell == Boolean(FloatTest(floats, op, l, r))
    else cell.Boolean?
  }

  /** When a cell can be computed: truth values under AND and OR, and under the six
      comparisons operands that are null or of the column's comparable type. */
  lemma CellSucceedsIff(floats: FloatComparison, op: O.Operator, l: ScalarValue, r: ScalarValue, t: L.DataType)
    ensures BooleanCell(floats, op, l, r, t).Ok? <==>
            if op == O.And || op == O.Or then IsTruth(l) && IsTruth(r)
            else
              && op in {O.Eq, O.NotEq, O.Lt, O.LtEq, O.Gt, O.GtEq}
              && t in {L.Int8Type, L.Int16Type, L.Int32Type, L.Int64Type, L.Float32Type, L.Float64Type, L.Date32Type,
                       L.Utf8Type}
              && (l.Null? || L.TypeOf(l) == t) && (r.Null? || L.TypeOf(r) == t)
  {
    hide CompareDispatch, ComparisonOf, Comparable, L.TypeOf, And3, Or3;
    SixComparisons(op);
    if ComparisonOf(op).Some? {
      DispatchSucceedsIff(floats, ComparisonOf(op).value, l, r, t);
      ComparableTypes(t);
    }
  }

  lemma SixComparisons(op: O.Operator)
    ensures ComparisonOf(op).Some? <==> op in {O.Eq, O.NotEq, O.Lt, O.LtEq, O.Gt, O.GtEq}
  {
  }

  lemma ComparableTypes(t: L.DataType)
    ensures Comparable(t) <==> t in {L.Int8Type, L.Int16Type, L.Int32Type, L.Int64Type, L.Float32Type, L.Float64Type,
                                     L.Date32Type, L.Utf8Type}
  {
  }

  lemma DispatchSucceedsIff(floats: FloatComparison, comparison: Comparison, l: ScalarValue, r: ScalarValue,
                            t: L.DataType)
    ensures CompareDispatch(floats, comparison, l, r, t).Ok? <==>
            Comparable(t) && (l.Null? || L.TypeOf(l) == t) && (r.Null? || L.TypeOf(r) == t)
  {
    hide CompareCells;
  }

  lemma TextCell(comparison: Comparison, op: O.Operator, a: string, b: string)
    requires ComparisonOf(op) == Some(comparison)
    ensures CompareText(comparison, a, b) == TextTest(op, a, b)
  {
    StringLeqTotal(a, a);
    StringLeqTotal(a, b);
  }

  lemma FloatCell(floats: FloatComparison, comparison: Comparison, op: O.Operator, l: ScalarValue, r: ScalarValue)
    requires ComparisonOf(op) == Some(comparison)
    ensures floats(comparison, l, r) == FloatTest(floats, op, l, r)
  {
  }

  lemma NumberCell(comparison: Comparison, op: O.Operator, l: ScalarValue, r: ScalarValue)
    requires ComparisonOf(op) == Some(comparison) && ComparesAsNumbers(l, r)
    ensures var a, b := WholeNumber(l).value, WholeNumber(r).value;
            CompareViaFloat(comparison, a, b) == NumberTest(op, a, b)
  {
    hide Confused, Round, CompareViaFloat;
    var a, b := WholeNumber(l).value, WholeNumber(r).value;
    ComparesRightIff(a, b);
    ComparesRightUnless(a, b);
    if !l.Int64? {
      ComparesRight(a, b);
    }
    assert CompareViaFloat(comparison, a, b) == Compare(comparison, a, b);
  }

  lemma TextsRight(floats: FloatComparison, comparison: Comparison, op: O.Operator, l: ScalarValue, r: ScalarValue)
    requires ComparisonOf(op) == Some(comparison) && l.Utf8? && r.Utf8?
    ensures RightCell(floats, op, l, r, Boolean(CompareCells(floats, comparison, l, r)))
  {
    hide CompareText, TextTest, NumberTest, FloatTest, ComparesAsNumbers;
    TextCell(comparison, op, l.s, r.s);
  }

  lemma NumbersRight(floats: FloatComparison, comparison: Comparison, op: O.Operator, l: ScalarValue, r: ScalarValue)
    requires ComparisonOf(op) == Some(comparison) && ComparesAsNumbers(l, r)
    ensures RightCell(floats, op, l, r, Boolean(CompareCells(floats, comparison, l, r)))
  {
    hide CompareViaFloat, TextTest, NumberTest, FloatTest, Confused;
    NumberCell(comparison, op, l, r);
  }

  lemma FloatsRight(floats: FloatComparison, comparison: Comparison, op: O.Operator, l: ScalarValue, r: ScalarValue)
    requires ComparisonOf(op) == Some(comparison) && ((l.Float32? && r.Float32?) || (l.Float64? && r.Float64?))
    ensures RightCell(floats, op, l, r, Boolean(CompareCells(floats, comparison, l, r)))
  {
    hide TextTest, NumberTest, FloatTest;
    FloatCell(floats, comparison, op, l, r);
  }

  lemma CellsCompareRight(floats: FloatComparison, comparison: Comparison, op: O.Operator, l: ScalarValue,
                          r: ScalarValue)
    requires ComparisonOf(op) == Some(comparison) && !l.Null? && !r.Null?
    ensures RightCell(floats, op, l, r, Boolean(CompareCells(floats, comparison, l, r)))
  {
    hide CompareCells, ComparesAsNumbers, TextTest, NumberTest, FloatTest;
    if l.Utf8? && r.Utf8? {
      TextsRight(floats, comparison, op, l, r);
    } else if ComparesAsNumbers(l, r) {
      NumbersRight(floats, comparison, op, l, r);
    } else if (l.Float32? && r.Float32?) || (l.Float64? && r.Float64?) {
      FloatsRight(floats, comparison, op, l, r);
    }
  }

  lemma CellIsRight(floats: FloatComparison, op: O.Operator, l: ScalarValue, r: ScalarValue, t: L.DataType)
    requires BooleanCell(floats, op, l, r, t).Ok?
    ensures RightCell(floats, op, l, r, Verdict(BooleanCell(floats, op, l, r, t).value))
  {
    if op == O.And || op == O.Or {
      KleeneIsMinMax(AsOptBool(l).value, AsOptBool(r).value);
    } else if !l.Null? && !r.Null? {
      hide CompareCells, ComparesAsNumbers, TextTest, NumberTest, FloatTest, ComparisonOf, Comparable;
      CellsCompareRight(floats, ComparisonOf(op).value, op, l, r);
    }
  }

  // ---------------------------------------------------------------- columns

  /** Row by row; the first row that fails fails the column. */
  method EvaluateBoolean(floats: FloatComparison, l: seq<ScalarValue>, r: seq<ScalarValue>, t: L.DataType,
                         op: O.Operator)
    returns (out: Result<seq<ScalarValue>>)
    requires |l| == |r|
    ensures out.Ok? <==> forall i :: 0 <= i < |l| ==> BooleanCell(floats, op, l[i], r[i], t).Ok?
    ensures out.Ok? ==> |out.value| == |l|
    ensures out.Ok? ==> forall i :: 0 <= i < |l| ==>
              out.value[i] == Verdict(BooleanCell(floats, op, l[i], r[i], t).value)
    ensures out.Ok? ==> forall i :: 0 <= i < |l| ==> RightCell(floats, op, l[i], r[i], out.value[i])
    ensures out.Err? ==>
              exists i :: 0 <= i < |l| && BooleanCell(floats, op, l[i], r[i], t) == Err(out.error)
                          && forall k :: 0 <= k < i ==> BooleanCell(floats, op, l[k], r[k], t).Ok?
  {
    hide RightCell, BooleanCell;
    var builder := [];
    for i := 0 to |l|
      invariant |builder| == i
      invariant forall k :: 0 <= k < i ==> BooleanCell(floats, op, l[k], r[k], t).Ok?
      invariant forall k :: 0 <= k < i ==> builder[k] == Verdict(BooleanCell(floats, op, l[k], r[k], t).value)
      invariant forall k :: 0 <= k < i ==> RightCell(floats, op, l[k], r[k], builder[k])
    {
      var cell := BooleanCell(floats, op, l[i], r[i], t);
      if cell.Err? {
        return Err(cell.error);
      }
      CellIsRight(floats, op, l[i], r[i], t);
      match cell.value
      case Some(b) => builder := builder + [Boolean(b)];
      case None => builder := builder + [Null];
    }
    return Ok(builder);
  }
}
