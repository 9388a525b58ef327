/** Why partial aggregation may be split and reordered: on everything but floats each
    reducer is a commutative monoid whose failures absorb, so a fold depends only on
    which values it saw. */
module AccumulatorLaws {
  import opened Results
  import opened Scalars
  import opened Sequences
  import opened Accumulators

  predicate IsFloat(v: ScalarValue) {
    v.Float32? || v.Float64?
  }

  // Values whose reduction does not depend on float arithmetic.
  predicate Exact(r: Reducer, v: ScalarValue) {
    r.kind == Count || !IsFloat(v)
  }

  // States reachable from exact values.
  predicate ExactState(r: Reducer, s: ScalarValue) {
    if r.kind == Count then s.Int32? && s.i32 >= 0 else !IsFloat(s)
  }

  ghost predicate AllExact(r: Reducer, values: seq<ScalarValue>) {
    forall v :: v in values ==> Exact(r, v)
  }

  ghost predicate AllExactStates(r: Reducer, states: seq<ScalarValue>) {
    forall s :: s in states ==> ExactState(r, s)
  }

  // Two states put together.
  function Plus(r: Reducer, a: ScalarValue, b: ScalarValue): Result<ScalarValue> {
    if r.kind == Count then CountPlus(a, b) else Accumulate(r, a, b)
  }

  // A failure on either side is a failure.
  function Combine(r: Reducer, a: Result<ScalarValue>, b: Result<ScalarValue>): Result<ScalarValue> {
    if a.Ok? && b.Ok? then Plus(r, a.value, b.value)
    else Err(if r.kind == Count then Panic else NotImplemented)
  }

  // The state after one value.
  function Lift(r: Reducer, v: ScalarValue): ScalarValue {
    if r.kind != Count then v else if v.Null? then Int32(0) else Int32(1)
  }

  // ---------------------------------------------------------------- the laws

  lemma WrapAssociative(x: int, y: int, z: int, lo: int, size: int)
    requires lo <= 0 < lo + size
    requires lo <= x < lo + size && lo <= y < lo + size && lo <= z < lo + size
    ensures WrapAdd(WrapAdd(x, y, lo, size), z, lo, size) == WrapAdd(x, WrapAdd(y, z, lo, size), lo, size)
  {
  }

  lemma AddAssociative(f: FloatOps, a: ScalarValue, b: ScalarValue, c: ScalarValue)
    requires !IsFloat(a) && !IsFloat(b) && !IsFloat(c)
    requires ScalarAdd(f, a, b).Ok? && ScalarAdd(f, b, c).Ok?
    ensures ScalarAdd(f, ScalarAdd(f, a, b).value, c) == ScalarAdd(f, a, ScalarAdd(f, b, c).value)
    ensures ScalarAdd(f, ScalarAdd(f, a, b).value, c).Ok?
  {
    match a
    case Int8(x) => WrapAssociative(x, b.i8, c.i8, -0x80, 0x100);
    case Int16(x) => WrapAssociative(x, b.i16, c.i16, -0x8000, 0x1_0000);
    case Int32(x) => WrapAssociative(x, b.i32, c.i32, -0x8000_0000, 0x1_0000_0000);
    case Int64(x) => WrapAssociative(x, b.i64, c.i64, -0x8000_0000_0000_0000, 0x1_0000_0000_0000_0000);
    case UInt8(x) => WrapAssociative(x, b.u8, c.u8, 0, 0x100);
    case UInt16(x) => WrapAssociative(x, b.u16, c.u16, 0, 0x1_0000);
    case UInt32(x) => WrapAssociative(x, b.u32, c.u32, 0, 0x1_0000_0000);
    case UInt64(x) => WrapAssociative(x, b.u64, c.u64, 0, 0x1_0000_0000_0000_0000);
  }

  // A successful sum has its operands' type.
  lemma AddKeepsType(f: FloatOps, a: ScalarValue, b: ScalarValue)
    requires ScalarAdd(f, a, b).Ok?
    ensures Discriminant(ScalarAdd(f, a, b).value) == Discriminant(a) == Discriminant(b)
    ensures 2 <= Discriminant(a) <= 11
  {
  }

  lemma AddDefined(f: FloatOps, a: ScalarValue, b: ScalarValue)
    ensures ScalarAdd(f, a, b).Ok? <==> Discriminant(a) == Discriminant(b) && 2 <= Discriminant(a) <= 11
    ensures ScalarAdd(f, a, b).Err? ==> ScalarAdd(f, a, b).error == NotImplemented
  {
  }

  predicate Orderable(v: ScalarValue) {
    !v.Null? && !v.Boolean? && !v.Binary?
  }

  lemma LessDefined(f: FloatOps, a: ScalarValue, b: ScalarValue)
    ensures ScalarLess(f, a, b).Ok? <==> Discriminant(a) == Discriminant(b) && Orderable(a)
    ensures ScalarLess(f, a, b).Err? ==> ScalarLess(f, a, b).error == NotImplemented
  {
  }

  // On cells that are not floats the comparison is a strict total order.
  lemma LessIsOrder(f: FloatOps, a: ScalarValue, b: ScalarValue, c: ScalarValue)
    requires !IsFloat(a) && Orderable(a) && Discriminant(a) == Discriminant(b) == Discriminant(c)
    ensures !ScalarLess(f, a, a).value
    ensures !(ScalarLess(f, a, b).value && ScalarLess(f, b, a).value)
    ensures !ScalarLess(f, a, b).value && !ScalarLess(f, b, a).value ==> a == b
    ensures ScalarLess(f, a, b).value && ScalarLess(f, b, c).value ==> ScalarLess(f, a, c).value
  {
    if a.Utf8? {
      StringLeqTotal(a.s, a.s);
      StringLeqTotal(a.s, b.s);
      StringLeqTotal(a.s, c.s);
      StringLeqTotal(b.s, c.s);
      if StringLeq(c.s, a.s) && StringLeq(a.s, b.s) {
        StringLeqTransitive(c.s, a.s, b.s);
      }
    }
  }

  lemma PlusCommutes(r: Reducer, a: ScalarValue, b: ScalarValue)
    requires ExactState(r, a) && ExactState(r, b)
    ensures Plus(r, a, b) == Plus(r, b, a)
  {
    if r.kind == Min || r.kind == Max {
      LessDefined(r.floats, a, b);
      LessDefined(r.floats, b, a);
      if Discriminant(a) == Discriminant(b) && Orderable(a) {
        LessIsOrder(r.floats, a, b, a);
      }
    } else if r.kind == Sum {
      AddDefined(r.floats, a, b);
      AddDefined(r.floats, b, a);
    }
  }

  lemma PlusInitial(r: Reducer, b: ScalarValue)
    requires ExactState(r, b)
    ensures Plus(r, Initial(r), b) == Ok(b)
  {
  }

  lemma SumExact(f: FloatOps, a: ScalarValue, b: ScalarValue)
    requires !IsFloat(a) && !IsFloat(b)
    ensures ScalarAdd(f, a, b).Ok? ==> !IsFloat(ScalarAdd(f, a, b).value)
    ensures ScalarAdd(f, a, b).Err? ==> ScalarAdd(f, a, b).error == NotImplemented
  {
  }

  lemma PlusExact(r: Reducer, a: ScalarValue, b: ScalarValue)
    requires ExactState(r, a) && ExactState(r, b)
    ensures Plus(r, a, b).Ok? ==> ExactState(r, Plus(r, a, b).value)
    ensures Plus(r, a, b).Err? ==> Plus(r, a, b).error == (if r.kind == Count then Panic else NotImplemented)
  {
    if r.kind == Count {
    } else if a.Null? || b.Null? {
    } else if r.kind == Sum {
      SumExact(r.floats, a, b);
    } else {
      MinMaxExact(r, a, b);
    }
  }

  lemma MinMaxExact(r: Reducer, a: ScalarValue, b: ScalarValue)
    requires (r.kind == Min || r.kind == Max) && !a.Null? && !b.Null?
    ensures Plus(r, a, b).Ok? ==> Plus(r, a, b).value == a || Plus(r, a, b).value == b
    ensures Plus(r, a, b).Err? ==> Plus(r, a, b).error == NotImplemented
  {
    LessDefined(r.floats, a, b);
    LessDefined(r.floats, b, a);
  }

  lemma MinMaxAssociative(r: Reducer, a: ScalarValue, b: ScalarValue, c: ScalarValue)
    requires r.kind == Min || r.kind == Max
    requires !IsFloat(a) && !IsFloat(b) && !IsFloat(c) && !a.Null? && !b.Null? && !c.Null?
    ensures Combine(r, Plus(r, a, b), Ok(c)) == Combine(r, Ok(a), Plus(r, b, c))
  {
    LessDefined(r.floats, a, b);
    LessDefined(r.floats, b, a);
    LessDefined(r.floats, b, c);
    LessDefined(r.floats, c, b);
    LessDefined(r.floats, a, c);
    LessDefined(r.floats, c, a);
    if Discriminant(a) == Discriminant(b) == Discriminant(c) && Orderable(a) {
      LessIsOrder(r.floats, a, b, c);
      LessIsOrder(r.floats, b, a, c);
      LessIsOrder(r.floats, a, c, b);
      LessIsOrder(r.floats, c, a, b);
      LessIsOrder(r.floats, c, b, a);
      LessIsOrder(r.floats, b, c, a);
    }
  }

  lemma SumAssociative(r: Reducer, a: ScalarValue, b: ScalarValue, c: ScalarValue)
    requires r.kind == Sum
    requires !IsFloat(a) && !IsFloat(b) && !IsFloat(c) && !a.Null? && !b.Null? && !c.Null?
    ensures Combine(r, Plus(r, a, b), Ok(c)) == Combine(r, Ok(a), Plus(r, b, c))
  {
    AddDefined(r.floats, a, b);
    AddDefined(r.floats, b, c);
    var f := r.floats;
    if ScalarAdd(f, a, b).Ok? && ScalarAdd(f, b, c).Ok? {
      AddKeepsType(f, a, b);
      AddKeepsType(f, b, c);
      AddAssociative(f, a, b, c);
    } else if ScalarAdd(f, a, b).Ok? {
      AddKeepsType(f, a, b);
      AddDefined(f, ScalarAdd(f, a, b).value, c);
    } else if ScalarAdd(f, b, c).Ok? {
      AddKeepsType(f, b, c);
      AddDefined(f, a, ScalarAdd(f, b, c).value);
    }
  }

  /** Putting states together is associative, failures included. */
  lemma CombineAssociative(r: Reducer, a: Result<ScalarValue>, b: Result<ScalarValue>, c: Result<ScalarValue>)
    requires (a.Ok? ==> ExactState(r, a.value)) && (b.Ok? ==> ExactState(r, b.value))
    requires c.Ok? ==> ExactState(r, c.value)
    ensures Combine(r, Combine(r, a, b), c) == Combine(r, a, Combine(r, b, c))
  {
    if a.Ok? && b.Ok? && c.Ok? {
      PlusExact(r, a.value, b.value);
      PlusExact(r, b.value, c.value);
      if r.kind == Count || a.value.Null? || b.value.Null? || c.value.Null? {
      } else if r.kind == Sum {
        SumAssociative(r, a.value, b.value, c.value);
      } else {
        MinMaxAssociative(r, a.value, b.value, c.value);
      }
    } else if a.Ok? && b.Ok? {
      PlusExact(r, a.value, b.value);
    } else if b.Ok? && c.Ok? {
      PlusExact(r, b.value, c.value);
    }
  }

  lemma CombineCommutes(r: Reducer, a: Result<ScalarValue>, b: Result<ScalarValue>)
    requires (a.Ok? ==> ExactState(r, a.value)) && (b.Ok? ==> ExactState(r, b.value))
    ensures Combine(r, a, b) == Combine(r, b, a)
  {
    if a.Ok? && b.Ok? {
      PlusCommutes(r, a.value, b.value);
    }
  }

  // ---------------------------------------------------------------- folds

  // States put together one after the other.
  function Total(r: Reducer, states: seq<ScalarValue>): Result<ScalarValue> {
    if states == [] then Ok(Initial(r))
    else Combine(r, Total(r, states[..|states| - 1]), Ok(states[|states| - 1]))
  }

  function LiftAll(r: Reducer, values: seq<ScalarValue>): seq<ScalarValue> {
    seq(|values|, i requires 0 <= i < |values| => Lift(r, values[i]))
  }

  lemma {:induction false} TotalExact(r: Reducer, states: seq<ScalarValue>)
    requires AllExactStates(r, states)
    ensures Total(r, states).Ok? ==> ExactState(r, Total(r, states).value)
    ensures Total(r, states).Err? ==> Total(r, states).error == (if r.kind == Count then Panic else NotImplemented)
  {
    if states != [] {
      var last := |states| - 1;
      TotalExact(r, states[..last]);
      if Total(r, states[..last]).Ok? {
        PlusExact(r, Total(r, states[..last]).value, states[last]);
      }
    }
  }

  lemma LiftAllExact(r: Reducer, values: seq<ScalarValue>)
    requires AllExact(r, values)
    ensures AllExactStates(r, LiftAll(r, values))
  {
    forall s | s in LiftAll(r, values) ensures ExactState(r, s) {
      var i :| 0 <= i < |values| && s == Lift(r, values[i]);
      assert values[i] in values;
    }
  }

  /** Accumulating values is totalling their one-value states. */
  lemma {:induction false} FoldIsTotal(r: Reducer, values: seq<ScalarValue>)
    requires AllExact(r, values)
    ensures AllExactStates(r, LiftAll(r, values))
    ensures Fold(r, values) == Total(r, LiftAll(r, values))
  {
    LiftAllExact(r, values);
    if values != [] {
      var last := |values| - 1;
      assert values[last] in values;
      FoldIsTotal(r, values[..last]);
      assert LiftAll(r, values)[..last] == LiftAll(r, values[..last]);
      TotalExact(r, LiftAll(r, values[..last]));
      var before := Fold(r, values[..last]);
      if before.Ok? {
        PlusExact(r, before.value, Lift(r, values[last]));
      }
    }
  }

  /** Merging partial states is totalling them. */
  lemma {:induction false} FoldPartialsIsTotal(r: Reducer, partials: seq<ScalarValue>)
    requires AllExactStates(r, partials)
    ensures FoldPartials(r, partials) == Total(r, partials)
  {
    if partials != [] {
      var last := |partials| - 1;
      FoldPartialsIsTotal(r, partials[..last]);
      TotalExact(r, partials[..last]);
      var before := Total(r, partials[..last]);
      if before.Ok? {
        PlusExact(r, before.value, partials[last]);
      }
    }
  }

  lemma {:induction false} TotalAppend(r: Reducer, a: seq<ScalarValue>, b: seq<ScalarValue>)
    requires AllExactStates(r, a) && AllExactStates(r, b)
    ensures Total(r, a + b) == Combine(r, Total(r, a), Total(r, b))
  {
    TotalExact(r, a);
    if b == [] {
      assert a + b == a;
      if Total(r, a).Ok? {
        PlusInitial(r, Total(r, a).value);
        PlusCommutes(r, Initial(r), Total(r, a).value);
      }
    } else {
      var last := |b| - 1;
      assert (a + b)[..|a + b| - 1] == a + b[..last];
      TotalAppend(r, a, b[..last]);
      TotalExact(r, b[..last]);
      CombineAssociative(r, Total(r, a), Total(r, b[..last]), Ok(b[last]));
    }
  }

  lemma TotalOne(r: Reducer, s: ScalarValue)
    requires ExactState(r, s)
    ensures Total(r, [s]) == Ok(s)
  {
    assert [s][..0] == [];
    assert Total(r, [s][..0]) == Ok(Initial(r));
    PlusInitial(r, s);
  }

  // An element may be taken out of the middle and added last.
  lemma TotalMoveLast(r: Reducer, a: seq<ScalarValue>, x: ScalarValue, b: seq<ScalarValue>)
    requires AllExactStates(r, a) && ExactState(r, x) && AllExactStates(r, b)
    ensures Total(r, a + [x] + b) == Combine(r, Total(r, a + b), Ok(x))
  {
    TotalExact(r, a);
    TotalExact(r, b);
    TotalOne(r, x);
    TotalAppend(r, a, b);
    TotalAppend(r, [x], b);
    assert a + [x] + b == a + ([x] + b);
    TotalAppend(r, a, [x] + b);
    CombineCommutes(r, Ok(x), Total(r, b));
    CombineAssociative(r, Total(r, a), Total(r, b), Ok(x));
  }

  /** A total depends only on which states occur and how often. */
  lemma {:induction false} TotalPermutes(r: Reducer, a: seq<ScalarValue>, b: seq<ScalarValue>)
    requires multiset(a) == multiset(b) && AllExactStates(r, a)
    ensures AllExactStates(r, b)
    ensures Total(r, a) == Total(r, b)
  {
    forall s | s in b ensures ExactState(r, s) {
      assert s in multiset(b);
    }
    if a == [] {
      assert |multiset(b)| == 0;
    } else {
      var last := |a| - 1;
      var i := FindLast(a, b);
      TotalPermutes(r, a[..last], Without(b, i));
      assert b == b[..i] + [b[i]] + b[i + 1..];
      TotalMoveLast(r, b[..i], b[i], b[i + 1..]);
    }
  }

  lemma FoldExact(r: Reducer, values: seq<ScalarValue>)
    requires AllExact(r, values)
    ensures Fold(r, values).Ok? ==> ExactState(r, Fold(r, values).value)
  {
    FoldIsTotal(r, values);
    TotalExact(r, LiftAll(r, values));
  }

  lemma LiftAllAppend(r: Reducer, a: seq<ScalarValue>, b: seq<ScalarValue>)
    ensures LiftAll(r, a + b) == LiftAll(r, a) + LiftAll(r, b)
  {
  }

  /** Splitting: the fold of a concatenation is its halves' folds put together. */
  lemma FoldAppend(r: Reducer, a: seq<ScalarValue>, b: seq<ScalarValue>)
    requires AllExact(r, a) && AllExact(r, b)
    ensures Fold(r, a + b) == Combine(r, Fold(r, a), Fold(r, b))
  {
    assert AllExact(r, a + b);
    LiftAllExact(r, a);
    LiftAllExact(r, b);
    calc {
      Fold(r, a + b);
      { FoldIsTotal(r, a + b); LiftAllAppend(r, a, b); }
      Total(r, LiftAll(r, a) + LiftAll(r, b));
      { TotalAppend(r, LiftAll(r, a), LiftAll(r, b)); }
      Combine(r, Total(r, LiftAll(r, a)), Total(r, LiftAll(r, b)));
      { FoldIsTotal(r, a); FoldIsTotal(r, b); }
      Combine(r, Fold(r, a), Fold(r, b));
    }
  }
}
