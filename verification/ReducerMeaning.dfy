/** What the reducers compute, said of the values alone: how many there are, their integer
    sum wrapped into their type, and one that none is below or above. */
module ReducerMeaning {
  import opened Arithmetic
  import opened Results
  import opened Scalars
  import opened Accumulators
  import opened AccumulatorLaws

  const I32_END := 0x8000_0000

  // ---------------------------------------------------------------- COUNT

  function NonNulls(values: seq<ScalarValue>): nat {
    if values == [] then 0
    else NonNulls(values[..|values| - 1]) + if values[|values| - 1].Null? then 0 else 1
  }

  function Counted(n: int): Result<ScalarValue>
    requires n >= 0
  {
    if n < I32_END then Ok(Int32(n)) else Err(Panic)
  }

  /** COUNT is the number of non-null values, until that no longer fits. */
  lemma {:induction false} CountIsCardinality(r: Reducer, values: seq<ScalarValue>)
    requires r.kind == Count
    ensures Fold(r, values) == Counted(NonNulls(values))
  {
    if values != [] {
      CountIsCardinality(r, values[..|values| - 1]);
    }
  }

  lemma {:induction false} NoneCounted(values: seq<ScalarValue>)
    ensures NonNulls(values) <= |values|
    ensures NonNulls(values) == 0 <==> forall v :: v in values ==> v.Null?
  {
    if values != [] {
      var front, last := values[..|values| - 1], values[|values| - 1];
      NoneCounted(front);
      assert values == front + [last];
    }
  }

  // ---------------------------------------------------------------- integers and wrapping

  predicate IsInteger(v: ScalarValue) {
    2 <= Discriminant(v) <= 9
  }

  function Number(v: ScalarValue): int
    requires IsInteger(v)
  {
    match v
    case Int8(x) => x
    case Int16(x) => x
    case Int32(x) => x
    case Int64(x) => x
    case UInt8(x) => x
    case UInt16(x) => x
    case UInt32(x) => x
    case UInt64(x) => x
  }

  // How many values the integer's type has.
  function Modulus(v: ScalarValue): int
    requires IsInteger(v)
    ensures Modulus(v) > 0
  {
    match v
    case Int8(_) => 0x100
    case Int16(_) => 0x1_0000
    case Int32(_) => 0x1_0000_0000
    case Int64(_) => 0x1_0000_0000_0000_0000
    case UInt8(_) => 0x100
    case UInt16(_) => 0x1_0000
    case UInt32(_) => 0x1_0000_0000
    case UInt64(_) => 0x1_0000_0000_0000_0000
  }

  // The one integer of the `size` from `lo` on that differs from `m` by a multiple of `size`.
  function Wrap(m: int, lo: int, size: int): (w: int)
    requires size > 0
    ensures lo <= w < lo + size
  {
    (m - lo) % size + lo
  }

  lemma WrapUnique(m: int, w: int, q: int, lo: int, size: int)
    requires lo <= w < lo + size && m == w + q * size
    ensures Wrap(m, lo, size) == w
  {
    DivUnique(m - lo, size, q, w - lo);
  }

  lemma WrapSame(x: int, m: int, lo: int, size: int)
    requires lo <= x < lo + size
    ensures Wrap(x, lo, size) == x
    ensures Wrap(m, lo, size) == x <==> (m - x) % size == 0
  {
    WrapUnique(x, x, 0, lo, size);
    if Wrap(m, lo, size) == x {
      DivUnique(m - x, size, (m - lo) / size, 0);
    } else if (m - x) % size == 0 {
      WrapUnique(m, x, (m - x) / size, lo, size);
    }
  }

  lemma WrapTwice(m: int, wide: int, narrow: int)
    requires narrow > 0 && wide > 0
    ensures Wrap(Wrap(m, -wide * narrow, 2 * wide * narrow), -narrow, 2 * narrow) == Wrap(m, -narrow, 2 * narrow)
  {
    var once := Wrap(m, -wide * narrow, 2 * wide * narrow);
    var q, p := (m + wide * narrow) / (2 * wide * narrow), (once + narrow) / (2 * narrow);
    var w := Wrap(once, -narrow, 2 * narrow);
    assert once == w + p * (2 * narrow);
    assert m == once + q * (2 * wide * narrow);
    assert q * (2 * wide * narrow) == (q * wide) * (2 * narrow);
    assert (q * wide + p) * (2 * narrow) == (q * wide) * (2 * narrow) + p * (2 * narrow);
    WrapUnique(m, w, q * wide + p, -narrow, 2 * narrow);
  }

  lemma SignedIsWrap(n: int, half: int)
    requires half > 0
    ensures WrapSigned(n, half) == Wrap(n, -half, 2 * half)
  {
    if -half <= n < half {
      WrapUnique(n, n, 0, -half, 2 * half);
    }
  }

  /** Merging a partial count adds it, cut to 32 bits, until the sum no longer fits; anything
      that is no whole number is refused. */
  lemma PartialCountIsAdded(r: Reducer, count: I32, partial: ScalarValue)
    requires r.kind == Count && !IsFloat(partial)
    ensures Merge(r, Int32(count), partial) ==
            if partial.Null? then Ok(Int32(count))
            else if !IsInteger(partial) && !partial.Date32? then Err(Internal)
            else
              var n := if partial.Date32? then partial.days else Number(partial);
              var sum := count + Wrap(n, -I32_END, 2 * I32_END);
              if -I32_END <= sum < I32_END then Ok(Int32(sum)) else Err(Panic)
  {
    if IsInteger(partial) {
      SignedIsWrap(Number(partial), I32_END);
      if partial.UInt64? {
        SignedIsWrap(partial.u64, 0x8000_0000_0000_0000);
        SignedIsWrap(WrapSigned(partial.u64, 0x8000_0000_0000_0000), I32_END);
        WrapTwice(partial.u64, 0x1_0000_0000, I32_END);
      }
    } else if partial.Date32? {
      SignedIsWrap(partial.days, I32_END);
    }
  }

  lemma WrapAdds(x: int, m: int, lo: int, size: int)
    requires lo <= x < lo + size && lo <= 0 < lo + size
    ensures WrapAdd(Wrap(m, lo, size), x, lo, size) == Wrap(m + x, lo, size)
  {
    var w, q := Wrap(m, lo, size), (m - lo) / size;
    assert m == w + q * size;
    var sum := WrapAdd(w, x, lo, size);
    var e := if sum == w + x then 0 else if sum == w + x - size then 1 else -1;
    assert m + x == sum + (q + e) * size;
    WrapUnique(m + x, sum, q + e, lo, size);
  }

  // The integer `m`, wrapped into the type of `v`.
  function Wrapped(v: ScalarValue, m: int): ScalarValue
    requires IsInteger(v)
  {
    match v
    case Int8(_) => Int8(Wrap(m, -0x80, 0x100))
    case Int16(_) => Int16(Wrap(m, -0x8000, 0x1_0000))
    case Int32(_) => Int32(Wrap(m, -0x8000_0000, 0x1_0000_0000))
    case Int64(_) => Int64(Wrap(m, -0x8000_0000_0000_0000, 0x1_0000_0000_0000_0000))
    case UInt8(_) => UInt8(Wrap(m, 0, 0x100))
    case UInt16(_) => UInt16(Wrap(m, 0, 0x1_0000))
    case UInt32(_) => UInt32(Wrap(m, 0, 0x1_0000_0000))
    case UInt64(_) => UInt64(Wrap(m, 0, 0x1_0000_0000_0000_0000))
  }

  lemma WrappedSame(v: ScalarValue, m: int)
    requires IsInteger(v)
    ensures Wrapped(v, Number(v)) == v
    ensures Wrapped(v, m) == v <==> (m - Number(v)) % Modulus(v) == 0
  {
    hide Wrap;
    match v
    case Int8(x) => WrapSame(x, m, -0x80, 0x100);
    case Int16(x) => WrapSame(x, m, -0x8000, 0x1_0000);
    case Int32(x) => WrapSame(x, m, -0x8000_0000, 0x1_0000_0000);
    case Int64(x) => WrapSame(x, m, -0x8000_0000_0000_0000, 0x1_0000_0000_0000_0000);
    case UInt8(x) => WrapSame(x, m, 0, 0x100);
    case UInt16(x) => WrapSame(x, m, 0, 0x1_0000);
    case UInt32(x) => WrapSame(x, m, 0, 0x1_0000_0000);
    case UInt64(x) => WrapSame(x, m, 0, 0x1_0000_0000_0000_0000);
  }

  lemma WrappedAdds(f: FloatOps, v: ScalarValue, m: int)
    requires IsInteger(v)
    ensures ScalarAdd(f, Wrapped(v, m), v) == Ok(Wrapped(v, m + Number(v)))
  {
    hide Wrap, WrapAdd;
    match v
    case Int8(x) => WrapAdds(x, m, -0x80, 0x100);
    case Int16(x) => WrapAdds(x, m, -0x8000, 0x1_0000);
    case Int32(x) => WrapAdds(x, m, -0x8000_0000, 0x1_0000_0000);
    case Int64(x) => WrapAdds(x, m, -0x8000_0000_0000_0000, 0x1_0000_0000_0000_0000);
    case UInt8(x) => WrapAdds(x, m, 0, 0x100);
    case UInt16(x) => WrapAdds(x, m, 0, 0x1_0000);
    case UInt32(x) => WrapAdds(x, m, 0, 0x1_0000_0000);
    case UInt64(x) => WrapAdds(x, m, 0, 0x1_0000_0000_0000_0000);
  }

  // ---------------------------------------------------------------- SUM

  // The sum of the integers among the values.
  function IntegerSum(values: seq<ScalarValue>): int {
    if values == [] then 0
    else
      var last := values[|values| - 1];
      IntegerSum(values[..|values| - 1]) + if IsInteger(last) then Number(last) else 0
  }

  // Values other than null that are of one type, integers if there are several.
  ghost predicate Summable(values: seq<ScalarValue>) {
    NonNulls(values) <= 1
    || forall a, b :: a in values && b in values && !a.Null? && !b.Null? ==>
         IsInteger(a) && Discriminant(a) == Discriminant(b)
  }

  // What a sum is: nothing of nothing, a single value itself, and otherwise the integer
  // sum wrapped into the values' type.
  ghost predicate IsSum(values: seq<ScalarValue>, s: ScalarValue) {
    if NonNulls(values) == 0 then s == Null
    else
      && !s.Null?
      && (NonNulls(values) == 1 ==> s in values)
      && forall v :: v in values && IsInteger(v) ==> s == Wrapped(v, IntegerSum(values))
  }

  lemma {:induction false} OneNonNull(values: seq<ScalarValue>, a: ScalarValue, b: ScalarValue)
    requires NonNulls(values) == 1 && a in values && b in values && !a.Null? && !b.Null?
    ensures a == b
  {
    var front, last := values[..|values| - 1], values[|values| - 1];
    assert values == front + [last];
    NoneCounted(front);
    if last.Null? {
      OneNonNull(front, a, b);
    }
  }

  lemma {:induction false} NoIntegers(values: seq<ScalarValue>)
    requires NonNulls(values) == 0
    ensures IntegerSum(values) == 0
  {
    NoneCounted(values);
    if values != [] {
      assert values[|values| - 1] in values;
      NoIntegers(values[..|values| - 1]);
    }
  }

  lemma WrappedAlike(v: ScalarValue, w: ScalarValue, m: int)
    requires IsInteger(v) && Discriminant(v) == Discriminant(w)
    ensures Wrapped(v, m) == Wrapped(w, m) && Discriminant(Wrapped(v, m)) == Discriminant(v)
  {
    hide Wrap;
  }

  // The values' types, as the sum so far has them.
  lemma TypedAlike(values: seq<ScalarValue>, s: ScalarValue, v: ScalarValue)
    requires Summable(values) && IsSum(values, s) && v in values && !v.Null?
    ensures Discriminant(s) == Discriminant(v) && !s.Null?
  {
    NoneCounted(values);
    if NonNulls(values) == 1 {
      OneNonNull(values, s, v);
    } else {
      assert IsInteger(v);
      WrappedAlike(v, v, IntegerSum(values));
    }
  }

  lemma SumsNull(values: seq<ScalarValue>, s: ScalarValue)
    ensures Summable(values + [Null]) <==> Summable(values)
    ensures IsSum(values + [Null], s) <==> IsSum(values, s)
  {
    assert (values + [Null])[..|values|] == values;
    assert forall v :: v in values + [Null] <==> v in values || v == Null;
  }

  lemma SumsOne(values: seq<ScalarValue>, v: ScalarValue)
    requires NonNulls(values) == 0 && !v.Null?
    ensures Summable(values + [v]) && IsSum(values + [v], v)
  {
    hide Wrapped, Number;
    assert (values + [v])[..|values|] == values;
    NoneCounted(values);
    NoIntegers(values);
    if IsInteger(v) {
      WrappedSame(v, 0);
    }
  }

  lemma SumsAlike(values: seq<ScalarValue>, s: ScalarValue, v: ScalarValue)
    requires NonNulls(values) >= 1 && Summable(values) && IsSum(values, s) && !v.Null?
    ensures Summable(values + [v]) <==> IsInteger(v) && Discriminant(s) == Discriminant(v)
  {
    assert (values + [v])[..|values|] == values;
    NoneCounted(values);
    var w :| w in values && !w.Null?;
    forall a | a in values && !a.Null? ensures Discriminant(a) == Discriminant(s) {
      TypedAlike(values, s, a);
    }
    if Summable(values + [v]) {
      assert w in values + [v] && v in values + [v];
    }
  }

  lemma SumsMore(f: FloatOps, values: seq<ScalarValue>, s: ScalarValue, v: ScalarValue)
    requires NonNulls(values) >= 1 && Summable(values) && IsSum(values, s)
    requires IsInteger(v) && Discriminant(s) == Discriminant(v)
    ensures ScalarAdd(f, s, v).Ok? && IsSum(values + [v], ScalarAdd(f, s, v).value)
  {
    hide Wrapped, ScalarAdd, Number, IsInteger, Summable, IsSum, NonNulls, IntegerSum, Discriminant;
    var m := IntegerSum(values);
    SumSoFar(values, s, v);
    WrappedAdds(f, v, m);
    IntegerSumPush(values, v);
    SumOfMore(values, s, v, m + Number(v));
  }

  lemma IntegerSumPush(values: seq<ScalarValue>, v: ScalarValue)
    requires IsInteger(v)
    ensures IntegerSum(values + [v]) == IntegerSum(values) + Number(v)
  {
    assert (values + [v])[..|values|] == values;
  }

  lemma SumSoFar(values: seq<ScalarValue>, s: ScalarValue, v: ScalarValue)
    requires NonNulls(values) >= 1 && Summable(values) && IsSum(values, s)
    requires IsInteger(v) && Discriminant(s) == Discriminant(v)
    ensures s == Wrapped(v, IntegerSum(values))
  {
    hide Wrapped, Number;
    NoneCounted(values);
    var w :| w in values && !w.Null?;
    TypedAlike(values, s, w);
    WrappedAlike(w, v, IntegerSum(values));
  }

  lemma SumOfMore(values: seq<ScalarValue>, s: ScalarValue, v: ScalarValue, m: int)
    requires NonNulls(values) >= 1 && Summable(values) && IsSum(values, s)
    requires IsInteger(v) && Discriminant(s) == Discriminant(v) && IntegerSum(values + [v]) == m
    ensures IsSum(values + [v], Wrapped(v, m))
  {
    hide Wrapped, Number, IntegerSum, Summable;
    assert (values + [v])[..|values|] == values;
    WrappedAlike(v, v, m);
    forall x | x in values + [v] && IsInteger(x) ensures Wrapped(v, m) == Wrapped(x, m) {
      if x in values {
        TypedAlike(values, s, x);
      }
      WrappedAlike(x, v, m);
    }
  }

  /** SUM succeeds exactly on values of one integer type, or on a single value of any, and
      is their sum wrapped into that type. */
  lemma {:induction false} SumIsSum(r: Reducer, values: seq<ScalarValue>)
    requires r.kind == Sum && AllExact(r, values)
    ensures Fold(r, values).Ok? <==> Summable(values)
    ensures Fold(r, values).Ok? ==> IsSum(values, Fold(r, values).value)
  {
    if values != [] {
      hide IsSum, Summable, ScalarAdd, IntegerSum;
      var front, v := values[..|values| - 1], values[|values| - 1];
      assert values == front + [v];
      SumIsSum(r, front);
      if Summable(front) {
        SumStep(r, front, Fold(r, front).value, v);
      } else {
        SumsStayBad(front, v);
      }
    } else {
      assert IsSum([], Null);
    }
  }

  lemma SumStep(r: Reducer, values: seq<ScalarValue>, s: ScalarValue, v: ScalarValue)
    requires r.kind == Sum && Exact(r, v) && Summable(values) && IsSum(values, s)
    ensures Accumulate(r, s, v).Ok? <==> Summable(values + [v])
    ensures Accumulate(r, s, v).Ok? ==> IsSum(values + [v], Accumulate(r, s, v).value)
  {
    if v.Null? {
      SumsNull(values, s);
    } else if NonNulls(values) == 0 {
      SumsOne(values, v);
    } else {
      AddDefined(r.floats, s, v);
      SumsAlike(values, s, v);
      if IsInteger(v) && Discriminant(s) == Discriminant(v) {
        SumsMore(r.floats, values, s, v);
      }
    }
  }

  lemma SumsStayBad(values: seq<ScalarValue>, v: ScalarValue)
    requires !Summable(values)
    ensures !Summable(values + [v])
  {
    assert (values + [v])[..|values|] == values;
    assert forall x :: x in values ==> x in values + [v];
  }

  // ---------------------------------------------------------------- MIN and MAX

  // The order of cells of one type: integers and dates as numbers, text by code point.
  predicate Below(a: ScalarValue, b: ScalarValue) {
    Discriminant(a) == Discriminant(b) &&
    if IsInteger(a) then Number(a) < Number(b)
    else if a.Date32? then a.days < b.days
    else a.Utf8? && a.s != b.s && StringLeq(a.s, b.s)
  }

  lemma LessIsBelow(f: FloatOps, a: ScalarValue, b: ScalarValue)
    requires Discriminant(a) == Discriminant(b) && Orderable(a) && !IsFloat(a)
    ensures ScalarLess(f, a, b) == Ok(Below(a, b))
  {
    if a.Utf8? {
      StringLeqTotal(a.s, b.s);
    }
  }

  // Values other than null that are of one type, ordered if there are several.
  ghost predicate Comparable(values: seq<ScalarValue>) {
    NonNulls(values) <= 1
    || forall a, b :: a in values && b in values && !a.Null? && !b.Null? ==>
         Orderable(a) && Discriminant(a) == Discriminant(b)
  }

  // What a minimum is: nothing of nothing, and otherwise one of the values, at most each.
  ghost predicate IsLeast(values: seq<ScalarValue>, v: ScalarValue) {
    if NonNulls(values) == 0 then v == Null
    else v in values && !v.Null? && forall x :: x in values && !x.Null? ==> v == x || Below(v, x)
  }

  ghost predicate IsGreatest(values: seq<ScalarValue>, v: ScalarValue) {
    if NonNulls(values) == 0 then v == Null
    else v in values && !v.Null? && forall x :: x in values && !x.Null? ==> v == x || Below(x, v)
  }

  ghost predicate IsExtreme(r: Reducer, values: seq<ScalarValue>, v: ScalarValue) {
    (r.kind == Min ==> IsLeast(values, v)) && (r.kind == Max ==> IsGreatest(values, v))
  }

  lemma ExtremeOfOne(r: Reducer, values: seq<ScalarValue>, v: ScalarValue)
    requires NonNulls(values) == 0 && !v.Null?
    ensures Comparable(values + [v]) && IsExtreme(r, values + [v], v)
  {
    assert (values + [v])[..|values|] == values;
    NoneCounted(values);
  }

  lemma ExtremeBesideNull(r: Reducer, values: seq<ScalarValue>, s: ScalarValue)
    ensures Comparable(values + [Null]) <==> Comparable(values)
    ensures IsExtreme(r, values + [Null], s) <==> IsExtreme(r, values, s)
  {
    assert (values + [Null])[..|values|] == values;
    assert forall v :: v in values + [Null] <==> v in values || v == Null;
  }

  lemma ComparableWith(values: seq<ScalarValue>, s: ScalarValue, v: ScalarValue)
    requires Comparable(values) && s in values && !s.Null? && !v.Null?
    ensures Comparable(values + [v]) <==> Orderable(v) && Discriminant(s) == Discriminant(v)
  {
    assert (values + [v])[..|values|] == values;
    NoneCounted(values);
    forall a | a in values && !a.Null? ensures Discriminant(a) == Discriminant(s) {
      if NonNulls(values) == 1 {
        OneNonNull(values, a, s);
      }
    }
    if Comparable(values + [v]) {
      assert s in values + [v] && v in values + [v];
    }
  }

  lemma BelowIsOrder(f: FloatOps, a: ScalarValue, b: ScalarValue, c: ScalarValue)
    requires Orderable(a) && !IsFloat(a) && Discriminant(a) == Discriminant(b) == Discriminant(c)
    ensures a == b || Below(a, b) || Below(b, a)
    ensures Below(a, b) && Below(b, c) ==> Below(a, c)
  {
    LessIsBelow(f, a, b);
    LessIsBelow(f, b, a);
    LessIsBelow(f, b, c);
    LessIsBelow(f, a, c);
    LessIsOrder(f, a, b, c);
  }

  // One more value of the same type.
  lemma ExtremeStep(r: Reducer, values: seq<ScalarValue>, s: ScalarValue, v: ScalarValue)
    requires (r.kind == Min || r.kind == Max) && Comparable(values) && IsExtreme(r, values, s)
    requires NonNulls(values) >= 1 && Orderable(v) && !IsFloat(v) && Discriminant(s) == Discriminant(v)
    ensures Accumulate(r, s, v).Ok? && IsExtreme(r, values + [v], Accumulate(r, s, v).value)
  {
    hide Below, ScalarLess;
    var t := if r.kind == Min then (if Below(v, s) then v else s) else if Below(s, v) then v else s;
    LessIsBelow(r.floats, s, v);
    LessIsBelow(r.floats, v, s);
    assert Accumulate(r, s, v) == Ok(t);
    assert (values + [v])[..|values|] == values;
    ComparableWith(values, s, v);
    assert forall x :: x in values ==> x in values + [v];
    assert v in values + [v] && s in values + [v];
    BelowIsOrder(r.floats, s, v, s);
    forall x | x in values + [v] && !x.Null?
      ensures t == x || (if r.kind == Min then Below(t, x) else Below(x, t))
    {
      if NonNulls(values) == 1 && x in values {
        OneNonNull(values, x, s);
      }
      BelowIsOrder(r.floats, v, s, x);
      BelowIsOrder(r.floats, x, s, v);
    }
  }

  lemma ExtremeAccumulates(r: Reducer, values: seq<ScalarValue>, s: ScalarValue, v: ScalarValue)
    requires (r.kind == Min || r.kind == Max) && Exact(r, v) && Comparable(values) && IsExtreme(r, values, s)
    ensures Accumulate(r, s, v).Ok? <==> Comparable(values + [v])
    ensures Accumulate(r, s, v).Ok? ==> IsExtreme(r, values + [v], Accumulate(r, s, v).value)
  {
    if v.Null? {
      ExtremeBesideNull(r, values, s);
    } else if NonNulls(values) == 0 {
      ExtremeOfOne(r, values, v);
    } else {
      LessDefined(r.floats, s, v);
      LessDefined(r.floats, v, s);
      ComparableWith(values, s, v);
      if Orderable(v) && Discriminant(s) == Discriminant(v) {
        ExtremeStep(r, values, s, v);
      }
    }
  }

  /** MIN and MAX succeed exactly on values of one ordered type, or on a single value of
      any, and are the least and the greatest of them. */
  lemma {:induction false} MinMaxIsExtreme(r: Reducer, values: seq<ScalarValue>)
    requires (r.kind == Min || r.kind == Max) && AllExact(r, values)
    ensures Fold(r, values).Ok? <==> Comparable(values)
    ensures Fold(r, values).Ok? ==> IsExtreme(r, values, Fold(r, values).value)
  {
    if values != [] {
      hide IsExtreme, Comparable, Accumulate;
      var front, v := values[..|values| - 1], values[|values| - 1];
      assert values == front + [v];
      MinMaxIsExtreme(r, front);
      if Comparable(front) {
        ExtremeAccumulates(r, front, Fold(r, front).value, v);
      } else {
        ComparesStayBad(front, v);
      }
    }
  }

  lemma ComparesStayBad(values: seq<ScalarValue>, v: ScalarValue)
    requires !Comparable(values)
    ensures !Comparable(values + [v])
  {
    assert (values + [v])[..|values|] == values;
    assert forall x :: x in values ==> x in values + [v];
  }
}
