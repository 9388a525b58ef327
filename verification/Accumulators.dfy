/** The running state of SUM, COUNT, MIN and MAX. A state is the scalar it would
    report: `Null` until a value arrives, or an `Int32` count. */
module Accumulators {
  import opened Results
  import opened Scalars
  import opened Sequences

  datatype Kind = Sum | Count | Min | Max

  // Float arithmetic is left open: these are the operations on bit patterns.
  datatype FloatOps = FloatOps(
    add32: (U32, U32) -> U32, add64: (U64, U64) -> U64,
    less32: (U32, U32) -> bool, less64: (U64, U64) -> bool,
    toI64: ScalarValue -> I64)

  datatype Reducer = Reducer(kind: Kind, floats: FloatOps)

  // A sum of two values of the `size` values from `lo` on, wrapped back into them.
  function WrapAdd(x: int, y: int, lo: int, size: int): (r: int)
    requires lo <= x < lo + size && lo <= y < lo + size && lo <= 0 < lo + size
    ensures lo <= r < lo + size
    ensures r == x + y || r == x + y - size || r == x + y + size
  {
    if x + y < lo then x + y + size else if x + y >= lo + size then x + y - size else x + y
  }

  // The truncating cast to `2 * half` signed values.
  function WrapSigned(n: int, half: int): (r: int)
    requires half > 0
    ensures -half <= r < half
    ensures -half <= n < half ==> r == n
  {
    if -half <= n < half then n else (n + half) % (2 * half) - half
  }

  function ScalarAdd(floats: FloatOps, a: ScalarValue, b: ScalarValue): Result<ScalarValue> {
    match (a, b)
    case (Int8(x), Int8(y)) => Ok(Int8(WrapAdd(x, y, -0x80, 0x100)))
    case (Int16(x), Int16(y)) => Ok(Int16(WrapAdd(x, y, -0x8000, 0x1_0000)))
    case (Int32(x), Int32(y)) => Ok(Int32(WrapAdd(x, y, -0x8000_0000, 0x1_0000_0000)))
    case (Int64(x), Int64(y)) => Ok(Int64(WrapAdd(x, y, -0x8000_0000_0000_0000, 0x1_0000_0000_0000_0000)))
    case (UInt8(x), UInt8(y)) => Ok(UInt8(WrapAdd(x, y, 0, 0x100)))
    case (UInt16(x), UInt16(y)) => Ok(UInt16(WrapAdd(x, y, 0, 0x1_0000)))
    case (UInt32(x), UInt32(y)) => Ok(UInt32(WrapAdd(x, y, 0, 0x1_0000_0000)))
    case (UInt64(x), UInt64(y)) => Ok(UInt64(WrapAdd(x, y, 0, 0x1_0000_0000_0000_0000)))
    case (Float32(x), Float32(y)) => Ok(Float32(floats.add32(x, y)))
    case (Float64(x), Float64(y)) => Ok(Float64(floats.add64(x, y)))
    case _ => Err(NotImplemented)
  }

  // `a < b` over cells of one type; other pairs are not comparable.
  function ScalarLess(floats: FloatOps, a: ScalarValue, b: ScalarValue): Result<bool> {
    match (a, b)
    case (Int8(x), Int8(y)) => Ok(x < y)
    case (Int16(x), Int16(y)) => Ok(x < y)
    case (Int32(x), Int32(y)) => Ok(x < y)
    case (Int64(x), Int64(y)) => Ok(x < y)
    case (UInt8(x), UInt8(y)) => Ok(x < y)
    case (UInt16(x), UInt16(y)) => Ok(x < y)
    case (UInt32(x), UInt32(y)) => Ok(x < y)
    case (UInt64(x), UInt64(y)) => Ok(x < y)
    case (Float32(x), Float32(y)) => Ok(floats.less32(x, y))
    case (Float64(x), Float64(y)) => Ok(floats.less64(x, y))
    case (Utf8(x), Utf8(y)) => Ok(!StringLeq(y, x))
    case (Date32(x), Date32(y)) => Ok(x < y)
    case _ => Err(NotImplemented)
  }

  function NumberToI64(floats: FloatOps, v: ScalarValue): Result<I64> {
    match v
    case Int8(n) => Ok(n)
    case Int16(n) => Ok(n)
    case Int32(n) => Ok(n)
    case Int64(n) => Ok(n)
    case UInt8(n) => Ok(n)
    case UInt16(n) => Ok(n)
    case UInt32(n) => Ok(n)
    case UInt64(n) => Ok(WrapSigned(n, 0x8000_0000_0000_0000))
    case Float32(_) => Ok(floats.toI64(v))
    case Float64(_) => Ok(floats.toI64(v))
    case Date32(d) => Ok(d)
    case _ => Err(Internal)
  }

  // A checked `i32` addition: overflow panics. Count states are always `Int32`.
  function CountPlus(a: ScalarValue, b: ScalarValue): Result<ScalarValue> {
    if !a.Int32? || !b.Int32? then Err(Panic)
    else if -0x8000_0000 <= a.i32 + b.i32 < 0x8000_0000 then Ok(Int32(a.i32 + b.i32))
    else Err(Panic)
  }

  function Initial(r: Reducer): ScalarValue {
    if r.kind == Count then Int32(0) else Null
  }

  function Accumulate(r: Reducer, s: ScalarValue, v: ScalarValue): Result<ScalarValue> {
    if v.Null? then Ok(s)
    else match r.kind
      case Count => CountPlus(s, Int32(1))
      case Sum => if s.Null? then Ok(v) else ScalarAdd(r.floats, s, v)
      case Min =>
        if s.Null? then Ok(v)
        else
          var less :- ScalarLess(r.floats, v, s);
          Ok(if less then v else s)
      case Max =>
        if s.Null? then Ok(v)
        else
          var greater :- ScalarLess(r.floats, s, v);
          Ok(if greater then v else s)
  }

  // Only COUNT merges a partial state differently from accumulating it.
  function Merge(r: Reducer, s: ScalarValue, partial: ScalarValue): Result<ScalarValue> {
    if r.kind != Count then Accumulate(r, s, partial)
    else if partial.Null? then Ok(s)
    else
      var n :- NumberToI64(r.floats, partial);
      CountPlus(s, Int32(WrapSigned(n, 0x8000_0000)))
  }

  // ---------------------------------------------------------------- the accumulators

  class SumAccumulator {
    const floats: FloatOps
    var value: ScalarValue

    constructor (floats: FloatOps)
      ensures this.floats == floats && value == Initial(Reducer(Sum, floats))
    {
      this.floats := floats;
      value := Null;
    }

    method AccumulateValue(v: ScalarValue) returns (r: Result<()>)
      modifies this
      ensures var spec := Accumulate(Reducer(Sum, floats), old(value), v);
              r.Ok? == spec.Ok? && value == if r.Ok? then spec.value else old(value)
    {
      if v.Null? {
        return Ok(());
      }
      if value.Null? {
        value := v;
      } else {
        value :- ScalarAdd(floats, value, v);
      }
      return Ok(());
    }

    method MergePartial(partial: ScalarValue) returns (r: Result<()>)
      modifies this
      ensures var spec := Merge(Reducer(Sum, floats), old(value), partial);
              r.Ok? == spec.Ok? && value == if r.Ok? then spec.value else old(value)
    {
      r := AccumulateValue(partial);
    }
  }

  class CountAccumulator {
    const floats: FloatOps
    var count: I32

    constructor (floats: FloatOps)
      ensures this.floats == floats && Int32(count) == Initial(Reducer(Count, floats))
    {
      this.floats := floats;
      count := 0;
    }

    method AccumulateValue(v: ScalarValue) returns (r: Result<()>)
      modifies this
      ensures var spec := Accumulate(Reducer(Count, floats), Int32(old(count)), v);
              r.Ok? == spec.Ok? && Int32(count) == if r.Ok? then spec.value else Int32(old(count))
    {
      if !v.Null? {
        if count == 0x7FFF_FFFF {
          return Err(Panic);
        }
        count := count + 1;
      }
      return Ok(());
    }

    method MergePartial(partial: ScalarValue) returns (r: Result<()>)
      modifies this
      ensures var spec := Merge(Reducer(Count, floats), Int32(old(count)), partial);
              r.Ok? == spec.Ok? && Int32(count) == if r.Ok? then spec.value else Int32(old(count))
    {
      if !partial.Null? {
        var n :- NumberToI64(floats, partial);
        var sum := count + WrapSigned(n, 0x8000_0000);
        if sum < -0x8000_0000 || sum > 0x7FFF_FFFF {
          return Err(Panic);
        }
        count := sum;
      }
      return Ok(());
    }
  }

  class MinAccumulator {
    const floats: FloatOps
    var value: ScalarValue

    constructor (floats: FloatOps)
      ensures this.floats == floats && value == Initial(Reducer(Min, floats))
    {
      this.floats := floats;
      value := Null;
    }

    method AccumulateValue(v: ScalarValue) returns (r: Result<()>)
      modifies this
      ensures var spec := Accumulate(Reducer(Min, floats), old(value), v);
              r.Ok? == spec.Ok? && value == if r.Ok? then spec.value else old(value)
    {
      if v.Null? {
        return Ok(());
      }
      var less := value.Null?;
      if !less {
        less :- ScalarLess(floats, v, value);
      }
      if less {
        value := v;
      }
      return Ok(());
    }

    method MergePartial(partial: ScalarValue) returns (r: Result<()>)
      modifies this
      ensures var spec := Merge(Reducer(Min, floats), old(value), partial);
              r.Ok? == spec.Ok? && value == if r.Ok? then spec.value else old(value)
    {
      r := AccumulateValue(partial);
    }
  }

  class MaxAccumulator {
    const floats: FloatOps
    var value: ScalarValue

    constructor (floats: FloatOps)
      ensures this.floats == floats && value == Initial(Reducer(Max, floats))
    {
      this.floats := floats;
      value := Null;
    }

    method AccumulateValue(v: ScalarValue) returns (r: Result<()>)
      modifies this
      ensures var spec := Accumulate(Reducer(Max, floats), old(value), v);
              r.Ok? == spec.Ok? && value == if r.Ok? then spec.value else old(value)
    {
      if v.Null? {
        return Ok(());
      }
      var greater := value.Null?;
      if !greater {
        greater :- ScalarLess(floats, value, v);
      }
      if greater {
        value := v;
      }
      return Ok(());
    }

    method MergePartial(partial: ScalarValue) returns (r: Result<()>)
      modifies this
      ensures var spec := Merge(Reducer(Max, floats), old(value), partial);
              r.Ok? == spec.Ok? && value == if r.Ok? then spec.value else old(value)
    {
      r := AccumulateValue(partial);
    }
  }

  // ---------------------------------------------------------------- folds

  // Values accumulated in order.
  function Fold(r: Reducer, values: seq<ScalarValue>): Result<ScalarValue> {
    if values == [] then Ok(Initial(r))
    else
      var s :- Fold(r, values[..|values| - 1]);
      Accumulate(r, s, values[|values| - 1])
  }

  // Partial states merged in order.
  function FoldPartials(r: Reducer, partials: seq<ScalarValue>): Result<ScalarValue> {
    if partials == [] then Ok(Initial(r))
    else
      var s :- FoldPartials(r, partials[..|partials| - 1]);
      Merge(r, s, partials[|partials| - 1])
  }
}
