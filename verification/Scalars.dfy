/** Cell values, and the key equality and hashing that group keys, join keys and
    shuffle targets share. Floats are carried as their bit patterns. */
module Scalars {

  type I8 = x: int | -0x80 <= x < 0x80
  type I16 = x: int | -0x8000 <= x < 0x8000
  type I32 = x: int | -0x8000_0000 <= x < 0x8000_0000
  type I64 = x: int | -0x8000_0000_0000_0000 <= x < 0x8000_0000_0000_0000
  type U8 = x: int | 0 <= x < 0x100
  type U16 = x: int | 0 <= x < 0x1_0000
  type U32 = x: int | 0 <= x < 0x1_0000_0000
  type U64 = x: int | 0 <= x < 0x1_0000_0000_0000_0000

  datatype ScalarValue =
    | Null
    | Boolean(b: bool)
    | Int8(i8: I8) | Int16(i16: I16) | Int32(i32: I32) | Int64(i64: I64)
    | UInt8(u8: U8) | UInt16(u16: U16) | UInt32(u32: U32) | UInt64(u64: U64)
    | Float32(bits32: U32) | Float64(bits64: U64)
    | Utf8(s: string)
    | Binary(bytes: seq<U8>)
    | Date32(days: I32)

  type Row = seq<ScalarValue>

  predicate IsNan32(bits: U32) {
    bits % 0x8000_0000 > 0x7F80_0000
  }

  predicate IsNan64(bits: U64) {
    bits % 0x8000_0000_0000_0000 > 0x7FF0_0000_0000_0000
  }

  // The IEEE 754 comparison `x == y`: NaN differs from everything, the two zeros agree.
  predicate FloatEq32(x: U32, y: U32) {
    !IsNan32(x) && !IsNan32(y) && (x == y || (x % 0x8000_0000 == 0 && y % 0x8000_0000 == 0))
  }

  predicate FloatEq64(x: U64, y: U64) {
    && !IsNan64(x) && !IsNan64(y)
    && (x == y || (x % 0x8000_0000_0000_0000 == 0 && y % 0x8000_0000_0000_0000 == 0))
  }

  // The derived `PartialEq` of the cell type.
  predicate DerivedEq(a: ScalarValue, b: ScalarValue) {
    match (a, b)
    case (Float32(x), Float32(y)) => FloatEq32(x, y)
    case (Float64(x), Float64(y)) => FloatEq64(x, y)
    case _ => a == b
  }

  // Key equality: floats by bit pattern, everything else by the derived equality.
  predicate ScalarKeyEq(a: ScalarValue, b: ScalarValue) {
    match (a, b)
    case (Float32(x), Float32(y)) => x == y
    case (Float64(x), Float64(y)) => x == y
    case _ => DerivedEq(a, b)
  }

  predicate RowKeyEq(a: Row, b: Row) {
    |a| == |b| && forall i :: 0 <= i < |a| ==> ScalarKeyEq(a[i], b[i])
  }

  // Position of the variant in the declaration, which is what its discriminant hashes to.
  function Discriminant(v: ScalarValue): nat {
    match v
    case Null => 0
    case Boolean(_) => 1
    case Int8(_) => 2
    case Int16(_) => 3
    case Int32(_) => 4
    case Int64(_) => 5
    case UInt8(_) => 6
    case UInt16(_) => 7
    case UInt32(_) => 8
    case UInt64(_) => 9
    case Float32(_) => 10
    case Float64(_) => 11
    case Utf8(_) => 12
    case Binary(_) => 13
    case Date32(_) => 14
  }

  // A character in UTF-8.
  function CharBytes(c: char): seq<int> {
    var n := c as int;
    if n < 0x80 then [n]
    else if n < 0x800 then [0xC0 + n / 0x40, 0x80 + n % 0x40]
    else if n < 0x1_0000 then [0xE0 + n / 0x1000, 0x80 + n / 0x40 % 0x40, 0x80 + n % 0x40]
    else [0xF0 + n / 0x4_0000, 0x80 + n / 0x1000 % 0x40, 0x80 + n / 0x40 % 0x40, 0x80 + n % 0x40]
  }

  function TextBytes(s: string): seq<int> {
    if s == [] then [] else CharBytes(s[0]) + TextBytes(s[1..])
  }

  // The words one cell feeds to the hasher: its discriminant, then its payload.
  function HashWords(v: ScalarValue): seq<int> {
    [Discriminant(v)] +
    match v
    case Null => []
    case Boolean(b) => [if b then 1 else 0]
    case Int8(n) => [n]
    case Int16(n) => [n]
    case Int32(n) => [n]
    case Int64(n) => [n]
    case UInt8(n) => [n]
    case UInt16(n) => [n]
    case UInt32(n) => [n]
    case UInt64(n) => [n]
    case Float32(bits) => [bits]
    case Float64(bits) => [bits]
    case Utf8(s) => TextBytes(s) + [0xFF]
    case Binary(bytes) => [|bytes|] + seq(|bytes|, i requires 0 <= i < |bytes| => bytes[i] as int)
    case Date32(d) => [d]
  }

  function KeyWords(key: Row): seq<int> {
    if key == [] then [] else HashWords(key[0]) + KeyWords(key[1..])
  }

  /** Key equality is exactly equality of bit patterns, so a hash map keyed by rows
      behaves as a map keyed by values, although the derived equality of cells is
      not even reflexive; and equal keys feed the hasher the same words. */
  lemma RowKeyEqIsIdentity(a: Row, b: Row)
    ensures RowKeyEq(a, b) <==> a == b
    ensures RowKeyEq(a, b) ==> KeyWords(a) == KeyWords(b)
    ensures exists v: ScalarValue :: !DerivedEq(v, v) && ScalarKeyEq(v, v)
  {
    if RowKeyEq(a, b) {
      forall i | 0 <= i < |a| ensures a[i] == b[i] {
        assert ScalarKeyEq(a[i], b[i]);
      }
    }
    assert !DerivedEq(Float64(0x7FF8_0000_0000_0000), Float64(0x7FF8_0000_0000_0000));
  }

  // A float whose exponent bits are all set and whose fraction is not zero.
  predicate NotANumber(v: ScalarValue) {
    || (v.Float32? && v.bits32 / 0x80_0000 % 0x100 == 0xFF && v.bits32 % 0x80_0000 != 0)
    || (v.Float64? && v.bits64 / 0x10_0000_0000_0000 % 0x800 == 0x7FF && v.bits64 % 0x10_0000_0000_0000 != 0)
  }

  /** Cells are equal, where keys are, but for NaN, which equals nothing; and zeros of
      different sign are equal as cells and different as keys. */
  lemma CellsUnlikeKeys(a: ScalarValue, b: ScalarValue)
    ensures DerivedEq(a, a) <==> !NotANumber(a)
    ensures DerivedEq(a, b) && !ScalarKeyEq(a, b) ==>
              (a.Float32? && {a, b} == {Float32(0), Float32(0x8000_0000)})
              || (a.Float64? && {a, b} == {Float64(0), Float64(0x8000_0000_0000_0000)})
    ensures DerivedEq(Float32(0), Float32(0x8000_0000)) && DerivedEq(Float64(0), Float64(0x8000_0000_0000_0000))
  {
    if a.Float32? && b.Float32? {
      assert a.bits32 == a.bits32 / 0x8000_0000 * 0x8000_0000 + a.bits32 % 0x8000_0000;
    }
  }

  // ---------------------------------------------------------------- string order

  // Lexicographic by code point, which is the byte order of the encoded text.
  predicate StringLeq(a: string, b: string) {
    a == [] || (b != [] && (a[0] < b[0] || (a[0] == b[0] && StringLeq(a[1..], b[1..]))))
  }

  lemma {:induction false} StringLeqTotal(a: string, b: string)
    ensures StringLeq(a, b) || StringLeq(b, a)
    ensures StringLeq(a, b) && StringLeq(b, a) ==> a == b
  {
    if a != [] && b != [] && a[0] == b[0] {
      StringLeqTotal(a[1..], b[1..]);
      assert a == [a[0]] + a[1..] && b == [b[0]] + b[1..];
    }
  }

  lemma {:induction false} StringLeqTransitive(a: string, b: string, c: string)
    requires StringLeq(a, b) && StringLeq(b, c)
    ensures StringLeq(a, c)
  {
    if a != [] && a[0] == b[0] == c[0] {
      StringLeqTransitive(a[1..], b[1..], c[1..]);
    }
  }

  // At `k` the two texts differ for the first time, and `a` has the lesser code point.
  ghost predicate LessAt(a: string, b: string, k: nat) {
    k < |a| && k < |b| && a[..k] == b[..k] && a[k] < b[k]
  }

  /** Text is ordered by code point: a prefix comes first, and otherwise the first
      difference decides. */
  lemma {:induction false} StringLeqIff(a: string, b: string)
    ensures StringLeq(a, b) <==> a <= b || exists k: nat :: LessAt(a, b, k)
  {
    if a != [] && b != [] {
      var x, y := a[1..], b[1..];
      assert a == [a[0]] + x && b == [b[0]] + y;
      StringLeqIff(x, y);
      forall k: nat | LessAt(a, b, k) ensures a[0] <= b[0] {
        if k > 0 {
          assert a[..k][0] == b[..k][0];
        }
      }
      if a[0] < b[0] {
        assert LessAt(a, b, 0);
      } else if a[0] == b[0] {
        if k: nat :| LessAt(x, y, k) {
          assert a[..k + 1] == [a[0]] + x[..k] && b[..k + 1] == [b[0]] + y[..k];
          assert LessAt(a, b, k + 1);
        }
        if k: nat :| LessAt(a, b, k) {
          assert x[..k - 1] == a[..k][1..] && y[..k - 1] == b[..k][1..];
          assert LessAt(x, y, k - 1);
        }
      }
    }
  }
}
