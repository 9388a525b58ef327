/** Comparing 64-bit integers through double-precision floats: rounding is to the nearest
    representable value, ties to the even significand (section 4.3.1 of IEEE 754-2019). */
module FloatCompare {
  import opened Arithmetic
  import opened Scalars

  // A double's significand has 53 bits.
  const SIGNIFICANDS := 0x20_0000_0000_0000

  function Pow2(k: nat): (p: nat)
    ensures p >= 1
  {
    if k == 0 then 1 else 2 * Pow2(k - 1)
  }

  // The distance between doubles at magnitude `m`.
  function Step(m: nat): (s: nat)
    ensures s >= 1
  {
    if m < SIGNIFICANDS then 1 else 2 * Step(m / 2)
  }

  // `m` rounded to a multiple of `s`, ties to the even multiple.
  function RoundTo(m: nat, s: nat): nat
    requires s > 0
  {
    var r := m % s;
    if 2 * r < s || (2 * r == s && (m / s) % 2 == 0) then m - r else m - r + s
  }

  // The conversion of an integer to a double, as the integer that double is.
  function Round(n: int): int {
    if n >= 0 then RoundTo(n, Step(n)) else 0 - RoundTo(-n, Step(-n))
  }

  function Scaled(c: nat, k: nat): nat {
    c * Pow2(k)
  }

  // A double holds `c * 2^k` for a significand `c` of at most 53 bits.
  ghost predicate Representable(v: int) {
    exists c: nat, k: nat :: c < SIGNIFICANDS && (v == Scaled(c, k) || -v == Scaled(c, k))
  }

  // ---------------------------------------------------------------- steps

  lemma DivDiv(m: nat, s: nat)
    requires s > 0
    ensures (m / 2) / s == m / (2 * s)
  {
    var q := (m / 2) / s;
    assert m / 2 == q * s + (m / 2) % s;
    var r := m - q * (2 * s);
    assert 0 <= r < 2 * s;
    DivUnique(m, 2 * s, q, r);
  }

  // At its own step a magnitude has a 53-bit significand.
  lemma {:induction false} StepRange(m: nat)
    ensures m / Step(m) < SIGNIFICANDS
    ensures m >= SIGNIFICANDS ==> m / Step(m) >= SIGNIFICANDS / 2
    ensures m < SIGNIFICANDS ==> Step(m) == 1
  {
    if m >= SIGNIFICANDS {
      StepRange(m / 2);
      DivDiv(m, Step(m / 2));
    }
  }

  lemma {:induction false} StepIsPower(m: nat) returns (k: nat)
    ensures Step(m) == Pow2(k)
  {
    if m < SIGNIFICANDS {
      k := 0;
    } else {
      k := StepIsPower(m / 2);
      k := k + 1;
    }
  }

  lemma {:induction false} StepMonotone(m: nat, m': nat)
    requires m <= m'
    ensures Step(m) <= Step(m')
    ensures Step(m) != Step(m') ==> 2 * Step(m) <= Step(m')
  {
    if m >= SIGNIFICANDS {
      StepMonotone(m / 2, m' / 2);
    }
  }

  // A power of two at which a magnitude has a full significand is its step.
  lemma {:induction false} StepAt(m: nat, k: nat)
    requires SIGNIFICANDS / 2 <= m / Pow2(k) < SIGNIFICANDS
    ensures Step(m) == Pow2(k)
  {
    if k > 0 {
      var s := Pow2(k - 1);
      DivDiv(m, s);
      AtLeast(m, Pow2(k), SIGNIFICANDS / 2);
      StepAt(m / 2, k - 1);
    }
  }

  lemma AtLeast(m: nat, s: nat, q: nat)
    requires s >= 2 && m / s >= q
    ensures m >= 2 * q
  {
    assert m >= (m / s) * s;
    assert (m / s) * s >= q * s >= q * 2;
  }

  // ---------------------------------------------------------------- rounding is monotone

  lemma Floor(m: nat, s: nat)
    requires s > 0
    ensures m - m % s == (m / s) * s && 0 <= m % s < s
  {
  }

  lemma MultiplesInOrder(q: nat, q': nat, s: nat)
    ensures q <= q' ==> q * s <= q' * s
    ensures q < q' ==> q * s + s <= q' * s
  {
    if q < q' && s > 0 {
      assert q' * s == q * s + (q' - q) * s;
      MultipleSign(q' - q, s);
    }
  }

  // Two magnitudes in order have the same multiple of `s` below them, or a whole step lies
  // between.
  lemma Neighbours(m: nat, m': nat, s: nat)
    requires s > 0 && m <= m'
    ensures || (m / s == m' / s && m - m % s == m' - m' % s)
            || m - m % s + s <= m' - m' % s
  {
    Floor(m, s);
    Floor(m', s);
    MultiplesInOrder(m / s, m' / s, s);
    MultiplesInOrder(m' / s, m / s, s);
  }

  lemma SameStepMonotone(m: nat, m': nat, s: nat)
    requires s > 0 && m <= m'
    ensures RoundTo(m, s) <= RoundTo(m', s)
  {
    Neighbours(m, m', s);
  }

  // Rounding stays within the magnitudes that share a step.
  lemma RoundStays(m: nat)
    ensures var s := Step(m);
            && RoundTo(m, s) <= SIGNIFICANDS * s
            && (m >= SIGNIFICANDS ==> SIGNIFICANDS / 2 * s <= RoundTo(m, s))
  {
    var s := Step(m);
    StepRange(m);
    Floor(m, s);
    MultiplesInOrder(m / s, SIGNIFICANDS, s);
    MultiplesInOrder(SIGNIFICANDS / 2, m / s, s);
  }

  lemma MagnitudesMonotone(m: nat, m': nat)
    requires m <= m'
    ensures RoundTo(m, Step(m)) <= RoundTo(m', Step(m'))
  {
    StepMonotone(m, m');
    if Step(m) == Step(m') {
      SameStepMonotone(m, m', Step(m));
    } else {
      RoundStays(m);
      RoundStays(m');
      StepRange(m');
    }
  }

  /** Rounding never reverses an order. */
  lemma RoundIsMonotone(a: int, b: int)
    requires a <= b
    ensures Round(a) <= Round(b)
  {
    if a >= 0 {
      MagnitudesMonotone(a, b);
    } else if b < 0 {
      MagnitudesMonotone(-b, -a);
    }
  }

  /** Up to 2^53 in magnitude rounding changes nothing. */
  lemma RoundIsExact(n: int)
    requires -SIGNIFICANDS <= n <= SIGNIFICANDS
    ensures Round(n) == n
  {
    if n == SIGNIFICANDS || n == -SIGNIFICANDS {
      assert Step(SIGNIFICANDS) == 2 * Step(SIGNIFICANDS / 2) == 2;
    }
  }

  // ---------------------------------------------------------------- rounding is to nearest

  // The multiples of a power of two just above and below have short significands.
  lemma NextMultiple(q: nat, s: nat, k: nat)
    requires q < SIGNIFICANDS && s == Pow2(k)
    ensures Representable(q * s) && Representable(q * s + s)
  {
    assert q * s == Scaled(q, k);
    if q + 1 < SIGNIFICANDS {
      assert q * s + s == (q + 1) * s == Scaled(q + 1, k);
    } else {
      assert Pow2(k + 1) == 2 * s;
      assert q * s + s == SIGNIFICANDS * s == Scaled(SIGNIFICANDS / 2, k + 1);
    }
  }

  lemma RoundedRepresentable(m: nat)
    ensures Representable(RoundTo(m, Step(m)))
  {
    hide Pow2, Step, Scaled, Representable;
    var k := StepIsPower(m);
    StepRange(m);
    Floor(m, Step(m));
    NextMultiple(m / Step(m), Step(m), k);
  }

  lemma {:induction false} PowersDivide(j: nat, k: nat, c: nat)
    requires j <= k
    ensures Scaled(c, k) % Pow2(j) == 0
  {
    if j == k {
      DivUnique(Scaled(c, k), Pow2(k), c, 0);
    } else {
      PowersDivide(j, k - 1, 2 * c);
      assert Scaled(c, k) == Scaled(2 * c, k - 1);
    }
  }

  lemma {:induction false} PowersInOrder(j: nat, k: nat)
    ensures j <= k ==> Pow2(j) <= Pow2(k)
    ensures j < k ==> 2 * Pow2(j) <= Pow2(k)
  {
    if j < k {
      PowersInOrder(j, k - 1);
    }
  }

  lemma MultipleOutside(v: nat, m: nat, s: nat)
    requires s > 0 && v % s == 0
    ensures v <= m - m % s || v >= m - m % s + s
  {
    Floor(m, s);
    Floor(v, s);
    MultiplesInOrder(v / s, m / s, s);
    MultiplesInOrder(m / s, v / s, s);
  }

  // No double lies strictly between two neighbouring multiples of the step.
  lemma NoneBetween(m: nat, c: nat, k: nat)
    requires c < SIGNIFICANDS && m >= SIGNIFICANDS
    ensures var s, v := Step(m), Scaled(c, k);
            v <= m - m % s || v >= m - m % s + s
  {
    hide Pow2, Step, Scaled;
    var s := Step(m);
    var j := StepIsPower(m);
    if j <= k {
      PowersDivide(j, k, c);
      MultipleOutside(Scaled(c, k), m, s);
    } else {
      TooSmall(c, k, j);
      StepRange(m);
      Floor(m, s);
      MultiplesInOrder(SIGNIFICANDS / 2, m / s, s);
    }
  }

  lemma TooSmall(c: nat, k: nat, j: nat)
    requires c < SIGNIFICANDS && k < j
    ensures Scaled(c, k) < SIGNIFICANDS / 2 * Pow2(j)
  {
    PowersInOrder(k, j);
    MultiplesInOrder(c, SIGNIFICANDS, Pow2(k));
  }

  function Distance(a: int, b: int): nat {
    if a <= b then b - a else a - b
  }

  lemma HalfStep(m: nat, s: nat)
    requires s > 0
    ensures 2 * Distance(m, RoundTo(m, s)) <= s
    ensures m % s == 0 ==> RoundTo(m, s) == m
  {
    Floor(m, s);
  }

  lemma NearestOfTwo(m: nat, s: nat, v: int)
    requires s > 0 && (v <= m - m % s || v >= m - m % s + s)
    ensures Distance(m, RoundTo(m, s)) <= Distance(m, v)
  {
    Floor(m, s);
  }

  lemma NearestMagnitude(m: nat, c: nat, k: nat)
    requires c < SIGNIFICANDS
    ensures Distance(m, RoundTo(m, Step(m))) <= Distance(m, Scaled(c, k))
  {
    hide Pow2, Step, Scaled;
    var s := Step(m);
    StepRange(m);
    HalfStep(m, s);
    if m >= SIGNIFICANDS {
      NoneBetween(m, c, k);
      NearestOfTwo(m, s, Scaled(c, k));
    }
  }

  lemma NegativeRepresentable(v: int)
    requires Representable(v)
    ensures Representable(-v)
  {
    var c: nat, k: nat :| c < SIGNIFICANDS && (v == Scaled(c, k) || -v == Scaled(c, k));
    assert -v == Scaled(c, k) || -(-v) == Scaled(c, k);
  }

  lemma NearestTo(n: int, v: int)
    requires Representable(v)
    ensures Distance(n, Round(n)) <= Distance(n, v)
  {
    hide Pow2, Step, Scaled, RoundTo;
    var m: nat := if n >= 0 then n else -n;
    var c: nat, k: nat :| c < SIGNIFICANDS && (v == Scaled(c, k) || -v == Scaled(c, k));
    NearestMagnitude(m, c, k);
    NearestMagnitude(m, 0, 0);
    ScaledZero();
  }

  lemma ScaledZero()
    ensures Scaled(0, 0) == 0
  {
  }

  /** The conversion is roundTiesToEven: its result is a double, no double is nearer, and
      when the integer lies halfway between two multiples of the step the even one is
      taken. */
  lemma RoundIsNearest(n: int)
    ensures Representable(Round(n))
    ensures forall v :: Representable(v) ==> Distance(n, Round(n)) <= Distance(n, v)
    ensures var m := if n >= 0 then n else -n;
            2 * (m % Step(m)) == Step(m) ==> (RoundTo(m, Step(m)) / Step(m)) % 2 == 0
  {
    var m: nat := if n >= 0 then n else -n;
    RoundedRepresentable(m);
    NegativeRepresentable(RoundTo(m, Step(m)));
    forall v | Representable(v) ensures Distance(n, Round(n)) <= Distance(n, v) {
      NearestTo(n, v);
    }
    if 2 * (m % Step(m)) == Step(m) {
      TieGoesEven(m, Step(m));
    }
  }

  lemma TieGoesEven(m: nat, s: nat)
    requires s > 0 && 2 * (m % s) == s
    ensures (RoundTo(m, s) / s) % 2 == 0
  {
    Floor(m, s);
    var q := if (m / s) % 2 == 0 then m / s else m / s + 1;
    assert (m / s + 1) * s == (m / s) * s + s;
    assert RoundTo(m, s) == q * s;
    DivUnique(q * s, s, q, 0);
  }

  // ---------------------------------------------------------------- comparison

  datatype Comparison = Eq | NotEq | Lt | LtEq | Gt | GtEq

  predicate Compare(op: Comparison, a: int, b: int) {
    match op
    case Eq => a == b
    case NotEq => a != b
    case Lt => a < b
    case LtEq => a <= b
    case Gt => a > b
    case GtEq => a >= b
  }

  // The engine compares the doubles the integers convert to.
  predicate CompareViaFloat(op: Comparison, a: I64, b: I64) {
    Compare(op, Round(a), Round(b))
  }

  /** Comparing through doubles is comparing integers, by all six operators, exactly when
      the integers are equal or convert to different doubles. */
  lemma ComparesRightIff(a: I64, b: I64)
    ensures (forall op :: CompareViaFloat(op, a, b) == Compare(op, a, b)) <==> a == b || Round(a) != Round(b)
  {
    if a <= b {
      RoundIsMonotone(a, b);
    } else {
      RoundIsMonotone(b, a);
    }
    if a != b && Round(a) == Round(b) {
      assert CompareViaFloat(Eq, a, b) != Compare(Eq, a, b);
    }
  }

  // The multiple of its step at or below a magnitude.
  function Below(m: nat): nat {
    m - m % Step(m)
  }

  // Past the middle between that multiple and the next, or on it and the next is even.
  predicate PastMiddle(m: nat) {
    var s := Step(m);
    2 * (m % s) > s || (2 * (m % s) == s && (m / s) % 2 == 1)
  }

  // Two magnitudes on the same side of the middle above one multiple, or on the two inner
  // sides of neighbouring multiples.
  predicate Merge(m: nat, n: nat)
    requires m < n
  {
    || (Below(m) == Below(n) && PastMiddle(m) == PastMiddle(n))
    || (Below(m) + Step(m) == Below(n) && PastMiddle(m) && !PastMiddle(n))
  }

  lemma RoundedFromBelow(m: nat)
    ensures RoundTo(m, Step(m)) == Below(m) + if PastMiddle(m) then Step(m) else 0
  {
  }

  // The multiples below two magnitudes in order are the same or a step apart.
  lemma BelowInOrder(m: nat, n: nat)
    requires m < n
    ensures Step(m) <= Step(n)
    ensures (Below(m) == Below(n) && Step(m) == Step(n)) || Below(m) + Step(m) <= Below(n)
  {
    var s, t := Step(m), Step(n);
    StepMonotone(m, n);
    if s == t {
      Neighbours(m, n, s);
    } else {
      hide Step;
      StepRange(m);
      StepRange(n);
      Floor(m, s);
      Floor(n, t);
      StepsApart(m / s, s, n / t, t);
    }
  }

  // A multiple of one step and the next lie below those of any greater step.
  lemma StepsApart(q: nat, s: nat, p: nat, t: nat)
    requires q < SIGNIFICANDS && SIGNIFICANDS / 2 <= p && 2 * s <= t
    ensures q * s + s <= p * t
  {
    MultiplesInOrder(q, SIGNIFICANDS, s);
    MultiplesInOrder(SIGNIFICANDS / 2, p, t);
  }

  lemma MergeIff(m: nat, n: nat)
    requires m < n
    ensures RoundTo(m, Step(m)) == RoundTo(n, Step(n)) <==> Merge(m, n)
  {
    hide Step, RoundTo, PastMiddle;
    BelowInOrder(m, n);
    RoundedFromBelow(m);
    RoundedFromBelow(n);
  }

  function Least(m: nat, n: nat): nat {
    if m < n then m else n
  }

  function Greatest(m: nat, n: nat): nat {
    if m < n then n else m
  }

  // Different integers of one sign whose magnitudes merge.
  predicate Confused(a: int, b: int) {
    && a != b
    && ((a >= 0 && b >= 0 && Merge(Least(a, b), Greatest(a, b)))
        || (a < 0 && b < 0 && Merge(Least(-a, -b), Greatest(-a, -b))))
  }

  lemma ConfusedIff(a: int, b: int)
    ensures Confused(a, b) <==> a != b && Round(a) == Round(b)
  {
    hide Step, RoundTo, Merge;
    if a >= 0 && b >= 0 && a != b {
      MergeIff(Least(a, b), Greatest(a, b));
    } else if a < 0 && b < 0 && a != b {
      MergeIff(Least(-a, -b), Greatest(-a, -b));
    } else if a < 0 <= b {
      OppositeSigns(a, b);
    } else if b < 0 <= a {
      OppositeSigns(b, a);
    }
  }

  lemma OppositeSigns(a: int, b: int)
    requires a < 0 <= b
    ensures Round(a) < Round(b)
  {
    RoundIsExact(-1);
    RoundIsExact(0);
    RoundIsMonotone(a, -1);
    RoundIsMonotone(0, b);
  }

  /** Without converting anything: the comparison is right exactly unless the integers have
      one sign and their magnitudes lie around the same double, as their steps and the
      multiples below them tell. */
  lemma ComparesRightUnless(a: I64, b: I64)
    ensures (forall op :: CompareViaFloat(op, a, b) == Compare(op, a, b)) <==> !Confused(a, b)
  {
    hide Confused;
    ComparesRightIff(a, b);
    ConfusedIff(a, b);
  }

  /** So it is right up to 2^53 in magnitude, and whenever the two are more than 1024 apart. */
  lemma ComparesRight(a: I64, b: I64)
    requires (-SIGNIFICANDS <= a <= SIGNIFICANDS && -SIGNIFICANDS <= b <= SIGNIFICANDS) || Distance(a, b) > 1024
    ensures forall op :: CompareViaFloat(op, a, b) == Compare(op, a, b)
  {
    ComparesRightIff(a, b);
    if Distance(a, b) > 1024 {
      ErrorIsSmall(a);
      ErrorIsSmall(b);
    } else {
      RoundIsExact(a);
      RoundIsExact(b);
    }
  }

  lemma ErrorIsSmall(n: I64)
    ensures Distance(n, Round(n)) <= 512
  {
    var i: int := n;
    var m: nat := if i >= 0 then i else -i;
    HalfStep(m, Step(m));
    PowersUpTo();
    if m == 0x8000_0000_0000_0000 {
      MinimumIsExact();
    } else {
      StepAtMost(m, 10);
    }
  }

  lemma MinimumIsExact()
    ensures RoundTo(0x8000_0000_0000_0000, Step(0x8000_0000_0000_0000)) == 0x8000_0000_0000_0000
  {
    PowersUpTo();
    StepAt(0x8000_0000_0000_0000, 11);
    HalfStep(0x8000_0000_0000_0000, 2048);
  }

  lemma PowersUpTo()
    ensures Pow2(10) == 1024 && Pow2(11) == 2048
  {
    assert Pow2(2) == 4;
    assert Pow2(4) == 16;
    assert Pow2(6) == 64;
    assert Pow2(8) == 256;
  }

  lemma {:induction false} StepAtMost(m: nat, k: nat)
    requires m < SIGNIFICANDS * Pow2(k)
    ensures Step(m) <= Pow2(k)
  {
    if m >= SIGNIFICANDS && k > 0 {
      StepAtMost(m / 2, k - 1);
    }
  }

  /** Beyond that it is never wrong about `<=` when the integers are in order, nor about a
      strict order it reports. */
  lemma OrderIsKept(a: I64, b: I64)
    ensures a <= b ==> CompareViaFloat(LtEq, a, b)
    ensures CompareViaFloat(Lt, a, b) ==> a < b
  {
    if a <= b {
      RoundIsMonotone(a, b);
    } else {
      RoundIsMonotone(b, a);
    }
  }

  /** 2^53 and 2^53 + 1 compare equal. */
  lemma FirstWrongPair()
    ensures CompareViaFloat(Eq, SIGNIFICANDS, SIGNIFICANDS + 1) && !Compare(Eq, SIGNIFICANDS, SIGNIFICANDS + 1)
  {
    assert Step(SIGNIFICANDS) == 2 * Step(SIGNIFICANDS / 2) == 2;
    assert Step(SIGNIFICANDS + 1) == 2 * Step((SIGNIFICANDS + 1) / 2) == 2;
  }
}
