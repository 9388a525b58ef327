/** SUM, MIN and MAX over floating point numbers, whose addition and order are parameters. */
module FloatReducers {
  import opened Results
  import opened Scalars
  import opened Accumulators

  // Floats of one width, or nulls.
  predicate OneWidth(values: seq<ScalarValue>) {
    (forall v :: v in values ==> v.Null? || v.Float32?) || (forall v :: v in values ==> v.Null? || v.Float64?)
  }

  // The values that are not null, in order.
  function Present(values: seq<ScalarValue>): seq<ScalarValue> {
    if values == [] then []
    else
      Present(values[..|values| - 1]) + if values[|values| - 1].Null? then [] else [values[|values| - 1]]
  }

  function FloatPlus(f: FloatOps, a: ScalarValue, b: ScalarValue): ScalarValue {
    if a.Float32? && b.Float32? then Float32(f.add32(a.bits32, b.bits32))
    else if a.Float64? && b.Float64? then Float64(f.add64(a.bits64, b.bits64))
    else Null
  }

  // The first value plus the second, plus the third, and so on.
  function AddedUp(f: FloatOps, xs: seq<ScalarValue>): ScalarValue {
    if xs == [] then Null
    else if |xs| == 1 then xs[0]
    else FloatPlus(f, AddedUp(f, xs[..|xs| - 1]), xs[|xs| - 1])
  }

  lemma {:induction false} PresentInside(values: seq<ScalarValue>, v: ScalarValue)
    ensures v in Present(values) <==> v in values && !v.Null?
  {
    if values != [] {
      var front, last := values[..|values| - 1], values[|values| - 1];
      assert values == front + [last];
      PresentInside(front, v);
    }
  }

  lemma {:induction false} AddedUpIsFloat(f: FloatOps, xs: seq<ScalarValue>)
    requires xs != []
    ensures (forall x :: x in xs ==> x.Float32?) ==> AddedUp(f, xs).Float32?
    ensures (forall x :: x in xs ==> x.Float64?) ==> AddedUp(f, xs).Float64?
  {
    if |xs| > 1 {
      AddedUpIsFloat(f, xs[..|xs| - 1]);
    }
  }

  lemma SumOfMore(r: Reducer, xs: seq<ScalarValue>, v: ScalarValue)
    requires r.kind == Sum && !v.Null? && OneWidth(xs + [v]) && forall x :: x in xs ==> !x.Null?
    ensures Accumulate(r, AddedUp(r.floats, xs), v) == Ok(AddedUp(r.floats, xs + [v]))
  {
    assert (xs + [v])[..|xs|] == xs && v in xs + [v];
    if xs != [] {
      assert forall x :: x in xs ==> x in xs + [v];
      AddedUpIsFloat(r.floats, xs);
    }
  }

  /** SUM adds the floats up in input order, nulls left out, and never fails. */
  lemma {:induction false} FloatSum(r: Reducer, values: seq<ScalarValue>)
    requires r.kind == Sum && OneWidth(values)
    ensures Fold(r, values) == Ok(AddedUp(r.floats, Present(values)))
  {
    if values != [] {
      hide AddedUp, ScalarAdd, FloatPlus;
      var front, last := values[..|values| - 1], values[|values| - 1];
      FloatSum(r, front);
      if !last.Null? {
        forall x ensures x in Present(front) <==> x in front && !x.Null? {
          PresentInside(front, x);
        }
        assert forall x :: x in Present(front) + [last] ==> x in values;
        SumOfMore(r, Present(front), last);
      } else {
        assert Present(front) + [] == Present(front);
      }
    } else {
      NothingAddedUp(r.floats);
    }
  }

  lemma NothingAddedUp(f: FloatOps)
    ensures AddedUp(f, []) == Null
  {
  }

  // ---------------------------------------------------------------- MIN and MAX

  predicate FloatBelow(f: FloatOps, a: ScalarValue, b: ScalarValue) {
    (a.Float32? && b.Float32? && f.less32(a.bits32, b.bits32))
    || (a.Float64? && b.Float64? && f.less64(a.bits64, b.bits64))
  }

  // The order puts any two of the values one way at most, and what lies in between does so
  // for both: so it is when none is NaN.
  ghost predicate Ordered(f: FloatOps, values: seq<ScalarValue>) {
    && (forall a, b :: a in values && b in values && FloatBelow(f, a, b) ==> !FloatBelow(f, b, a))
    && (forall a, b, c :: a in values && b in values && c in values && FloatBelow(f, a, c) ==>
          FloatBelow(f, a, b) || FloatBelow(f, b, c))
  }

  // One of the values that no other is below, or above.
  ghost predicate IsFloatExtreme(r: Reducer, xs: seq<ScalarValue>, v: ScalarValue) {
    && v in xs
    && (r.kind == Min ==> forall x :: x in xs ==> !FloatBelow(r.floats, x, v))
    && (r.kind == Max ==> forall x :: x in xs ==> !FloatBelow(r.floats, v, x))
  }

  /** MIN, or MAX, of floats in an order is one of them that no other is below, or above. */
  lemma {:induction false} FloatExtreme(r: Reducer, values: seq<ScalarValue>)
    requires (r.kind == Min || r.kind == Max) && OneWidth(values) && Ordered(r.floats, values)
    ensures Fold(r, values).Ok?
    ensures var v, xs := Fold(r, values).value, Present(values);
            if xs == [] then v == Null else IsFloatExtreme(r, xs, v)
  {
    if values != [] {
      var front, last := values[..|values| - 1], values[|values| - 1];
      FloatExtreme(r, front);
      if !last.Null? {
        forall x ensures x in Present(front) <==> x in front && !x.Null? {
          PresentInside(front, x);
        }
        ExtremeOfMore(r, values, Present(front), Fold(r, front).value, last);
      }
    }
  }

  lemma ExtremeOfMore(r: Reducer, values: seq<ScalarValue>, xs: seq<ScalarValue>, s: ScalarValue, v: ScalarValue)
    requires (r.kind == Min || r.kind == Max) && OneWidth(values) && Ordered(r.floats, values)
    requires v in values && !v.Null? && forall x :: x in xs ==> x in values && !x.Null?
    requires if xs == [] then s == Null else IsFloatExtreme(r, xs, s)
    ensures Accumulate(r, s, v).Ok? && IsFloatExtreme(r, xs + [v], Accumulate(r, s, v).value)
  {
    if xs == [] {
      assert v in values;
    } else {
      assert s in values;
      forall x | x in xs + [v] ensures x in values && (x in xs || x == v) {
      }
    }
  }
}
