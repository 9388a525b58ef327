/** Flattening, selecting and permuting sequences. */
module Sequences {

  function Flatten<T>(ss: seq<seq<T>>): seq<T> {
    if ss == [] then [] else ss[0] + Flatten(ss[1..])
  }

  lemma Associative<T>(a: seq<T>, b: seq<T>, c: seq<T>)
    ensures (a + b) + c == a + (b + c)
  {
  }

  lemma {:induction false} FlattenAppend<T>(a: seq<seq<T>>, b: seq<seq<T>>)
    ensures Flatten(a + b) == Flatten(a) + Flatten(b)
  {
    if a == [] {
      assert a + b == b;
    } else {
      assert (a + b)[1..] == a[1..] + b;
      FlattenAppend(a[1..], b);
    }
  }

  lemma FlattenOne<T>(s: seq<T>)
    ensures Flatten([s]) == s
  {
    assert [s][1..] == [];
    assert Flatten([s][1..]) == [];
  }

  lemma FlattenPush<T>(ss: seq<seq<T>>, s: seq<T>)
    ensures Flatten(ss + [s]) == Flatten(ss) + s
  {
    FlattenAppend(ss, [s]);
    FlattenOne(s);
  }

  lemma {:induction false} FlattenNothing<T>(parts: seq<seq<T>>)
    requires forall p :: 0 <= p < |parts| ==> parts[p] == []
    ensures Flatten(parts) == []
  {
    if parts != [] {
      FlattenNothing(parts[1..]);
    }
  }

  lemma {:induction false} FlattenOnly<T>(parts: seq<seq<T>>, i: nat)
    requires i < |parts| && forall p :: 0 <= p < |parts| && p != i ==> parts[p] == []
    ensures Flatten(parts) == parts[i]
  {
    if i == 0 {
      FlattenNothing(parts[1..]);
    } else {
      FlattenOnly(parts[1..], i - 1);
    }
  }

  function Group<T(==)>(s: seq<T>): seq<seq<T>> {
    if s == [] then [] else [s]
  }

  function NonEmpty<T(==)>(ss: seq<seq<T>>): seq<seq<T>> {
    if ss == [] then [] else Group(ss[0]) + NonEmpty(ss[1..])
  }

  // The same, one by one at the end of what there is.
  function CollectNonEmpty<T(==)>(acc: seq<seq<T>>, rest: seq<seq<T>>): seq<seq<T>>
    decreases rest
  {
    if rest == [] then acc else CollectNonEmpty(acc + Group(rest[0]), rest[1..])
  }

  lemma {:induction false} CollectIsNonEmpty<T>(acc: seq<seq<T>>, rest: seq<seq<T>>)
    ensures CollectNonEmpty(acc, rest) == acc + NonEmpty(rest)
    decreases rest
  {
    if rest != [] {
      CollectIsNonEmpty(acc + Group(rest[0]), rest[1..]);
    }
  }

  lemma {:induction false} NonEmptyFlatten<T>(ss: seq<seq<T>>)
    ensures Flatten(NonEmpty(ss)) == Flatten(ss)
  {
    if ss != [] {
      NonEmptyFlatten(ss[1..]);
      if ss[0] != [] {
        assert NonEmpty(ss)[1..] == NonEmpty(ss[1..]);
      } else {
        assert NonEmpty(ss) == NonEmpty(ss[1..]);
      }
    }
  }

  function FlatMap<A, B>(f: A -> seq<B>, s: seq<A>): seq<B> {
    if s == [] then [] else FlatMap(f, s[..|s| - 1]) + f(s[|s| - 1])
  }

  lemma FlatMapPush<A, B>(f: A -> seq<B>, s: seq<A>, x: A)
    ensures FlatMap(f, s + [x]) == FlatMap(f, s) + f(x)
  {
    assert (s + [x])[..|s|] == s;
  }

  lemma {:induction false} FlatMapAppend<A, B>(f: A -> seq<B>, a: seq<A>, b: seq<A>)
    ensures FlatMap(f, a + b) == FlatMap(f, a) + FlatMap(f, b)
  {
    if b == [] {
      assert a + b == a;
    } else {
      assert (a + b)[..|a + b| - 1] == a + b[..|b| - 1];
      FlatMapAppend(f, a, b[..|b| - 1]);
    }
  }

  function Without<T>(s: seq<T>, i: nat): seq<T>
    requires i < |s|
  {
    s[..i] + s[i + 1..]
  }

  lemma WithoutMultiset<T>(s: seq<T>, i: nat)
    requires i < |s|
    ensures multiset(s) == multiset{s[i]} + multiset(Without(s, i))
  {
    assert s == s[..i] + [s[i]] + s[i + 1..];
  }

  // Where a permutation `b` of `a` holds `a`'s last element.
  lemma FindLast<T>(a: seq<T>, b: seq<T>) returns (i: nat)
    requires a != [] && multiset(a) == multiset(b)
    ensures i < |b| && b[i] == a[|a| - 1]
    ensures multiset(a[..|a| - 1]) == multiset(Without(b, i))
  {
    var last := |a| - 1;
    assert Without(a, last) == a[..last];
    WithoutMultiset(a, last);
    assert a[last] in multiset(b);
    i :| 0 <= i < |b| && b[i] == a[last];
    WithoutMultiset(b, i);
    assert multiset(a[..last]) == multiset(a) - multiset{a[last]} == multiset(Without(b, i));
  }

  predicate Distinct<T(==)>(s: seq<T>) {
    forall i, j :: 0 <= i < j < |s| ==> s[i] != s[j]
  }
}
