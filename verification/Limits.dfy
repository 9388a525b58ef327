/** Skipping and fetching rows of a batched stream, pulling no more of it than needed. */
module Limits {
  import opened Results
  import opened Sequences

  // A stream yields batches, then ends or fails.
  datatype Stream<T> = Stream(batches: seq<seq<T>>, error: Option<Error>)

  const USIZE_MAX := 0xFFFF_FFFF_FFFF_FFFF

  function Take<T>(rows: seq<T>, n: nat): seq<T> {
    if n < |rows| then rows[..n] else rows
  }

  function Drop<T>(rows: seq<T>, n: nat): seq<T> {
    if n < |rows| then rows[n..] else []
  }

  // All a stream's rows, and how it ends.
  datatype Outcome<T> = Outcome(rows: seq<T>, error: Option<Error>)

  function OutcomeOf<T>(s: Stream<T>): Outcome<T> {
    Outcome(Flatten(s.batches), s.error)
  }

  // At most `m` rows; the end of the input is seen only when there are fewer.
  function Fetched<T>(o: Outcome<T>, m: nat): Outcome<T> {
    Outcome(Take(o.rows, m), if m > |o.rows| then o.error else None)
  }

  // The rows from `skip` on, at most `n` of them; the end is seen only when it is reached.
  function Limited<T>(o: Outcome<T>, skip: nat, n: nat): Outcome<T> {
    Outcome(Take(Drop(o.rows, skip), n), if n > 0 && skip + n > |o.rows| then o.error else None)
  }

  function FetchOr(fetch: Option<nat>): nat {
    if fetch.Some? then fetch.value else USIZE_MAX
  }

  // How many of the first `p` batches' rows there are.
  function RowCount<T>(s: Stream<T>, p: nat): nat {
    |Flatten(s.batches[..if p < |s.batches| then p else |s.batches|])|
  }

  // ---------------------------------------------------------------- the loops

  // What is still to be emitted when `skip` and `remaining` are left over `rest`.
  function ToCome<T>(rest: seq<seq<T>>, skip: nat, remaining: nat): seq<T> {
    Take(Drop(Flatten(rest), skip), remaining)
  }

  lemma SkipWhole<T>(batch: seq<T>, rest: seq<T>, skip: nat, n: nat)
    requires skip >= |batch|
    ensures Take(Drop(batch + rest, skip), n) == Take(Drop(rest, skip - |batch|), n)
  {
    if skip < |batch + rest| {
      assert (batch + rest)[skip..] == rest[skip - |batch|..];
    }
  }

  lemma SkipPart<T>(batch: seq<T>, rest: seq<T>, skip: nat, n: nat)
    requires skip < |batch|
    ensures Take(Drop(batch + rest, skip), n)
            == Take(batch[skip..], n) + Take(rest, if n > |batch| - skip then n - (|batch| - skip) else 0)
  {
    assert (batch + rest)[skip..] == batch[skip..] + rest;
  }

  // The batch with `skip` rows off its head, cut to `remaining`.
  method Slice<T>(batch: seq<T>, skip: nat, remaining: nat) returns (out: seq<T>, left: nat)
    requires skip < |batch| || skip == 0
    ensures out == Take(batch[skip..], remaining)
    ensures left == if remaining > |batch| - skip then remaining - (|batch| - skip) else 0
  {
    var sliced := batch[skip..];
    if |sliced| <= remaining {
      return sliced, remaining - |sliced|;
    }
    return sliced[..remaining], 0;
  }

  /** Skip, then fetch. Over any batching the output's rows are the input's from `skip` on,
      at most `fetch` of them; an error of the input shows only when it was reached.
      `pulls` counts the requests made of the input: each was needed, as the batches before
      it held too few rows, and the last was enough. Without a fetch, all rows from `skip` on
      come out, of any input that can be counted at all. */
  method GlobalLimit<T>(input: Stream<T>, skip: nat, fetch: Option<nat>) returns (out: Stream<T>, pulls: nat)
    ensures OutcomeOf(out) == Limited(OutcomeOf(input), skip, FetchOr(fetch))
    ensures var rows := Flatten(input.batches);
            fetch.None? && |rows| < 0xFFFF_FFFF_FFFF_FFFF ==>
              OutcomeOf(out) == Outcome(if skip < |rows| then rows[skip..] else [], input.error)
    ensures pulls <= |input.batches| + 1
    ensures forall p :: 0 <= p < pulls ==> RowCount(input, p) < skip + FetchOr(fetch)
    ensures pulls <= |input.batches| ==> FetchOr(fetch) == 0 || RowCount(input, pulls) >= skip + FetchOr(fetch)
  {
    hide Flatten, ToCome, RowCount;
    var n := FetchOr(fetch);
    var toSkip: nat, remaining: nat := skip, n;
    var batches: seq<seq<T>> := [];
    pulls := 0;
    ghost var rest, target := input.batches, Take(Drop(Flatten(input.batches), skip), n);
    AllPulled(input);
    AllToCome(input.batches, skip, n);
    while remaining > 0
      invariant pulls <= |input.batches| && rest == input.batches[pulls..]
      invariant Flatten(batches) + ToCome(rest, toSkip, remaining) == target
      invariant remaining > 0 ==> RowCount(input, pulls) + toSkip + remaining == skip + n
      invariant remaining == 0 ==> n == 0 || RowCount(input, pulls) >= skip + n
      invariant remaining <= n && forall p :: 0 <= p < pulls ==> RowCount(input, p) < skip + n
      decreases |input.batches| - pulls
    {
      if pulls == |input.batches| {
        NoneToCome(rest, toSkip, remaining);
        pulls := pulls + 1;
        return Stream(batches, input.error), pulls;
      }
      var batch := input.batches[pulls];
      CountNext(input, pulls);
      pulls := pulls + 1;
      if toSkip > 0 && toSkip >= |batch| {
        SkipFirst(rest, toSkip, remaining);
        toSkip := toSkip - |batch|;
        rest := rest[1..];
        continue;
      }
      var emitted, left := Slice(batch, toSkip, remaining);
      EmitFirst(batches, rest, toSkip, remaining, left);
      batches := batches + [emitted];
      toSkip, remaining := 0, left;
      rest := rest[1..];
    }
    NoneToCome(rest, toSkip, 0);
    CountedSoFar(input, pulls);
    return Stream(batches, None), pulls;
  }

  lemma AllToCome<T>(all: seq<seq<T>>, skip: nat, n: nat)
    ensures Flatten<T>([]) + ToCome(all, skip, n) == Take(Drop(Flatten(all), skip), n)
  {
  }

  lemma NoneToCome<T>(rest: seq<seq<T>>, skip: nat, n: nat)
    requires rest == [] || n == 0
    ensures ToCome(rest, skip, n) == []
  {
  }

  lemma SkipFirst<T>(rest: seq<seq<T>>, skip: nat, n: nat)
    requires rest != [] && skip >= |rest[0]|
    ensures ToCome(rest, skip, n) == ToCome(rest[1..], skip - |rest[0]|, n)
  {
    SkipWhole(rest[0], Flatten(rest[1..]), skip, n);
  }

  lemma EmitFirst<T>(batches: seq<seq<T>>, rest: seq<seq<T>>, skip: nat, n: nat, left: nat)
    requires rest != [] && (skip < |rest[0]| || skip == 0)
    requires left == if n > |rest[0]| - skip then n - (|rest[0]| - skip) else 0
    ensures Flatten(batches) + ToCome(rest, skip, n)
            == Flatten(batches + [Take(rest[0][skip..], n)]) + ToCome(rest[1..], 0, left)
  {
    var emitted := Take(rest[0][skip..], n);
    EmitStep(rest[0], Flatten(rest[1..]), skip, n);
    FlattenPush(batches, emitted);
    Associative(Flatten(batches), emitted, ToCome(rest[1..], 0, left));
  }

  lemma AllPulled<T>(s: Stream<T>)
    ensures RowCount(s, |s.batches|) == |Flatten(s.batches)| && RowCount(s, 0) == 0
  {
    assert s.batches[..|s.batches|] == s.batches && s.batches[..0] == [];
  }

  lemma CountedSoFar<T>(s: Stream<T>, p: nat)
    requires p <= |s.batches|
    ensures RowCount(s, p) <= |Flatten(s.batches)|
  {
    FlattenAppend(s.batches[..p], s.batches[p..]);
    assert s.batches == s.batches[..p] + s.batches[p..];
  }

  lemma EmitStep<T>(batch: seq<T>, rest: seq<T>, skip: nat, n: nat)
    requires skip < |batch| || skip == 0
    ensures Take(Drop(batch + rest, skip), n)
            == Take(batch[skip..], n) + Take(Drop(rest, 0), if n > |batch| - skip then n - (|batch| - skip) else 0)
  {
    if skip < |batch| {
      SkipPart(batch, rest, skip, n);
    } else {
      assert batch + rest == rest;
    }
    assert Drop(rest, 0) == rest;
  }

  lemma CountNext<T>(s: Stream<T>, p: nat)
    requires p < |s.batches|
    ensures RowCount(s, p + 1) == RowCount(s, p) + |s.batches[p]|
  {
    assert s.batches[..p + 1] == s.batches[..p] + [s.batches[p]];
    FlattenPush(s.batches[..p], s.batches[p]);
  }

  /** The per-partition limit: at most `fetch` rows. */
  method LocalLimit<T>(input: Stream<T>, fetch: nat) returns (out: Stream<T>)
    ensures OutcomeOf(out) == Fetched(OutcomeOf(input), fetch)
  {
    hide Flatten, ToCome, RowCount;
    var remaining: nat := fetch;
    var batches: seq<seq<T>> := [];
    var i := 0;
    ghost var rest := input.batches;
    AllPulled(input);
    AllToCome(input.batches, 0, fetch);
    DropNothing(Flatten(input.batches));
    while remaining > 0
      invariant i <= |input.batches| && rest == input.batches[i..]
      invariant Flatten(batches) + ToCome(rest, 0, remaining) == Take(Flatten(input.batches), fetch)
      invariant remaining > 0 ==> RowCount(input, i) + remaining == fetch
      invariant remaining == 0 ==> RowCount(input, i) >= fetch
      decreases |input.batches| - i
    {
      if i == |input.batches| {
        NoneToCome(rest, 0, remaining);
        return Stream(batches, input.error);
      }
      var batch := input.batches[i];
      CountNext(input, i);
      var emitted, left := Slice(batch, 0, remaining);
      EmitFirst(batches, rest, 0, remaining, left);
      batches := batches + [emitted];
      remaining := left;
      rest := rest[1..];
      i := i + 1;
    }
    NoneToCome(rest, 0, 0);
    CountedSoFar(input, i);
    return Stream(batches, None);
  }

  lemma DropNothing<T>(rows: seq<T>)
    ensures Drop(rows, 0) == rows
  {
  }

  // ---------------------------------------------------------------- limits below a merge

  // Partitions one after the other, up to the first that fails.
  function Merge<T>(parts: seq<Outcome<T>>): Outcome<T> {
    if parts == [] then Outcome([], None)
    else if parts[0].error.Some? then parts[0]
    else Outcome(parts[0].rows + Merge(parts[1..]).rows, Merge(parts[1..]).error)
  }

  function FetchedEach<T>(parts: seq<Outcome<T>>, m: nat): (out: seq<Outcome<T>>)
    ensures |out| == |parts|
  {
    if parts == [] then [] else [Fetched(parts[0], m)] + FetchedEach(parts[1..], m)
  }

  // A limit looks at no more than its first skip + n rows.
  lemma LimitOfFetched<T>(o: Outcome<T>, skip: nat, n: nat)
    ensures Limited(Fetched(o, skip + n), skip, n) == Limited(o, skip, n)
  {
  }

  lemma FetchedAfter<T>(a: seq<T>, x: Outcome<T>, y: Outcome<T>, m: nat)
    requires |a| < m && Fetched(x, m) == Fetched(y, m)
    ensures Fetched(Outcome(a + x.rows, x.error), m) == Fetched(Outcome(a + y.rows, y.error), m)
  {
    var k := m - |a|;
    assert Take(x.rows, k) == Take(Take(x.rows, m), k);
    assert Take(y.rows, k) == Take(Take(y.rows, m), k);
    assert Take(a + x.rows, m) == a + Take(x.rows, k);
    assert Take(a + y.rows, m) == a + Take(y.rows, k);
  }

  lemma {:induction false} FetchBelowMerge<T>(parts: seq<Outcome<T>>, m: nat)
    ensures Fetched(Merge(FetchedEach(parts, m)), m) == Fetched(Merge(parts), m)
  {
    if parts != [] {
      var first := parts[0];
      var fetched := FetchedEach(parts, m);
      assert fetched[0] == Fetched(first, m) && fetched[1..] == FetchedEach(parts[1..], m);
      FetchBelowMerge(parts[1..], m);
      if |first.rows| < m {
        assert fetched[0] == first;
        if first.error.None? {
          FetchedAfter(first.rows, Merge(fetched[1..]), Merge(parts[1..]), m);
        }
      } else {
        EnoughInFirst(first, Merge(parts[1..]), m);
        EnoughInFirst(fetched[0], Merge(fetched[1..]), m);
      }
    }
  }

  lemma EnoughInFirst<T>(first: Outcome<T>, rest: Outcome<T>, m: nat)
    requires |first.rows| >= m
    ensures Fetched(first, m) == Outcome(first.rows[..m], None)
    ensures Fetched(Outcome(first.rows + rest.rows, rest.error), m) == Outcome(first.rows[..m], None)
  {
    assert (first.rows + rest.rows)[..m] == first.rows[..m];
    assert Take(first.rows, m) == first.rows[..m];
  }

  /** A local limit of skip + n on every partition, before an in-order merge, changes
      neither the rows nor the outcome of the global limit above it. */
  lemma LocalLimitsAreInvisible<T>(parts: seq<Outcome<T>>, skip: nat, n: nat)
    ensures Limited(Merge(FetchedEach(parts, skip + n)), skip, n) == Limited(Merge(parts), skip, n)
  {
    FetchBelowMerge(parts, skip + n);
    LimitOfFetched(Merge(parts), skip, n);
    LimitOfFetched(Merge(FetchedEach(parts, skip + n)), skip, n);
  }
}
