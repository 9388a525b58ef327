/** The shuffle: rows are hash-partitioned by key into a store, and read back through
    the locations the writer reports. */
module Shuffle {
  import opened Results
  import opened Scalars
  import opened Sequences
  import opened Batches
  import opened HashAggregate

  // The hasher is an unknown function of the words fed to it.
  type Hasher = seq<int> -> U64

  // How rows are spread: the key expressions, the hasher and the number of partitions.
  datatype Partitioning = Partitioning(hash: Hasher, exprs: seq<RowExpr>, count: nat)

  datatype ShuffleId = ShuffleId(job: string, stage: int, partition: int)

  datatype Executor = Executor(id: string, host: string, port: int)

  datatype ShuffleLocation = ShuffleLocation(id: ShuffleId, executor: Executor)

  // ---------------------------------------------------------------- where rows go

  function Target(pt: Partitioning, row: Row): (p: nat)
    requires pt.count > 0
    ensures p < pt.count
  {
    pt.hash(KeyWords(CellsOf(pt.exprs, row))) % pt.count
  }

  // The rows of partition `p`, in input order.
  function PartitionRows(pt: Partitioning, rows: seq<Row>, p: nat): seq<Row>
    requires pt.count > 0
  {
    if rows == [] then []
    else
      PartitionRows(pt, rows[..|rows| - 1], p)
      + (if Target(pt, rows[|rows| - 1]) == p then [rows[|rows| - 1]] else [])
  }

  function PartitionsOf(pt: Partitioning, rows: seq<Row>): (parts: seq<seq<Row>>)
    ensures |parts| == pt.count
    ensures forall p :: 0 <= p < pt.count ==> parts[p] == PartitionRows(pt, rows, p)
  {
    seq(pt.count, p requires 0 <= p < pt.count => PartitionRows(pt, rows, p))
  }

  lemma {:induction false} PartitionRowsAppend(pt: Partitioning, a: seq<Row>, b: seq<Row>, p: nat)
    requires pt.count > 0
    ensures PartitionRows(pt, a + b, p)
            == PartitionRows(pt, a, p) + PartitionRows(pt, b, p)
  {
    if b == [] {
      assert a + b == a;
    } else {
      assert (a + b)[..|a + b| - 1] == a + b[..|b| - 1];
      PartitionRowsAppend(pt, a, b[..|b| - 1], p);
    }
  }

  // A row added to one part is gained once by all parts together.
  lemma {:induction false} FlattenGains(before: seq<seq<Row>>, after: seq<seq<Row>>, row: Row, t: int)
    requires |before| == |after|
    requires forall p :: 0 <= p < |before| ==> after[p] == before[p] + Gain(row, p == t)
    ensures multiset(Flatten(after)) == multiset(Flatten(before)) + multiset(Gain(row, 0 <= t < |before|))
  {
    if before != [] {
      forall p | 0 <= p < |before| - 1 ensures after[1..][p] == before[1..][p] + Gain(row, p == t - 1) {
        assert after[p + 1] == before[p + 1] + Gain(row, p + 1 == t);
      }
      FlattenGains(before[1..], after[1..], row, t - 1);
      assert after[0] == before[0] + Gain(row, 0 == t);
    }
  }

  function Gain(row: Row, here: bool): seq<Row> {
    if here then [row] else []
  }

  /** Conservation: the partitions together hold every input row exactly once. */
  lemma {:induction false} PartitionsConserve(pt: Partitioning, rows: seq<Row>)
    requires pt.count > 0
    ensures multiset(Flatten(PartitionsOf(pt, rows))) == multiset(rows)
  {
    if rows == [] {
      FlattenNothing(PartitionsOf(pt, rows));
    } else {
      var front, row := rows[..|rows| - 1], rows[|rows| - 1];
      PartitionsConserve(pt, front);
      assert rows == front + [row];
      FlattenGains(PartitionsOf(pt, front), PartitionsOf(pt, rows), row, Target(pt, row));
    }
  }

  /** Co-location: a partition holds the input rows whose key hashes there and no other,
      so all rows of one key, floats compared by bits, are in one partition. */
  lemma {:induction false} PartitionRowsExactly(pt: Partitioning, rows: seq<Row>, p: nat, row: Row)
    requires pt.count > 0
    ensures multiset(PartitionRows(pt, rows, p))[row]
            == if Target(pt, row) == p then multiset(rows)[row] else 0
  {
    if rows != [] {
      var front, last := rows[..|rows| - 1], rows[|rows| - 1];
      PartitionRowsExactly(pt, front, p, row);
      assert rows == front + [last];
      OneMore(front, last, row);
      if Target(pt, last) == p {
        OneMore(PartitionRows(pt, front, p), last, row);
      }
    }
  }

  lemma OneMore(rows: seq<Row>, last: Row, row: Row)
    ensures multiset(rows + [last])[row] == multiset(rows)[row] + if row == last then 1 else 0
  {
    assert multiset(rows + [last]) == multiset(rows) + multiset{last};
  }

  lemma EqualKeysTogether(pt: Partitioning, rows: seq<Row>, p: nat, a: Row, b: Row)
    requires pt.count > 0 && RowKeyEq(CellsOf(pt.exprs, a), CellsOf(pt.exprs, b))
    requires a in PartitionRows(pt, rows, p) && b in rows
    ensures b in PartitionRows(pt, rows, p)
  {
    RowKeyEqIsIdentity(CellsOf(pt.exprs, a), CellsOf(pt.exprs, b));
    PartitionRowsExactly(pt, rows, p, a);
    PartitionRowsExactly(pt, rows, p, b);
    assert a in multiset(PartitionRows(pt, rows, p));
    assert b in multiset(PartitionRows(pt, rows, p));
  }

  // ---------------------------------------------------------------- the store

  class ShuffleManager {
    var store: map<ShuffleId, seq<RecordBatch>>

    constructor ()
      ensures store == map[]
    {
      store := map[];
    }

    // A file is created, or replaced, unless there is nothing to write.
    method WritePartition(id: ShuffleId, batches: seq<RecordBatch>)
      modifies this
      ensures store == if batches == [] then old(store) else old(store)[id := batches]
    {
      if batches != [] {
        store := store[id := batches];
      }
    }

    method ReadPartition(id: ShuffleId) returns (r: Result<seq<RecordBatch>>)
      ensures r == if id in store then Ok(store[id]) else Err(Execution)
    {
      r := if id in store then Ok(store[id]) else Err(Execution);
    }
  }

  // ---------------------------------------------------------------- the writer

  method ComputeTargets(pt: Partitioning, keyColumns: seq<seq<ScalarValue>>, rowCount: nat)
    returns (r: Result<seq<nat>>)
    requires forall c :: 0 <= c < |keyColumns| ==> |keyColumns[c]| == rowCount
    ensures r.Ok? <==> rowCount == 0 || pt.count > 0
    ensures r.Ok? ==> |r.value| == rowCount
    ensures r.Ok? ==> forall i :: 0 <= i < rowCount ==>
              r.value[i] == pt.hash(KeyWords(CellsAt(keyColumns, i))) % pt.count
  {
    var targets := [];
    for i := 0 to rowCount
      invariant i > 0 ==> pt.count > 0
      invariant |targets| == i
      invariant forall k :: 0 <= k < i ==> targets[k] == pt.hash(KeyWords(CellsAt(keyColumns, k))) % pt.count
    {
      if pt.count == 0 {
        return Err(Panic);
      }
      var key := CellsAt(keyColumns, i);
      targets := targets + [pt.hash(KeyWords(key)) % pt.count];
    }
    return Ok(targets);
  }

  // The first `n` rows that are taken.
  function Picked(rows: seq<Row>, take: seq<bool>): seq<Row>
    requires |take| == |rows|
  {
    if rows == [] then []
    else Picked(rows[..|rows| - 1], take[..|rows| - 1]) + (if take[|rows| - 1] then [rows[|rows| - 1]] else [])
  }

  function PickedCells(column: seq<ScalarValue>, take: seq<bool>): seq<ScalarValue>
    requires |take| == |column|
  {
    if column == [] then []
    else
      PickedCells(column[..|column| - 1], take[..|column| - 1])
      + (if take[|column| - 1] then [column[|column| - 1]] else [])
  }

  lemma {:induction false} PickedByColumn(rows: seq<Row>, column: seq<ScalarValue>, take: seq<bool>, c: nat)
    requires |rows| == |column| == |take|
    requires forall i :: 0 <= i < |rows| ==> c < |rows[i]| && column[i] == rows[i][c]
    ensures |PickedCells(column, take)| == |Picked(rows, take)|
    ensures forall i :: 0 <= i < |Picked(rows, take)| ==>
              c < |Picked(rows, take)[i]| && PickedCells(column, take)[i] == Picked(rows, take)[i][c]
  {
    if rows != [] {
      var last := |rows| - 1;
      PickedByColumn(rows[..last], column[..last], take[..last], c);
    }
  }

  lemma {:induction false} PickedIsPart(rows: seq<Row>, take: seq<bool>)
    requires |rows| == |take|
    ensures forall row :: row in Picked(rows, take) ==> row in rows
  {
    if rows != [] {
      PickedIsPart(rows[..|rows| - 1], take[..|rows| - 1]);
    }
  }

  /** Keeps the taken rows, column by column. */
  method SelectRows(b: RecordBatch, take: seq<bool>) returns (r: Result<RecordBatch>)
    requires Valid(b) && |take| == b.numRows
    ensures r.Ok? <==> b.columns != []
    ensures r.Ok? ==> Valid(r.value) && Rows(r.value) == Picked(Rows(b), take)
  {
    var columns := [];
    for c := 0 to |b.columns|
      invariant |columns| == c
      invariant forall d :: 0 <= d < c ==> columns[d] == PickedCells(b.columns[d], take)
    {
      var builder := [];
      for i := 0 to b.numRows
        invariant builder == PickedCells(b.columns[c][..i], take[..i])
      {
        assert b.columns[c][..i + 1][..i] == b.columns[c][..i] && take[..i + 1][..i] == take[..i];
        if take[i] {
          builder := builder + [b.columns[c][i]];
        }
      }
      assert b.columns[c][..b.numRows] == b.columns[c] && take[..b.numRows] == take;
      columns := columns + [builder];
    }
    var rows := Picked(Rows(b), take);
    PickedIsPart(Rows(b), take);
    forall c | 0 <= c < |columns|
      ensures |columns[c]| == |rows| && forall i :: 0 <= i < |rows| ==> c < |rows[i]| && columns[c][i] == rows[i][c]
    {
      PickedByColumn(Rows(b), b.columns[c], take, c);
    }
    r := Create(|b.columns|, columns);
    forall i | 0 <= i < |rows| ensures |rows[i]| == |b.columns| {
      assert rows[i] in Rows(b);
    }
    if r.Ok? {
      RowsDetermine(r.value, rows);
    }
  }

  // A batch the writer can split.
  predicate Writable(b: RecordBatch, count: nat) {
    b.numRows == 0 || (count > 0 && b.columns != [])
  }

  lemma {:induction false} PickedIsPartition(pt: Partitioning, rows: seq<Row>, take: seq<bool>, p: nat)
    requires pt.count > 0 && |take| == |rows|
    requires forall i :: 0 <= i < |rows| ==> take[i] == (Target(pt, rows[i]) == p)
    ensures Picked(rows, take) == PartitionRows(pt, rows, p)
  {
    if rows != [] {
      PickedIsPartition(pt, rows[..|rows| - 1], take[..|rows| - 1], p);
    }
  }

  lemma {:induction false} PickedSome(rows: seq<Row>, take: seq<bool>)
    requires |take| == |rows|
    ensures Picked(rows, take) != [] <==> true in take
  {
    if rows != [] {
      var last := |rows| - 1;
      PickedSome(rows[..last], take[..last]);
      assert take == take[..last] + [take[last]];
    }
  }

  // A buffer holding exactly the rows of one partition, and empty only when they are.
  ghost predicate Buffered(part: seq<Row>, buffer: seq<RecordBatch>) {
    AllValid(buffer) && AllRows(buffer) == part && (buffer == [] <==> part == [])
  }

  ghost predicate AllBuffered(parts: seq<seq<Row>>, buffers: seq<seq<RecordBatch>>) {
    |buffers| == |parts| && forall p :: 0 <= p < |buffers| ==> Buffered(parts[p], buffers[p])
  }

  // Adds one batch's rows for partition `p` to its buffer, if there are any.
  method PushPart(pt: Partitioning, b: RecordBatch, targets: seq<nat>, p: nat,
                  buffer: seq<RecordBatch>, ghost held: seq<Row>, ghost gained: seq<Row>)
    returns (r: Result<seq<RecordBatch>>)
    requires Valid(b) && pt.count > 0 && |targets| == b.numRows
    requires forall i :: 0 <= i < |targets| ==> targets[i] == Target(pt, Rows(b)[i])
    requires Buffered(held, buffer) && gained == PartitionRows(pt, Rows(b), p)
    ensures r.Ok? <==> b.columns != [] || gained == []
    ensures r.Ok? ==> Buffered(held + gained, r.value)
  {
    var take := seq(|targets|, i requires 0 <= i < |targets| => targets[i] == p);
    PickedIsPartition(pt, Rows(b), take, p);
    PickedSome(Rows(b), take);
    if true in take {
      var part :- SelectRows(b, take);
      assert (buffer + [part])[..|buffer|] == buffer;
      return Ok(buffer + [part]);
    }
    assert held + gained == held;
    return Ok(buffer);
  }

  // Some partition receives a row of a batch that has one.
  lemma SomePartition(pt: Partitioning, rows: seq<Row>)
    requires pt.count > 0 && rows != []
    ensures exists p :: 0 <= p < pt.count && PartitionRows(pt, rows, p) != []
  {
    var t := Target(pt, rows[0]);
    PartitionRowsExactly(pt, rows, t, rows[0]);
    assert rows[0] in multiset(rows);
    assert rows[0] in multiset(PartitionRows(pt, rows, t));
  }

  method SplitBatch(pt: Partitioning, b: RecordBatch, buffers: seq<seq<RecordBatch>>, ghost seen: seq<Row>)
    returns (r: Result<seq<seq<RecordBatch>>>)
    requires Valid(b) && AllBuffered(PartitionsOf(pt, seen), buffers)
    ensures r.Ok? <==> Writable(b, pt.count)
    ensures r.Ok? ==> AllBuffered(PartitionsOf(pt, seen + Rows(b)), r.value)
  {
    var keyColumns := EvaluateColumns(pt.exprs, Rows(b));
    var targets :- ComputeTargets(pt, keyColumns, b.numRows);
    assert pt.count > 0 ==> forall i :: 0 <= i < b.numRows ==> targets[i] == Target(pt, Rows(b)[i]);
    ghost var before, gained := PartitionsOf(pt, seen), PartitionsOf(pt, Rows(b));
    r := PushParts(pt, b, targets, buffers, before, gained);
    if b.numRows > 0 {
      SomePartition(pt, Rows(b));
    }
    forall p | 0 <= p < pt.count ensures PartitionsOf(pt, seen + Rows(b))[p] == before[p] + gained[p] {
      PartitionRowsAppend(pt, seen, Rows(b), p);
    }
  }

  method PushParts(pt: Partitioning, b: RecordBatch, targets: seq<nat>, buffers: seq<seq<RecordBatch>>,
                   ghost held: seq<seq<Row>>, ghost gained: seq<seq<Row>>)
    returns (r: Result<seq<seq<RecordBatch>>>)
    requires Valid(b) && |targets| == b.numRows
    requires pt.count > 0 ==> forall i :: 0 <= i < b.numRows ==> targets[i] == Target(pt, Rows(b)[i])
    requires |held| == pt.count && gained == PartitionsOf(pt, Rows(b)) && AllBuffered(held, buffers)
    ensures r.Ok? <==> b.columns != [] || forall p :: 0 <= p < pt.count ==> gained[p] == []
    ensures r.Ok? ==> |r.value| == pt.count && forall p :: 0 <= p < pt.count ==>
              Buffered(held[p] + gained[p], r.value[p])
  {
    var out := buffers;
    for p := 0 to pt.count
      invariant |out| == pt.count
      invariant forall d :: 0 <= d < p ==> Buffered(held[d] + gained[d], out[d])
      invariant forall d :: p <= d < pt.count ==> out[d] == buffers[d]
      invariant b.columns != [] || forall d :: 0 <= d < p ==> gained[d] == []
    {
      var pushed :- PushPart(pt, b, targets, p, buffers[p], held[p], gained[p]);
      out := out[p := pushed];
    }
    return Ok(out);
  }

  type Store = map<ShuffleId, seq<RecordBatch>>

  ghost predicate Holds(store: Store, id: ShuffleId, rows: seq<Row>) {
    id in store && AllValid(store[id]) && AllRows(store[id]) == rows
  }

  // Who writes: the ids and locations are stamped with it.
  datatype Writer = Writer(job: string, stage: int, executor: Executor)
  {
    function Id(p: nat): ShuffleId {
      ShuffleId(job, stage, p)
    }

    function Location(p: nat): ShuffleLocation {
      ShuffleLocation(Id(p), executor)
    }

    // One location per non-empty partition, in partition order.
    function LocationsFor(parts: seq<seq<Row>>): seq<ShuffleLocation> {
      if parts == [] then []
      else
        LocationsFor(parts[..|parts| - 1])
        + (if parts[|parts| - 1] == [] then [] else [Location(|parts| - 1)])
    }

    // The ids of the non-empty partitions.
    function WrittenIds(parts: seq<seq<Row>>): (ids: set<ShuffleId>)
      ensures forall p :: p >= |parts| ==> Id(p) !in ids
    {
      if parts == [] then {}
      else WrittenIds(parts[..|parts| - 1]) + (if parts[|parts| - 1] == [] then {} else {Id(|parts| - 1)})
    }

    // Every non-empty partition is stored under its own id.
    ghost predicate Stored(parts: seq<seq<Row>>, store: Store) {
      parts == [] ||
      (Stored(parts[..|parts| - 1], store)
       && (parts[|parts| - 1] == [] || Holds(store, Id(|parts| - 1), parts[|parts| - 1])))
    }

    // Nothing but the non-empty partitions of this writer was touched.
    ghost predicate OthersKept(parts: seq<seq<Row>>, before: Store, after: Store) {
      after - WrittenIds(parts) == before - WrittenIds(parts)
    }
  }

  // Writes the next partition, if its buffer holds anything, and reports it.
  method WritePart(buffer: seq<RecordBatch>, w: Writer, manager: ShuffleManager, locations: seq<ShuffleLocation>,
                   p: nat,
                   ghost front: seq<seq<Row>>, ghost part: seq<Row>, ghost first: Store)
    returns (reported: seq<ShuffleLocation>)
    requires Buffered(part, buffer) && p == |front| && locations == w.LocationsFor(front)
    requires w.Stored(front, manager.store) && w.OthersKept(front, first, manager.store)
    modifies manager
    ensures reported == w.LocationsFor(front + [part])
    ensures w.Stored(front + [part], manager.store) && w.OthersKept(front + [part], first, manager.store)
  {
    assert (front + [part])[..p] == front;
    PartStored(w, front, part, manager.store, buffer);
    OthersStayKept(w, front, part, first, manager.store, buffer);
    if buffer != [] {
      manager.WritePartition(w.Id(p), buffer);
      return locations + [w.Location(p)];
    }
    return locations;
  }

  method WriteBuffers(buffers: seq<seq<RecordBatch>>, w: Writer, manager: ShuffleManager, ghost parts: seq<seq<Row>>)
    returns (locations: seq<ShuffleLocation>)
    requires AllBuffered(parts, buffers)
    modifies manager
    ensures locations == w.LocationsFor(parts)
    ensures w.Stored(parts, manager.store) && w.OthersKept(parts, old(manager.store), manager.store)
  {
    locations := [];
    ghost var written := [];
    for p := 0 to |buffers|
      invariant |written| == p && forall i :: 0 <= i < p ==> written[i] == parts[i]
      invariant locations == w.LocationsFor(written)
      invariant w.Stored(written, manager.store) && w.OthersKept(written, old(manager.store), manager.store)
    {
      locations := WritePart(buffers[p], w, manager, locations, p, written, parts[p], old(manager.store));
      written := written + [parts[p]];
    }
    assert written == parts;
  }

  // A later partition's file leaves the earlier ones alone.
  lemma {:induction false} StoredStays(w: Writer, parts: seq<seq<Row>>, store: Store, p: nat, buffer: seq<RecordBatch>)
    requires w.Stored(parts, store) && p >= |parts|
    ensures w.Stored(parts, store[w.Id(p) := buffer])
  {
    if parts != [] {
      StoredStays(w, parts[..|parts| - 1], store, p, buffer);
    }
  }

  lemma PartStored(w: Writer, front: seq<seq<Row>>, part: seq<Row>, store: Store, buffer: seq<RecordBatch>)
    requires Buffered(part, buffer) && w.Stored(front, store)
    ensures w.Stored(front + [part], if buffer == [] then store else store[w.Id(|front|) := buffer])
  {
    assert (front + [part])[..|front|] == front;
    if buffer != [] {
      StoredStays(w, front, store, |front|, buffer);
    }
  }

  lemma OthersStayKept(w: Writer, front: seq<seq<Row>>, part: seq<Row>, first: Store, store: Store,
                       buffer: seq<RecordBatch>)
    requires (buffer == [] <==> part == []) && w.OthersKept(front, first, store)
    ensures w.OthersKept(front + [part], first, if buffer == [] then store else store[w.Id(|front|) := buffer])
  {
    var ids, id := w.WrittenIds(front), w.Id(|front|);
    assert (front + [part])[..|front|] == front;
    if buffer != [] {
      assert store[id := buffer] - (ids + {id}) == (store - ids) - {id};
      assert first - (ids + {id}) == (first - ids) - {id};
    } else {
      assert w.WrittenIds(front + [part]) == ids;
    }
  }

  /** Splits every batch by target partition, then writes and reports the non-empty
      partitions. Nothing is written when it fails. */
  method WriteShuffle(pt: Partitioning, batches: seq<RecordBatch>, w: Writer, manager: ShuffleManager)
    returns (r: Result<seq<ShuffleLocation>>)
    requires AllValid(batches)
    modifies manager
    ensures r.Ok? <==> forall b :: b in batches ==> Writable(b, pt.count)
    ensures r.Err? ==> manager.store == old(manager.store)
    ensures r.Ok? ==> r.value == w.LocationsFor(PartitionsOf(pt, AllRows(batches)))
    ensures r.Ok? ==> w.Stored(PartitionsOf(pt, AllRows(batches)), manager.store)
    ensures w.OthersKept(PartitionsOf(pt, AllRows(batches)), old(manager.store), manager.store)
  {
    var buffers := seq(pt.count, _ => []);
    for i := 0 to |batches|
      invariant manager.store == old(manager.store)
      invariant AllBuffered(PartitionsOf(pt, AllRows(batches[..i])), buffers)
      invariant forall b :: b in batches[..i] ==> Writable(b, pt.count)
    {
      assert batches[..i + 1][..i] == batches[..i];
      assert batches[..i + 1] == batches[..i] + [batches[i]];
      buffers :- SplitBatch(pt, batches[i], buffers, AllRows(batches[..i]));
    }
    assert batches[..|batches|] == batches;
    var locations := WriteBuffers(buffers, w, manager, PartitionsOf(pt, AllRows(batches)));
    return Ok(locations);
  }

  // ---------------------------------------------------------------- the reader

  // The batches behind the locations, in order.
  function BatchesAt(store: Store, locations: seq<ShuffleLocation>): seq<RecordBatch>
    requires forall l :: l in locations ==> l.id in store
  {
    if locations == [] then []
    else BatchesAt(store, locations[..|locations| - 1]) + store[locations[|locations| - 1].id]
  }

  /** Local locations only, all checked before anything is opened; then every partition
      in location order. */
  method ReadShuffle(manager: ShuffleManager, executorId: string, locations: seq<ShuffleLocation>)
    returns (r: Result<seq<RecordBatch>>)
    ensures (exists l :: l in locations && l.executor.id != executorId) ==> r == Err(NotImplemented)
    ensures (forall l :: l in locations ==> l.executor.id == executorId) ==>
              if forall l :: l in locations ==> l.id in manager.store
              then r == Ok(BatchesAt(manager.store, locations)) else r == Err(Execution)
  {
    for i := 0 to |locations|
      invariant forall l :: l in locations[..i] ==> l.executor.id == executorId
    {
      assert locations[..i + 1] == locations[..i] + [locations[i]];
      if locations[i].executor.id != executorId {
        assert locations[i] in locations;
        return Err(NotImplemented);
      }
    }
    assert locations[..|locations|] == locations;
    var batches := [];
    for i := 0 to |locations|
      invariant forall l :: l in locations[..i] ==> l.id in manager.store
      invariant batches == BatchesAt(manager.store, locations[..i])
    {
      assert locations[..i + 1][..i] == locations[..i];
      assert locations[..i + 1] == locations[..i] + [locations[i]];
      var part := manager.ReadPartition(locations[i].id);
      if part.Err? {
        assert locations[i] in locations;
        return Err(part.error);
      }
      batches := batches + part.value;
    }
    return Ok(batches);
  }

  // ---------------------------------------------------------------- the round trip

  lemma AllRowsPush(batches: seq<RecordBatch>, b: RecordBatch)
    requires AllValid(batches) && Valid(b)
    ensures AllRows(batches + [b]) == AllRows(batches) + Rows(b)
  {
    assert (batches + [b])[..|batches|] == batches;
  }

  lemma {:induction false} AllRowsAppend(a: seq<RecordBatch>, b: seq<RecordBatch>)
    requires AllValid(a) && AllValid(b)
    ensures AllRows(a + b) == AllRows(a) + AllRows(b)
  {
    if b == [] {
      assert a + b == a;
    } else {
      hide AllRows, Rows, Valid;
      var front, last := b[..|b| - 1], b[|b| - 1];
      assert a + b == (a + front) + [last] && b == front + [last];
      AllRowsAppend(a, front);
      AllRowsPush(a + front, last);
      AllRowsPush(front, last);
      Associative(AllRows(a), AllRows(front), Rows(last));
    }
  }

  // Reading the locations on their own executor gives the rows.
  ghost predicate ReadsBack(store: Store, executor: Executor, locations: seq<ShuffleLocation>, rows: seq<Row>) {
    && (forall l :: l in locations ==> l.id in store && l.executor == executor)
    && AllValid(BatchesAt(store, locations)) && AllRows(BatchesAt(store, locations)) == rows
  }

  lemma LocationRead(store: Store, front: seq<ShuffleLocation>, l: ShuffleLocation, before: seq<Row>, rows: seq<Row>)
    requires ReadsBack(store, l.executor, front, before) && Holds(store, l.id, rows)
    ensures ReadsBack(store, l.executor, front + [l], before + rows)
  {
    assert (front + [l])[..|front|] == front;
    AllRowsAppend(BatchesAt(store, front), store[l.id]);
  }

  lemma {:induction false} ReadsWhatWasWritten(store: Store, w: Writer, parts: seq<seq<Row>>)
    requires w.Stored(parts, store)
    ensures ReadsBack(store, w.executor, w.LocationsFor(parts), Flatten(parts))
  {
    if parts != [] {
      var front, last := parts[..|parts| - 1], parts[|parts| - 1];
      ReadsWhatWasWritten(store, w, front);
      FlattenPush(front, last);
      assert parts == front + [last];
      if last != [] {
        LocationRead(store, w.LocationsFor(front), w.Location(|front|), Flatten(front), last);
      } else {
        assert Flatten(front) + last == Flatten(front);
        assert w.LocationsFor(parts) == w.LocationsFor(front);
      }
    }
  }

  /** Writing a shuffle and reading the reported locations on the same executor returns
      exactly the written rows: partition after partition, each in input order. */
  method WriteThenRead(pt: Partitioning, batches: seq<RecordBatch>, w: Writer, manager: ShuffleManager)
    returns (r: Result<seq<RecordBatch>>)
    requires AllValid(batches)
    modifies manager
    ensures r.Ok? <==> forall b :: b in batches ==> Writable(b, pt.count)
    ensures r.Ok? ==> AllValid(r.value) && AllRows(r.value) == Flatten(PartitionsOf(pt, AllRows(batches)))
    ensures r.Ok? ==> multiset(AllRows(r.value)) == multiset(AllRows(batches))
  {
    var locations :- WriteShuffle(pt, batches, w, manager);
    ReadsWhatWasWritten(manager.store, w, PartitionsOf(pt, AllRows(batches)));
    if pt.count > 0 {
      PartitionsConserve(pt, AllRows(batches));
    } else {
      NoRows(batches);
    }
    r := ReadShuffle(manager, w.executor.id, locations);
  }

  lemma {:induction false} NoRows(batches: seq<RecordBatch>)
    requires AllValid(batches) && forall b :: b in batches ==> b.numRows == 0
    ensures AllRows(batches) == []
  {
    if batches != [] {
      assert batches[|batches| - 1] in batches;
      NoRows(batches[..|batches| - 1]);
    }
  }
}
