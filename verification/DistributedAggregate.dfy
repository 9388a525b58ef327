/** A distributed aggregation from end to end: each chunk of the input is aggregated on
    its own, the partial rows go through one shuffle, and a final aggregation merges
    whatever it reads back. */
module DistributedAggregate {
  import opened Results
  import opened Scalars
  import opened Sequences
  import opened Accumulators
  import opened AccumulatorLaws
  import opened HashAggregate
  import opened TwoPhase
  import opened PlannedStages
  import opened Batches
  import opened Shuffle

  // The rows of a chunked input, each chunk cut into batches.
  function ChunkRows(chunks: seq<seq<seq<Row>>>): seq<Row> {
    if chunks == [] then [] else ChunkRows(chunks[..|chunks| - 1]) + Flatten(chunks[|chunks| - 1])
  }

  function Width(q: Query): nat {
    |q.group| + |q.calls|
  }

  lemma {:induction false} KeysAreWide(q: Query, mode: Mode, rows: seq<Row>)
    ensures BuildTable(q, mode, rows).Ok? ==> forall k :: k in BuildTable(q, mode, rows).value ==> |k| == |q.group|
  {
    if rows != [] {
      KeysAreWide(q, mode, rows[..|rows| - 1]);
    }
  }

  /** The operator with its output: one batch holding the emitted rows. */
  method AggregateBatch(q: Query, mode: Mode, batches: seq<seq<Row>>)
    returns (r: Result<RecordBatch>, ghost order: seq<Row>)
    ensures r.Ok? <==> Width(q) > 0 && BuildTable(q, mode, Flatten(batches)).Ok?
    ensures r.Ok? ==> |r.value.columns| == Width(q)
    ensures r.Ok? ==> Valid(r.value) && Lists(order, BuildTable(q, mode, Flatten(batches)).value, Rows(r.value))
  {
    var emitted;
    emitted, order := Execute(q, mode, batches);
    if emitted.Err? {
      return Err(emitted.error), order;
    }
    KeysAreWide(q, mode, Flatten(batches));
    forall row | row in emitted.value ensures |row| == Width(q) {
      var i :| 0 <= i < |emitted.value| && emitted.value[i] == row;
      assert order[i] in BuildTable(q, mode, Flatten(batches)).value;
    }
    r := CreateBatch(emitted.value, Width(q), {});
  }

  // What the partial stage has done after some chunks.
  ghost predicate Partials(q: Query, rs: seq<Reducer>, rows: seq<Row>, partials: seq<RecordBatch>, pieces: seq<Piece>) {
    && AllValid(partials) && AllRows(partials) == PartialRows(pieces)
    && (forall b :: b in partials ==> b.columns != [])
    && ArePieces(q, rs, pieces) && InputRows(pieces) == rows
  }

  lemma PieceAdded(q: Query, rs: seq<Reducer>, pieces: seq<Piece>, p: Piece)
    requires ArePieces(q, rs, pieces) && IsPiece(q, p) && ExactRows(q, rs, p.rows)
    ensures ArePieces(q, rs, pieces + [p])
    ensures InputRows(pieces + [p]) == InputRows(pieces) + p.rows
    ensures PartialRows(pieces + [p]) == PartialRows(pieces) + p.emitted
  {
    assert (pieces + [p])[..|pieces|] == pieces;
  }

  lemma OneMorePiece(q: Query, rs: seq<Reducer>, before: seq<Row>, partials: seq<RecordBatch>, pieces: seq<Piece>,
                     b: RecordBatch, p: Piece)
    requires Partials(q, rs, before, partials, pieces)
    requires Valid(b) && b.columns != [] && Rows(b) == p.emitted && IsPiece(q, p) && ExactRows(q, rs, p.rows)
    ensures Partials(q, rs, before + p.rows, partials + [b], pieces + [p])
  {
    PieceAdded(q, rs, pieces, p);
    assert (partials + [b])[..|partials|] == partials;
  }

  method AggregateChunk(q: Query, chunk: seq<seq<Row>>, ghost rs: seq<Reducer>, ghost before: seq<Row>,
                        ghost after: seq<Row>)
    returns (r: Result<RecordBatch>, ghost piece: Piece)
    requires Width(q) > 0 && AllReduce(q, rs) && ExactRows(q, rs, before + Flatten(chunk) + after)
    ensures r.Err? ==> BuildTable(q, Single, before + Flatten(chunk) + after).Err?
    ensures r.Ok? ==> Valid(r.value) && r.value.columns != [] && Rows(r.value) == piece.emitted
    ensures r.Ok? ==> piece.rows == Flatten(chunk) && IsPiece(q, piece) && ExactRows(q, rs, piece.rows)
  {
    ghost var rows := Flatten(chunk);
    ghost var order;
    r, order := AggregateBatch(q, Partial, chunk);
    piece := Piece(rows, map[], order, []);
    if r.Err? {
      PieceFailureIsFailure(q, rs, before, rows, after);
    } else {
      piece := Piece(rows, BuildTable(q, Partial, rows).value, order, Rows(r.value));
      forall row | row in rows ensures ExactRow(q, rs, row) {
        assert row in before + rows + after;
      }
    }
  }

  // The partial stage: one batch per chunk.
  method AggregateChunks(q: Query, chunks: seq<seq<seq<Row>>>, ghost rs: seq<Reducer>)
    returns (r: Result<seq<RecordBatch>>, ghost pieces: seq<Piece>)
    requires Width(q) > 0 && AllReduce(q, rs) && ExactRows(q, rs, ChunkRows(chunks))
    ensures r.Err? ==> BuildTable(q, Single, ChunkRows(chunks)).Err?
    ensures r.Ok? ==> Partials(q, rs, ChunkRows(chunks), r.value, pieces)
  {
    var partials := [];
    pieces := [];
    for c := 0 to |chunks|
      invariant Partials(q, rs, ChunkRows(chunks[..c]), partials, pieces)
    {
      ghost var before := ChunkRows(chunks[..c]);
      assert chunks[..c + 1][..c] == chunks[..c];
      ghost var after := RowsSplit(chunks, c);
      var partial, piece := AggregateChunk(q, chunks[c], rs, before, after);
      if partial.Err? {
        return Err(partial.error), pieces;
      }
      OneMorePiece(q, rs, before, partials, pieces, partial.value, piece);
      partials, pieces := partials + [partial.value], pieces + [piece];
    }
    assert chunks[..|chunks|] == chunks;
    return Ok(partials), pieces;
  }

  lemma {:induction false} RowsSplit(chunks: seq<seq<seq<Row>>>, c: nat) returns (after: seq<Row>)
    requires c < |chunks|
    ensures ChunkRows(chunks) == ChunkRows(chunks[..c]) + Flatten(chunks[c]) + after
  {
    var last := |chunks| - 1;
    if c == last {
      after := [];
    } else {
      after := RowsSplit(chunks[..last], c);
      assert chunks[..last][..c] == chunks[..c];
      after := after + Flatten(chunks[last]);
    }
  }

  /** The distributed aggregation is the single-node one. However the input is chunked
      and batched, with any hash function, any partitioning expressions and any positive
      number of partitions, it fails exactly when aggregating everything at once fails,
      and otherwise lists the same groups with the same values. */
  method AggregateDistributed(q: Query, f: Query, chunks: seq<seq<seq<Row>>>, pt: Partitioning, w: Writer,
                              manager: ShuffleManager, ghost rs: seq<Reducer>)
    returns (r: Result<RecordBatch>, ghost order: seq<Row>)
    requires AlwaysMerges(q, f, rs) && Width(q) == Width(f) > 0 && pt.count > 0
    requires ExactRows(q, rs, ChunkRows(chunks))
    modifies manager
    ensures r.Ok? <==> BuildTable(q, Single, ChunkRows(chunks)).Ok?
    ensures r.Ok? ==> Valid(r.value) && Lists(order, BuildTable(q, Single, ChunkRows(chunks)).value, Rows(r.value))
  {
    var partials, pieces := AggregateChunks(q, chunks, rs);
    if partials.Err? {
      return Err(partials.error), [];
    }
    var shuffled := WriteThenRead(pt, partials.value, w, manager);
    assert shuffled.Ok?;
    assert Shuffled(pieces, AllRows(shuffled.value));
    BatchRowsFlatten(shuffled.value);
    r, order := AggregateBatch(f, Final, BatchRows(shuffled.value));
  }

  /** The planner hands both stages one query. Over plain columns that works whenever each
      column finds on a partial row what it found on the input, and only then on every input. */
  method AggregatePlanned(floats: FloatOps, cs: Columns, chunks: seq<seq<seq<Row>>>, pt: Partitioning, w: Writer,
                          manager: ShuffleManager)
    returns (r: Result<RecordBatch>, ghost order: seq<Row>)
    requires Fits(cs) && Serves(cs) && |cs.group| + |cs.kinds| > 0 && pt.count > 0
    requires ExactRows(QueryOf(floats, cs), Reducers(floats, cs.kinds), ChunkRows(chunks))
    modifies manager
    ensures var single := BuildTable(QueryOf(floats, cs), Single, ChunkRows(chunks));
            (r.Ok? <==> single.Ok?) && (r.Ok? ==> Valid(r.value) && Lists(order, single.value, Rows(r.value)))
  {
    var q := QueryOf(floats, cs);
    OneQueryServesBoth(floats, cs);
    r, order := AggregateDistributed(q, q, chunks, pt, w, manager, Reducers(floats, cs.kinds));
  }
}
