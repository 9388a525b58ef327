/** Record batches: equal-length columns, read row by row. */
module Batches {
  import opened Results
  import opened Scalars
  import opened Sequences

  datatype RecordBatch = RecordBatch(numRows: nat, columns: seq<seq<ScalarValue>>)

  predicate Valid(b: RecordBatch) {
    forall c :: 0 <= c < |b.columns| ==> |b.columns[c]| == b.numRows
  }

  predicate AllValid(batches: seq<RecordBatch>) {
    forall b :: b in batches ==> Valid(b)
  }

  // Batches of one number of columns.
  predicate Shaped(batches: seq<RecordBatch>, width: nat) {
    forall b :: b in batches ==> Valid(b) && |b.columns| == width
  }

  // Every column's cell of one row.
  function RowAt(b: RecordBatch, i: nat): (r: Row)
    requires Valid(b) && i < b.numRows
    ensures |r| == |b.columns| && forall c :: 0 <= c < |r| ==> r[c] == b.columns[c][i]
  {
    seq(|b.columns|, c requires 0 <= c < |b.columns| => b.columns[c][i])
  }

  function FirstRows(b: RecordBatch, n: nat): (rows: seq<Row>)
    requires Valid(b) && n <= b.numRows
    ensures |rows| == n && forall i :: 0 <= i < n ==> rows[i] == RowAt(b, i)
  {
    if n == 0 then [] else FirstRows(b, n - 1) + [RowAt(b, n - 1)]
  }

  function Rows(b: RecordBatch): (rows: seq<Row>)
    requires Valid(b)
    ensures |rows| == b.numRows && forall i :: 0 <= i < |rows| ==> rows[i] == RowAt(b, i)
  {
    FirstRows(b, b.numRows)
  }

  function AllRows(batches: seq<RecordBatch>): seq<Row>
    requires AllValid(batches)
  {
    if batches == [] then [] else AllRows(batches[..|batches| - 1]) + Rows(batches[|batches| - 1])
  }

  // The rows of each batch.
  function BatchRows(batches: seq<RecordBatch>): (rows: seq<seq<Row>>)
    requires AllValid(batches)
    ensures |rows| == |batches|
  {
    if batches == [] then [] else BatchRows(batches[..|batches| - 1]) + [Rows(batches[|batches| - 1])]
  }

  lemma {:induction false} BatchRowsFlatten(batches: seq<RecordBatch>)
    requires AllValid(batches)
    ensures Flatten(BatchRows(batches)) == AllRows(batches)
  {
    if batches != [] {
      var last := |batches| - 1;
      BatchRowsFlatten(batches[..last]);
      FlattenPush(BatchRows(batches[..last]), Rows(batches[last]));
    }
  }

  // Building a batch from finished columns: one per field, at least one, all as long.
  function Create(width: nat, columns: seq<seq<ScalarValue>>): (r: Result<RecordBatch>)
    ensures r.Ok? ==> Valid(r.value) && r.value.columns == columns && |columns| == width > 0
  {
    if |columns| != width || width == 0 then Err(Internal)
    else if exists c :: 0 <= c < |columns| && |columns[c]| != |columns[0]| then Err(Internal)
    else Ok(RecordBatch(|columns[0]|, columns))
  }

  // Required columns are those whose fields are not nullable.
  predicate NullsFit(required: set<nat>, rows: seq<Row>) {
    forall row: Row, c: nat :: row in rows && c in required && c < |row| ==> row[c] != Null
  }

  lemma NullsFitBoth(required: set<nat>, a: seq<Row>, b: seq<Row>)
    ensures NullsFit(required, a + b) <==> NullsFit(required, a) && NullsFit(required, b)
  {
    assert forall row :: row in a + b <==> row in a || row in b;
  }

  // A batch for fields of which some are required: a null among those is refused.
  function CreateFor(required: set<nat>, width: nat, columns: seq<seq<ScalarValue>>): (r: Result<RecordBatch>)
    ensures r.Err? ==> r.error == Internal
  {
    if exists c :: c in required && c < |columns| && Null in columns[c] then Err(Internal) else Create(width, columns)
  }

  // Two batches of one shape are equal when their rows are.
  lemma RowsDetermine(b: RecordBatch, rows: seq<Row>)
    requires Valid(b) && |rows| == b.numRows
    requires forall i :: 0 <= i < |rows| ==> |rows[i]| == |b.columns|
    requires forall i, c :: 0 <= i < |rows| && 0 <= c < |b.columns| ==> b.columns[c][i] == rows[i][c]
    ensures Rows(b) == rows
  {
    forall i | 0 <= i < |rows| ensures Rows(b)[i] == rows[i] {
      assert RowAt(b, i) == rows[i];
    }
  }

  // The cells of column `c` in the rows that reach it.
  function Reached(rows: seq<Row>, c: nat): seq<ScalarValue> {
    if rows == [] then []
    else Reached(rows[..|rows| - 1], c) + if c < |rows[|rows| - 1]| then [rows[|rows| - 1][c]] else []
  }

  lemma {:induction false} ReachedLess(rows: seq<Row>, c: nat, d: nat)
    requires c <= d
    ensures |Reached(rows, d)| <= |Reached(rows, c)|
    ensures |Reached(rows, d)| == |Reached(rows, c)| <==> forall row :: row in rows ==> !(c < |row| <= d)
  {
    if rows != [] {
      var front, last := rows[..|rows| - 1], rows[|rows| - 1];
      assert rows == front + [last];
      ReachedLess(front, c, d);
    }
  }

  // The columns are equally long when every row fills all of them or none.
  lemma EquallyReached(rows: seq<Row>, width: nat)
    requires width > 0 && forall row :: row in rows ==> |row| <= width
    ensures (forall c :: 0 <= c < width ==> |Reached(rows, c)| == |Reached(rows, 0)|)
            <==> forall row :: row in rows ==> row == [] || |row| == width
  {
    ReachedLess(rows, 0, width - 1);
    forall c | 0 <= c < width ensures |Reached(rows, width - 1)| <= |Reached(rows, c)| <= |Reached(rows, 0)| {
      ReachedLess(rows, 0, c);
      ReachedLess(rows, c, width - 1);
    }
  }

  lemma {:induction false} FullColumn(rows: seq<Row>, width: nat, c: nat)
    requires c < width && forall row :: row in rows ==> |row| == width
    ensures |Reached(rows, c)| == |rows|
    ensures forall i :: 0 <= i < |rows| ==> Reached(rows, c)[i] == rows[i][c]
  {
    if rows != [] {
      assert rows[|rows| - 1] in rows;
      FullColumn(rows[..|rows| - 1], width, c);
    }
  }

  lemma {:induction false} ReachedHolds(rows: seq<Row>, c: nat, v: ScalarValue)
    ensures v in Reached(rows, c) <==> exists row :: row in rows && c < |row| && row[c] == v
  {
    if rows != [] {
      var front, last := rows[..|rows| - 1], rows[|rows| - 1];
      assert rows == front + [last];
      ReachedHolds(front, c, v);
    }
  }

  lemma NullsReached(required: set<nat>, rows: seq<Row>, columns: seq<seq<ScalarValue>>)
    requires forall row :: row in rows ==> |row| <= |columns|
    requires forall c :: 0 <= c < |columns| ==> columns[c] == Reached(rows, c)
    ensures NullsFit(required, rows) <==> !exists c :: c in required && c < |columns| && Null in columns[c]
  {
    hide Reached;
    forall c | 0 <= c < |columns|
      ensures Null in columns[c] <==> exists row :: row in rows && c < |row| && row[c] == Null
    {
      ReachedHolds(rows, c, Null);
    }
  }

  // One row's cells, each to its builder.
  method AppendRow(builders: seq<seq<ScalarValue>>, row: Row) returns (out: seq<seq<ScalarValue>>)
    requires |row| <= |builders|
    ensures |out| == |builders|
    ensures forall c :: 0 <= c < |out| ==> out[c] == builders[c] + if c < |row| then [row[c]] else []
  {
    out := builders;
    for c := 0 to |row|
      invariant |out| == |builders|
      invariant forall d :: 0 <= d < c ==> out[d] == builders[d] + [row[d]]
      invariant forall d :: c <= d < |builders| ==> out[d] == builders[d]
    {
      out := out[c := out[c] + [row[c]]];
    }
  }

  lemma CreatesFull(rows: seq<Row>, width: nat, columns: seq<seq<ScalarValue>>)
    requires width > 0 && forall row :: row in rows ==> |row| == width
    requires |columns| == width && forall c :: 0 <= c < width ==> columns[c] == Reached(rows, c)
    ensures Create(width, columns).Ok? && Rows(Create(width, columns).value) == rows
  {
    hide Reached;
    forall c | 0 <= c < width
      ensures |columns[c]| == |rows| && forall i :: 0 <= i < |rows| ==> columns[c][i] == rows[i][c]
    {
      FullColumn(rows, width, c);
    }
    RowsDetermine(Create(width, columns).value, rows);
  }

  /** Rows appended cell by cell to one builder per field. A row wider than the schema
      runs past the builders; a narrower one, unless empty, leaves columns of different
      lengths, which are refused, as is a null in a required column; other rows as wide as
      the schema come back unchanged. */
  method CreateBatch(rows: seq<Row>, width: nat, required: set<nat>) returns (r: Result<RecordBatch>)
    ensures r.Ok? ==> Valid(r.value) && |r.value.columns| == width > 0
    ensures width > 0 && (forall row :: row in rows ==> |row| == width) ==>
              (r.Ok? <==> NullsFit(required, rows)) && (r.Ok? ==> Rows(r.value) == rows)
    ensures (exists row :: row in rows && |row| > width) ==> r == Err(Panic)
    ensures (forall row :: row in rows ==> |row| <= width) ==>
              && (r.Ok? <==> width > 0 && NullsFit(required, rows)
                             && forall row :: row in rows ==> row == [] || |row| == width)
              && (r.Err? ==> r.error == Internal)
  {
    var builders := seq(width, _ => []);
    for i := 0 to |rows|
      invariant |builders| == width
      invariant forall row :: row in rows[..i] ==> |row| <= width
      invariant forall c :: 0 <= c < width ==> builders[c] == Reached(rows[..i], c)
    {
      var row := rows[i];
      assert rows[..i + 1] == rows[..i] + [row] && rows[..i + 1][..i] == rows[..i];
      if |row| > width {
        return Err(Panic);
      }
      builders := AppendRow(builders, row);
    }
    assert rows[..|rows|] == rows;
    r := CreateFor(required, width, builders);
    NullsReached(required, rows, builders);
    if width > 0 {
      EquallyReached(rows, width);
      if forall row :: row in rows ==> |row| == width {
        CreatesFull(rows, width, builders);
      }
    }
  }
}
