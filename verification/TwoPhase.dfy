/** Partial aggregation of pieces of the input, followed by a final aggregation of the
    partial rows in any order, gives what aggregating the whole input at once gives. */
module TwoPhase {
  import opened Results
  import opened Scalars
  import opened Sequences
  import opened Accumulators
  import opened AccumulatorLaws
  import opened HashAggregate

  // ---------------------------------------------------------------- built-in calls

  function CallOf(r: Reducer, input: RowExpr): Call {
    Call(input, Initial(r), (s, v) => Accumulate(r, s, v), (s, p) => Merge(r, s, p))
  }

  function CallsOf(reducers: seq<Reducer>, inputs: seq<RowExpr>): (calls: seq<Call>)
    requires |inputs| == |reducers|
    ensures |calls| == |reducers|
    ensures forall j :: 0 <= j < |calls| ==> calls[j] == CallOf(reducers[j], inputs[j])
  {
    seq(|reducers|, j requires 0 <= j < |reducers| => CallOf(reducers[j], inputs[j]))
  }

  // The call behaves as the reducer, in both phases.
  ghost predicate Reduces(c: Call, r: Reducer) {
    && c.initial == Initial(r)
    && (forall values :: FoldWith(c.accumulate, c.initial, values) == Fold(r, values))
    && (forall partials :: FoldWith(c.merge, c.initial, partials) == FoldPartials(r, partials))
  }

  ghost predicate AllReduce(q: Query, rs: seq<Reducer>) {
    |q.calls| == |rs| && forall j :: 0 <= j < |rs| ==> Reduces(q.calls[j], rs[j])
  }

  lemma {:induction false} CallAccumulates(r: Reducer, input: RowExpr, values: seq<ScalarValue>)
    ensures FoldWith(CallOf(r, input).accumulate, Initial(r), values) == Fold(r, values)
  {
    if values != [] {
      CallAccumulates(r, input, values[..|values| - 1]);
    }
  }

  lemma {:induction false} CallMerges(r: Reducer, input: RowExpr, partials: seq<ScalarValue>)
    ensures FoldWith(CallOf(r, input).merge, Initial(r), partials) == FoldPartials(r, partials)
  {
    if partials != [] {
      CallMerges(r, input, partials[..|partials| - 1]);
    }
  }

  lemma CallsReduce(group: seq<RowExpr>, reducers: seq<Reducer>, inputs: seq<RowExpr>)
    requires |inputs| == |reducers|
    ensures AllReduce(Query(group, CallsOf(reducers, inputs)), reducers)
  {
    forall j | 0 <= j < |reducers| ensures Reduces(CallsOf(reducers, inputs)[j], reducers[j]) {
      var r, input := reducers[j], inputs[j];
      forall values: seq<ScalarValue>
        ensures FoldWith(CallOf(r, input).accumulate, Initial(r), values) == Fold(r, values)
        ensures FoldWith(CallOf(r, input).merge, Initial(r), values) == FoldPartials(r, values)
      {
        CallAccumulates(r, input, values);
        CallMerges(r, input, values);
      }
    }
  }

  // ---------------------------------------------------------------- the two stages' queries

  // No float reaches a SUM, MIN or MAX on this row.
  ghost predicate ExactRow(q: Query, rs: seq<Reducer>, row: Row) {
    |q.calls| == |rs| && forall j :: 0 <= j < |rs| ==> Exact(rs[j], q.calls[j].input(row))
  }

  ghost predicate ExactRows(q: Query, rs: seq<Reducer>, rows: seq<Row>) {
    forall row :: row in rows ==> ExactRow(q, rs, row)
  }

  // Reading a partial row, the final query finds the key and the states it was made of.
  ghost predicate ReadsBack(f: Query, key: Row, states: seq<ScalarValue>) {
    KeyOf(f, key + states) == key && InputsOf(f, key + states) == states
  }

  ghost predicate ReadsPartialRows(f: Query, keyWidth: nat, stateWidth: nat) {
    forall key: Row, states: seq<ScalarValue> :: |key| == keyWidth && |states| == stateWidth ==>
      ReadsBack(f, key, states)
  }

  function ColumnAt(i: nat): RowExpr {
    (row: Row) => if i < |row| then row[i] else Null
  }

  function ColumnsAt(indices: seq<nat>): (es: seq<RowExpr>)
    ensures |es| == |indices| && forall i :: 0 <= i < |es| ==> es[i] == ColumnAt(indices[i])
  {
    if indices == [] then [] else ColumnsAt(indices[..|indices| - 1]) + [ColumnAt(indices[|indices| - 1])]
  }

  // The query whose keys and inputs are plain columns.
  function ColumnQuery(group: seq<nat>, reducers: seq<Reducer>, inputs: seq<nat>): Query
    requires |inputs| == |reducers|
  {
    Query(ColumnsAt(group), CallsOf(reducers, ColumnsAt(inputs)))
  }

  lemma ColumnQueryReads(group: seq<nat>, reducers: seq<Reducer>, inputs: seq<nat>, row: Row)
    requires |inputs| == |reducers|
    ensures var f := ColumnQuery(group, reducers, inputs);
            && |KeyOf(f, row)| == |group| && |InputsOf(f, row)| == |inputs|
            && (forall i :: 0 <= i < |group| ==> KeyOf(f, row)[i] == ColumnAt(group[i])(row))
            && (forall j :: 0 <= j < |inputs| ==> InputsOf(f, row)[j] == ColumnAt(inputs[j])(row))
  {
    var f := ColumnQuery(group, reducers, inputs);
    assert InputExprs(f) == ColumnsAt(inputs);
  }

  ghost predicate InPlace(group: seq<nat>, inputs: seq<nat>) {
    && (forall i :: 0 <= i < |group| ==> group[i] == i)
    && (forall j :: 0 <= j < |inputs| ==> inputs[j] == |group| + j)
  }

  // A row that is null but at one column.
  function Marked(width: nat, at: nat): (row: Row)
    ensures |row| == width && forall i :: 0 <= i < width ==> row[i] == if i == at then Boolean(true) else Null
  {
    if width == 0 then [] else Marked(width - 1, at) + [if width - 1 == at then Boolean(true) else Null]
  }

  lemma InPlaceReads(group: seq<nat>, reducers: seq<Reducer>, inputs: seq<nat>, key: Row, states: seq<ScalarValue>)
    requires |inputs| == |reducers| && InPlace(group, inputs) && |key| == |group| && |states| == |inputs|
    ensures ReadsBack(ColumnQuery(group, reducers, inputs), key, states)
  {
    ColumnQueryReads(group, reducers, inputs, key + states);
  }

  lemma ReadsOne(f: Query, key: Row, states: seq<ScalarValue>)
    requires ReadsPartialRows(f, |key|, |states|)
    ensures KeyOf(f, key + states) == key && InputsOf(f, key + states) == states
  {
    assert ReadsBack(f, key, states);
  }

  lemma ReadKeysInPlace(group: seq<nat>, reducers: seq<Reducer>, inputs: seq<nat>, i: nat)
    requires |inputs| == |reducers| && i < |group|
    requires ReadsPartialRows(ColumnQuery(group, reducers, inputs), |group|, |inputs|)
    ensures group[i] == i
  {
    hide ReadsPartialRows, ColumnQuery, KeyOf, InputsOf;
    var key, states := Marked(|group|, i), Marked(|inputs|, |inputs|);
    ReadsOne(ColumnQuery(group, reducers, inputs), key, states);
    ColumnQueryReads(group, reducers, inputs, key + states);
    assert ColumnAt(group[i])(key + states) == key[i];
  }

  lemma ReadInputsInPlace(group: seq<nat>, reducers: seq<Reducer>, inputs: seq<nat>, j: nat)
    requires |inputs| == |reducers| && j < |inputs|
    requires ReadsPartialRows(ColumnQuery(group, reducers, inputs), |group|, |inputs|)
    ensures inputs[j] == |group| + j
  {
    hide ReadsPartialRows, ColumnQuery, KeyOf, InputsOf;
    var key, states := Marked(|group|, |group|), Marked(|inputs|, j);
    ReadsOne(ColumnQuery(group, reducers, inputs), key, states);
    ColumnQueryReads(group, reducers, inputs, key + states);
    assert ColumnAt(inputs[j])(key + states) == states[j];
  }

  /** A final query over plain columns reads partial rows exactly when group key i is
      bound to column i and aggregate j to the j-th column after the keys. The planner
      hands the final stage the original query, whose columns need not be in place. */
  lemma ReadsPartialRowsInPlace(group: seq<nat>, reducers: seq<Reducer>, inputs: seq<nat>)
    requires |inputs| == |reducers|
    ensures ReadsPartialRows(ColumnQuery(group, reducers, inputs), |group|, |inputs|) <==> InPlace(group, inputs)
  {
    var f := ColumnQuery(group, reducers, inputs);
    if InPlace(group, inputs) {
      forall key: Row, states: seq<ScalarValue> | |key| == |group| && |states| == |inputs|
        ensures ReadsBack(f, key, states)
      {
        InPlaceReads(group, reducers, inputs, key, states);
      }
    } else if ReadsPartialRows(f, |group|, |inputs|) {
      forall i | 0 <= i < |group| ensures group[i] == i {
        ReadKeysInPlace(group, reducers, inputs, i);
      }
      forall j | 0 <= j < |inputs| ensures inputs[j] == |group| + j {
        ReadInputsInPlace(group, reducers, inputs, j);
      }
    }
  }

  // ---------------------------------------------------------------- one group's values

  lemma {:induction false} MemberValuesAppend(q: Query, a: seq<Row>, b: seq<Row>, key: Row, j: nat)
    requires j < |q.calls|
    ensures MemberValues(q, a + b, key, j) == MemberValues(q, a, key, j) + MemberValues(q, b, key, j)
  {
    if b == [] {
      assert a + b == a;
    } else {
      assert (a + b)[..|a + b| - 1] == a + b[..|b| - 1];
      MemberValuesAppend(q, a, b[..|b| - 1], key, j);
    }
  }

  lemma OneMember(q: Query, row: Row, key: Row, j: nat)
    requires j < |q.calls|
    ensures MemberValues(q, [row], key, j) == MemberValue(q, row, key, j)
  {
    assert [row][..0] == [];
    assert MemberValues(q, [row][..0], key, j) == [];
  }

  lemma MemberValuesAround(q: Query, front: seq<Row>, row: Row, back: seq<Row>, key: Row, j: nat)
    requires j < |q.calls|
    ensures multiset(MemberValues(q, front + [row] + back, key, j))
            == multiset(MemberValues(q, front + back, key, j)) + multiset(MemberValue(q, row, key, j))
  {
    MemberValuesAppend(q, front, back, key, j);
    MemberValuesAppend(q, front + [row], back, key, j);
    MemberValuesAppend(q, front, [row], key, j);
    OneMember(q, row, key, j);
  }

  lemma MemberValuesWithout(q: Query, b: seq<Row>, i: nat, key: Row, j: nat)
    requires j < |q.calls| && i < |b|
    ensures multiset(MemberValues(q, b, key, j))
            == multiset(MemberValues(q, Without(b, i), key, j)) + multiset(MemberValue(q, b[i], key, j))
  {
    assert b == b[..i] + [b[i]] + b[i + 1..];
    MemberValuesAround(q, b[..i], b[i], b[i + 1..], key, j);
  }

  // Reordering rows reorders each group's values.
  lemma {:induction false} MemberValuesPermute(q: Query, a: seq<Row>, b: seq<Row>, key: Row, j: nat)
    requires j < |q.calls| && multiset(a) == multiset(b)
    ensures multiset(MemberValues(q, a, key, j)) == multiset(MemberValues(q, b, key, j))
  {
    if a == [] {
      assert |multiset(b)| == 0;
    } else {
      var last := |a| - 1;
      var i := FindLast(a, b);
      MemberValuesPermute(q, a[..last], Without(b, i), key, j);
      MemberValuesWithout(q, b, i, key, j);
      MemberValuesWithout(q, a, last, key, j);
      assert Without(a, last) == a[..last];
    }
  }

  lemma {:induction false} MemberValuesExact(q: Query, rs: seq<Reducer>, rows: seq<Row>, key: Row, j: nat)
    requires j < |q.calls| == |rs| && ExactRows(q, rs, rows)
    ensures AllExact(rs[j], MemberValues(q, rows, key, j))
  {
    if rows != [] {
      var last := |rows| - 1;
      MemberValuesExact(q, rs, rows[..last], key, j);
      assert ExactRow(q, rs, rows[last]);
    }
  }

  lemma {:induction false} KeySetAppend(q: Query, a: seq<Row>, b: seq<Row>)
    ensures KeySet(q, a + b) == KeySet(q, a) + KeySet(q, b)
  {
    if b == [] {
      assert a + b == a;
    } else {
      assert (a + b)[..|a + b| - 1] == a + b[..|b| - 1];
      KeySetAppend(q, a, b[..|b| - 1]);
    }
  }

  lemma {:induction false} KeySetMember(q: Query, rows: seq<Row>, key: Row)
    ensures key in KeySet(q, rows) <==> exists row :: row in rows && KeyOf(q, row) == key
  {
    if rows != [] {
      var last := |rows| - 1;
      KeySetMember(q, rows[..last], key);
      assert rows == rows[..last] + [rows[last]];
      assert rows[last] in rows;
    }
  }

  lemma KeySetPermutes(q: Query, a: seq<Row>, b: seq<Row>)
    requires multiset(a) == multiset(b)
    ensures KeySet(q, a) == KeySet(q, b)
  {
    assert forall row :: row in a <==> row in multiset(a);
    assert forall row :: row in b <==> row in multiset(b);
    forall k ensures k in KeySet(q, a) <==> k in KeySet(q, b) {
      KeySetMember(q, a, k);
      KeySetMember(q, b, k);
    }
  }

  // ---------------------------------------------------------------- pieces

  // One piece of the input with its partial table and the rows emitted for it.
  datatype Piece = Piece(rows: seq<Row>, table: Table, order: seq<Row>, emitted: seq<Row>)

  ghost predicate IsPiece(q: Query, p: Piece) {
    BuildTable(q, Partial, p.rows) == Ok(p.table) && Lists(p.order, p.table, p.emitted)
  }

  function InputRows(pieces: seq<Piece>): seq<Row> {
    if pieces == [] then [] else InputRows(pieces[..|pieces| - 1]) + pieces[|pieces| - 1].rows
  }

  function PartialRows(pieces: seq<Piece>): seq<Row> {
    if pieces == [] then [] else PartialRows(pieces[..|pieces| - 1]) + pieces[|pieces| - 1].emitted
  }

  ghost predicate TwoStages(q: Query, f: Query, rs: seq<Reducer>) {
    && AllReduce(q, rs) && AllReduce(f, rs)
    && ReadsPartialRows(f, |q.group|, |rs|)
  }

  lemma PieceTable(q: Query, p: Piece)
    requires IsPiece(q, p)
    ensures IsGroupBy(q, Partial, p.rows, p.table)
    ensures forall k :: k in p.table ==> |k| == |q.group| && |p.table[k]| == |q.calls|
  {
    TableIsGroupBy(q, Partial, p.rows);
    forall k | k in p.table ensures |k| == |q.group| {
      KeySetMember(q, p.rows, k);
    }
  }

  // What the final stage finds in each emitted row.
  ghost predicate EmitsBack(f: Query, p: Piece) {
    && |p.emitted| == |p.order| && Distinct(p.order)
    && forall i :: 0 <= i < |p.order| ==>
         && KeyOf(f, p.emitted[i]) == p.order[i]
         && p.order[i] in p.table && InputsOf(f, p.emitted[i]) == p.table[p.order[i]]
  }

  lemma PieceEmitsBack(q: Query, f: Query, rs: seq<Reducer>, p: Piece)
    requires TwoStages(q, f, rs) && IsPiece(q, p)
    ensures EmitsBack(f, p)
  {
    PieceTable(q, p);
    forall i | 0 <= i < |p.order| ensures ReadsBack(f, p.order[i], p.table[p.order[i]]) {
    }
  }

  // The state a piece holds for a group, if any.
  function HeldState(p: Piece, key: Row, j: nat): seq<ScalarValue> {
    if key in p.table && j < |p.table[key]| then [p.table[key][j]] else []
  }

  lemma EmittedValue(f: Query, p: Piece, i: nat, key: Row, j: nat)
    requires EmitsBack(f, p) && j < |f.calls| && i < |p.order|
    ensures MemberValue(f, p.emitted[i], key, j) == if key == p.order[i] then HeldState(p, key, j) else []
  {
    assert f.calls[j].input(p.emitted[i]) == InputsOf(f, p.emitted[i])[j];
  }

  // What each row gives the group.
  function MemberParts(q: Query, rows: seq<Row>, key: Row, j: nat): (parts: seq<seq<ScalarValue>>)
    requires j < |q.calls|
    ensures |parts| == |rows| && forall i :: 0 <= i < |rows| ==> parts[i] == MemberValue(q, rows[i], key, j)
    ensures MemberValues(q, rows, key, j) == Flatten(parts)
  {
    if rows == [] then []
    else
      var front, last := rows[..|rows| - 1], rows[|rows| - 1];
      FlattenPush(MemberParts(q, front, key, j), MemberValue(q, last, key, j));
      MemberParts(q, front, key, j) + [MemberValue(q, last, key, j)]
  }

  // A piece's rows give the final stage its state, once.
  lemma EmittedValues(f: Query, p: Piece, key: Row, j: nat)
    requires EmitsBack(f, p) && j < |f.calls|
    requires key in p.table ==> key in p.order
    ensures MemberValues(f, p.emitted, key, j) == HeldState(p, key, j)
  {
    hide MemberValue, MemberValues, MemberParts, Flatten;
    var parts := MemberParts(f, p.emitted, key, j);
    forall i | 0 <= i < |parts| ensures parts[i] == if key == p.order[i] then HeldState(p, key, j) else [] {
      EmittedValue(f, p, i, key, j);
    }
    if key in p.table {
      var i :| 0 <= i < |p.order| && p.order[i] == key;
      FlattenOnly(parts, i);
    } else {
      FlattenNothing(parts);
    }
  }

  lemma PieceValues(q: Query, f: Query, p: Piece, key: Row, j: nat)
    requires IsPiece(q, p) && EmitsBack(f, p) && j < |f.calls|
    ensures MemberValues(f, p.emitted, key, j) == HeldState(p, key, j)
  {
    EmittedValues(f, p, key, j);
  }

  // Outside the final modes a group's fold is its reducer's.
  lemma GroupReduces(q: Query, rs: seq<Reducer>, mode: Mode, rows: seq<Row>, key: Row, j: nat)
    requires AllReduce(q, rs) && j < |rs| && mode != Final && mode != FinalPartitioned
    ensures GroupFold(q, mode, rows, key, j) == Fold(rs[j], MemberValues(q, rows, key, j))
  {
    assert Reduces(q.calls[j], rs[j]);
  }

  // Folding a piece's values is totalling the state it holds.
  lemma PieceFold(q: Query, rs: seq<Reducer>, p: Piece, key: Row, j: nat)
    requires AllReduce(q, rs) && IsPiece(q, p) && j < |rs| && ExactRows(q, rs, p.rows)
    ensures AllExactStates(rs[j], HeldState(p, key, j))
    ensures Fold(rs[j], MemberValues(q, p.rows, key, j)) == Total(rs[j], HeldState(p, key, j))
  {
    hide IsPiece, Reduces, ExactRows, BuildTable, FoldWith, MemberValues;
    var values := MemberValues(q, p.rows, key, j);
    PieceTable(q, p);
    if key in p.table {
      hide GroupFold, Fold;
      GroupReduces(q, rs, Partial, p.rows, key, j);
      assert Fold(rs[j], values) == Ok(p.table[key][j]);
      MemberValuesExact(q, rs, p.rows, key, j);
      FoldExact(rs[j], values);
      TotalOne(rs[j], p.table[key][j]);
    } else {
      NoMembers(q, p.rows, key, j);
    }
  }

  // The keys the final stage finds in a piece's rows.
  lemma EmittedKeys(f: Query, p: Piece, key: Row)
    requires EmitsBack(f, p)
    ensures key in KeySet(f, p.emitted) <==> key in p.order
  {
    KeySetMember(f, p.emitted, key);
    if key in KeySet(f, p.emitted) {
      var row :| row in p.emitted && KeyOf(f, row) == key;
      var i :| 0 <= i < |p.emitted| && p.emitted[i] == row;
      assert p.order[i] == key;
    }
    if key in p.order {
      var i :| 0 <= i < |p.order| && p.order[i] == key;
      assert p.emitted[i] in p.emitted && KeyOf(f, p.emitted[i]) == key;
    }
  }

  lemma PieceKeys(q: Query, f: Query, p: Piece, key: Row)
    requires IsPiece(q, p) && EmitsBack(f, p)
    ensures key in KeySet(f, p.emitted) <==> key in KeySet(q, p.rows)
  {
    PieceTable(q, p);
    EmittedKeys(f, p, key);
  }

  // ---------------------------------------------------------------- all pieces

  ghost predicate ArePieces(q: Query, rs: seq<Reducer>, pieces: seq<Piece>) {
    forall i :: 0 <= i < |pieces| ==> IsPiece(q, pieces[i]) && ExactRows(q, rs, pieces[i].rows)
  }

  // What the pieces emitted, in any order.
  ghost predicate Shuffled(pieces: seq<Piece>, shuffled: seq<Row>) {
    multiset(shuffled) == multiset(PartialRows(pieces))
  }

  // Equal tables, or two failures.
  predicate SameOutcome(a: Result<Table>, b: Result<Table>) {
    a.Ok? == b.Ok? && (a.Ok? ==> a.value == b.value)
  }

  // On every input, however it is cut and shuffled, the final stage gives the single-mode
  // outcome.
  ghost predicate AlwaysMerges(q: Query, f: Query, rs: seq<Reducer>) {
    && AllReduce(q, rs)
    && forall pieces: seq<Piece>, shuffled: seq<Row> :: ArePieces(q, rs, pieces) && Shuffled(pieces, shuffled) ==>
         SameOutcome(BuildTable(f, Final, shuffled), BuildTable(q, Single, InputRows(pieces)))
  }

  // Both queries reduce alike, and the final one reads back what the pieces emitted.
  ghost predicate Merges(q: Query, f: Query, rs: seq<Reducer>, pieces: seq<Piece>) {
    && AllReduce(q, rs) && AllReduce(f, rs)
    && forall i :: 0 <= i < |pieces| ==> EmitsBack(f, pieces[i])
  }

  lemma {:induction false} InputsExact(q: Query, rs: seq<Reducer>, pieces: seq<Piece>)
    requires ArePieces(q, rs, pieces)
    ensures ExactRows(q, rs, InputRows(pieces))
  {
    if pieces != [] {
      InputsExact(q, rs, pieces[..|pieces| - 1]);
    }
  }

  /** For one group and one aggregate: totalling the pieces' states is folding the whole. */
  lemma {:induction false} GroupMerges(q: Query, f: Query, rs: seq<Reducer>, pieces: seq<Piece>, key: Row, j: nat)
    requires Merges(q, f, rs, pieces) && ArePieces(q, rs, pieces) && j < |rs|
    ensures AllExactStates(rs[j], MemberValues(f, PartialRows(pieces), key, j))
    ensures Total(rs[j], MemberValues(f, PartialRows(pieces), key, j))
            == Fold(rs[j], MemberValues(q, InputRows(pieces), key, j))
  {
    if pieces != [] {
      var front, p := pieces[..|pieces| - 1], pieces[|pieces| - 1];
      GroupMerges(q, f, rs, front, key, j);
      InputsExact(q, rs, front);
      PieceStep(q, f, rs, InputRows(front), PartialRows(front), p, key, j);
    }
  }

  lemma PieceStep(q: Query, f: Query, rs: seq<Reducer>, inputs: seq<Row>, partials: seq<Row>, p: Piece, key: Row,
                  j: nat)
    requires Merges(q, f, rs, [p]) && IsPiece(q, p) && j < |rs|
    requires ExactRows(q, rs, inputs) && ExactRows(q, rs, p.rows)
    requires AllExactStates(rs[j], MemberValues(f, partials, key, j))
    requires Total(rs[j], MemberValues(f, partials, key, j)) == Fold(rs[j], MemberValues(q, inputs, key, j))
    ensures AllExactStates(rs[j], MemberValues(f, partials + p.emitted, key, j))
    ensures Total(rs[j], MemberValues(f, partials + p.emitted, key, j))
            == Fold(rs[j], MemberValues(q, inputs + p.rows, key, j))
  {
    var r := rs[j];
    MemberValuesAppend(f, partials, p.emitted, key, j);
    MemberValuesAppend(q, inputs, p.rows, key, j);
    assert EmitsBack(f, [p][0]);
    PieceValues(q, f, p, key, j);
    PieceFold(q, rs, p, key, j);
    MemberValuesExact(q, rs, inputs, key, j);
    MemberValuesExact(q, rs, p.rows, key, j);
    TotalAppend(r, MemberValues(f, partials, key, j), HeldState(p, key, j));
    FoldAppend(r, MemberValues(q, inputs, key, j), MemberValues(q, p.rows, key, j));
  }

  lemma {:induction false} PartialKeys(q: Query, f: Query, rs: seq<Reducer>, pieces: seq<Piece>)
    requires Merges(q, f, rs, pieces) && ArePieces(q, rs, pieces)
    ensures KeySet(f, PartialRows(pieces)) == KeySet(q, InputRows(pieces))
  {
    if pieces != [] {
      var front, p := pieces[..|pieces| - 1], pieces[|pieces| - 1];
      PartialKeys(q, f, rs, front);
      KeySetAppend(f, PartialRows(front), p.emitted);
      KeySetAppend(q, InputRows(front), p.rows);
      forall k ensures k in KeySet(f, p.emitted) <==> k in KeySet(q, p.rows) {
        PieceKeys(q, f, p, k);
      }
    }
  }

  lemma GroupAgrees(q: Query, f: Query, rs: seq<Reducer>, pieces: seq<Piece>, shuffled: seq<Row>, k: Row, j: nat)
    requires Merges(q, f, rs, pieces) && ArePieces(q, rs, pieces) && j < |rs|
    requires multiset(shuffled) == multiset(PartialRows(pieces))
    ensures GroupFold(f, Final, shuffled, k, j) == GroupFold(q, Single, InputRows(pieces), k, j)
  {
    var r := rs[j];
    var values, inOrder := MemberValues(f, shuffled, k, j), MemberValues(f, PartialRows(pieces), k, j);
    assert Reduces(q.calls[j], r) && Reduces(f.calls[j], r);
    GroupMerges(q, f, rs, pieces, k, j);
    MemberValuesPermute(f, PartialRows(pieces), shuffled, k, j);
    TotalPermutes(r, inOrder, values);
    FoldPartialsIsTotal(r, values);
  }

  /** Whatever the final query reads back merges: the final stage succeeds exactly when
      aggregating the whole input would, with the same table. */
  lemma PiecesMerge(q: Query, f: Query, rs: seq<Reducer>, pieces: seq<Piece>, shuffled: seq<Row>)
    requires Merges(q, f, rs, pieces) && ArePieces(q, rs, pieces)
    requires Shuffled(pieces, shuffled)
    ensures SameOutcome(BuildTable(f, Final, shuffled), BuildTable(q, Single, InputRows(pieces)))
  {
    var rows := InputRows(pieces);
    TableIsGroupBy(q, Single, rows);
    TableIsGroupBy(f, Final, shuffled);
    KeySetPermutes(f, shuffled, PartialRows(pieces));
    PartialKeys(q, f, rs, pieces);
    forall k, j | 0 <= j < |rs| ensures GroupFold(f, Final, shuffled, k, j) == GroupFold(q, Single, rows, k, j) {
      GroupAgrees(q, f, rs, pieces, shuffled, k, j);
    }
    var whole, merged := BuildTable(q, Single, rows), BuildTable(f, Final, shuffled);
    if merged.Ok? && whole.Ok? {
      SameTable(f, q, merged.value, whole.value, shuffled, rows);
    }
  }

  /** Two-phase aggregation is one-phase aggregation. However the input was cut into
      pieces, in whatever order each piece emitted its groups and however the partial
      rows were permuted on the way, the final stage succeeds exactly when aggregating
      the whole input would, with the same table. */
  lemma TwoPhaseIsSingle(q: Query, f: Query, rs: seq<Reducer>)
    requires TwoStages(q, f, rs)
    ensures AlwaysMerges(q, f, rs)
  {
    hide BuildTable, IsPiece, EmitsBack, ExactRows, Reduces, ReadsPartialRows;
    forall pieces: seq<Piece>, shuffled: seq<Row> | ArePieces(q, rs, pieces) && Shuffled(pieces, shuffled)
      ensures SameOutcome(BuildTable(f, Final, shuffled), BuildTable(q, Single, InputRows(pieces)))
    {
      forall i | 0 <= i < |pieces| ensures EmitsBack(f, pieces[i]) {
        PieceEmitsBack(q, f, rs, pieces[i]);
      }
      PiecesMerge(q, f, rs, pieces, shuffled);
    }
  }

  lemma SameTable(f: Query, q: Query, t: Table, u: Table, shuffled: seq<Row>, rows: seq<Row>)
    requires |f.calls| == |q.calls|
    requires IsGroupBy(f, Final, shuffled, t) && IsGroupBy(q, Single, rows, u)
    requires KeySet(f, shuffled) == KeySet(q, rows)
    requires forall k, j :: 0 <= j < |q.calls| ==>
               GroupFold(f, Final, shuffled, k, j) == GroupFold(q, Single, rows, k, j)
    ensures t == u
  {
    forall k | k in t ensures t[k] == u[k] {
      forall j | 0 <= j < |q.calls| ensures t[k][j] == u[k][j] {
        assert GroupFold(f, Final, shuffled, k, j) == Ok(t[k][j]);
        assert GroupFold(q, Single, rows, k, j) == Ok(u[k][j]);
      }
    }
  }

  /** A piece that fails means the whole fails: no error is masked by aggregating in
      pieces. */
  lemma PieceFailureIsFailure(q: Query, rs: seq<Reducer>, before: seq<Row>, piece: seq<Row>, after: seq<Row>)
    requires AllReduce(q, rs) && ExactRows(q, rs, before + piece + after)
    requires BuildTable(q, Partial, piece).Err?
    ensures BuildTable(q, Single, before + piece + after).Err?
  {
    hide BuildTable, GroupFold, KeySet, ExactRows, Reduces;
    var rows := before + piece + after;
    TableIsGroupBy(q, Partial, piece);
    TableIsGroupBy(q, Single, rows);
    var k, j :| k in KeySet(q, piece) && 0 <= j < |q.calls| && GroupFold(q, Partial, piece, k, j).Err?;
    KeySetAppend(q, before + piece, after);
    KeySetAppend(q, before, piece);
    assert k in KeySet(q, rows);
    GroupReduces(q, rs, Partial, piece, k, j);
    GroupReduces(q, rs, Single, rows, k, j);
    ExactParts(q, rs, before, piece, after);
    FoldFailureStays(q, rs, before, piece, after, k, j);
    assert GroupFold(q, Single, rows, k, j).Err?;
  }

  lemma FoldFailureStays(
    q: Query, rs: seq<Reducer>, before: seq<Row>, piece: seq<Row>, after: seq<Row>, k: Row, j: nat)
    requires j < |q.calls| == |rs|
    requires ExactRows(q, rs, before) && ExactRows(q, rs, piece) && ExactRows(q, rs, after)
    requires Fold(rs[j], MemberValues(q, piece, k, j)).Err?
    ensures Fold(rs[j], MemberValues(q, before + piece + after, k, j)).Err?
  {
    var x, y, z := MemberValues(q, before, k, j), MemberValues(q, piece, k, j), MemberValues(q, after, k, j);
    MemberValuesAppend(q, before + piece, after, k, j);
    MemberValuesAppend(q, before, piece, k, j);
    MemberValuesExact(q, rs, before, k, j);
    MemberValuesExact(q, rs, piece, k, j);
    MemberValuesExact(q, rs, after, k, j);
    FailureAbsorbs(rs[j], x, y, z);
  }

  lemma FailureAbsorbs(r: Reducer, x: seq<ScalarValue>, y: seq<ScalarValue>, z: seq<ScalarValue>)
    requires AllExact(r, x) && AllExact(r, y) && AllExact(r, z) && Fold(r, y).Err?
    ensures Fold(r, x + y + z).Err?
  {
    FoldAppend(r, x, y);
    FoldAppend(r, x + y, z);
  }

  lemma ExactParts(q: Query, rs: seq<Reducer>, before: seq<Row>, piece: seq<Row>, after: seq<Row>)
    requires ExactRows(q, rs, before + piece + after)
    ensures ExactRows(q, rs, before) && ExactRows(q, rs, piece) && ExactRows(q, rs, after)
  {
    assert forall row :: row in before || row in piece || row in after ==> row in before + piece + after;
  }
}
