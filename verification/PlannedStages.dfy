/** When one query over plain columns serves both stages, as the planner lets it: exactly
    when each key and each state can be read back off a partial row, either where it stands
    or where something that always equals it stands. */
module PlannedStages {
  import opened Results
  import opened Scalars
  import opened Sequences
  import opened Accumulators
  import opened AccumulatorLaws
  import opened HashAggregate
  import opened TwoPhase
  import opened PlannedAggregate

  // ---------------------------------------------------------------- the condition

  function Reducers(floats: FloatOps, kinds: seq<Kind>): (rs: seq<Reducer>)
    ensures |rs| == |kinds| && forall j :: 0 <= j < |rs| ==> rs[j] == Reducer(kinds[j], floats)
  {
    seq(|kinds|, j requires 0 <= j < |kinds| => Reducer(kinds[j], floats))
  }

  // The query both stages get: keys and inputs by column.
  datatype Columns = Columns(group: seq<nat>, kinds: seq<Kind>, inputs: seq<nat>)

  predicate Fits(cs: Columns) {
    |cs.inputs| == |cs.kinds|
  }

  function QueryOf(floats: FloatOps, cs: Columns): Query
    requires Fits(cs)
  {
    ColumnQuery(cs.group, Reducers(floats, cs.kinds), cs.inputs)
  }

  predicate MinOrMax(k: Kind) {
    k == Min || k == Max
  }

  // Key i is at a key column that is its own, or at the least or greatest value of itself.
  predicate KeyReads(cs: Columns, i: nat)
    requires Fits(cs) && i < |cs.group|
  {
    var n, c := |cs.group|, cs.group[i];
    if c < n then cs.group[c] == c
    else c < n + |cs.kinds| && MinOrMax(cs.kinds[c - n]) && cs.inputs[c - n] == c
  }

  // State j is at a key column, being its least or greatest value, or at a state of the same
  // column and kind; least and greatest are alike for a key.
  predicate InputReads(cs: Columns, j: nat)
    requires Fits(cs) && j < |cs.kinds|
  {
    var n, c := |cs.group|, cs.inputs[j];
    if c < n then MinOrMax(cs.kinds[j]) && cs.group[c] == c
    else
      && c < n + |cs.kinds| && cs.inputs[c - n] == c
      && (cs.kinds[c - n] == cs.kinds[j] || (MinOrMax(cs.kinds[c - n]) && MinOrMax(cs.kinds[j]) && c in cs.group))
  }

  predicate Serves(cs: Columns)
    requires Fits(cs)
  {
    (forall i :: 0 <= i < |cs.group| ==> KeyReads(cs, i)) && (forall j :: 0 <= j < |cs.kinds| ==> InputReads(cs, j))
  }

  // The final stage of this query is right about every input.
  ghost predicate ServesBoth(floats: FloatOps, cs: Columns)
    requires Fits(cs)
  {
    AlwaysMerges(QueryOf(floats, cs), QueryOf(floats, cs), Reducers(floats, cs.kinds))
  }

  // ---------------------------------------------------------------- reading columns

  lemma Reads(floats: FloatOps, cs: Columns, row: Row)
    requires Fits(cs)
    ensures var q := QueryOf(floats, cs);
            && |q.group| == |cs.group| && |q.calls| == |cs.kinds|
            && |KeyOf(q, row)| == |cs.group| && |InputsOf(q, row)| == |cs.inputs|
            && (forall i :: 0 <= i < |cs.group| ==> KeyOf(q, row)[i] == ColumnAt(cs.group[i])(row))
            && (forall j :: 0 <= j < |cs.inputs| ==> InputsOf(q, row)[j] == ColumnAt(cs.inputs[j])(row))
  {
    ColumnQueryReads(cs.group, Reducers(floats, cs.kinds), cs.inputs, row);
  }

  lemma CallIs(floats: FloatOps, cs: Columns, j: nat)
    requires Fits(cs) && j < |cs.kinds|
    ensures QueryOf(floats, cs).calls[j] == CallOf(Reducer(cs.kinds[j], floats), ColumnAt(cs.inputs[j]))
  {
    assert ColumnsAt(cs.inputs)[j] == ColumnAt(cs.inputs[j]);
  }

  lemma QueryReduces(floats: FloatOps, cs: Columns)
    requires Fits(cs)
    ensures AllReduce(QueryOf(floats, cs), Reducers(floats, cs.kinds))
  {
    CallsReduce(ColumnsAt(cs.group), Reducers(floats, cs.kinds), ColumnsAt(cs.inputs));
  }

  // ---------------------------------------------------------------- it serves

  lemma ExtremeStep(r: Reducer, v: ScalarValue)
    requires MinOrMax(r.kind)
    ensures Accumulate(r, Initial(r), v) == Ok(v) && r.kind != Count
    ensures Accumulate(r, v, v).Ok? ==> Accumulate(r, v, v).value == v
  {
  }

  // A least or greatest value of equal ones is that one.
  lemma {:induction false} ConstantFold(r: Reducer, values: seq<ScalarValue>, v: ScalarValue)
    requires MinOrMax(r.kind) && values != [] && (forall x :: x in values ==> x == v) && Fold(r, values).Ok?
    ensures Fold(r, values).value == v
  {
    hide Accumulate, MinOrMax;
    ExtremeStep(r, v);
    var last := |values| - 1;
    assert values[last] in values;
    if last > 0 {
      assert forall x :: x in values[..last] ==> x in values;
      ConstantFold(r, values[..last], v);
    } else {
      assert values[..last] == [];
      assert Fold(r, values[..last]) == Ok(Initial(r));
    }
  }

  // A key column's values are all the key within a group.
  lemma {:induction false} KeyColumnValues(floats: FloatOps, cs: Columns, rows: seq<Row>, key: Row, i: nat, j: nat)
    requires Fits(cs) && i < |cs.group| && j < |cs.kinds| && cs.inputs[j] == cs.group[i] && |key| == |cs.group|
    ensures var q := QueryOf(floats, cs);
            && |q.calls| == |cs.kinds|
            && (forall x :: x in MemberValues(q, rows, key, j) ==> x == key[i])
            && (key in KeySet(q, rows) ==> MemberValues(q, rows, key, j) != [])
  {
    Reads(floats, cs, []);
    if rows != [] {
      var front, last := rows[..|rows| - 1], rows[|rows| - 1];
      KeyColumnValues(floats, cs, front, key, i, j);
      Reads(floats, cs, last);
      CallIs(floats, cs, j);
    }
  }

  lemma ExtremeIsKey(floats: FloatOps, cs: Columns, p: Piece, key: Row, i: nat, j: nat)
    requires Fits(cs) && IsPiece(QueryOf(floats, cs), p) && key in p.table
    requires i < |cs.group| && j < |cs.kinds| && MinOrMax(cs.kinds[j]) && cs.inputs[j] == cs.group[i]
    ensures |key| == |cs.group| && |p.table[key]| == |cs.kinds| && p.table[key][j] == key[i]
  {
    var q, r := QueryOf(floats, cs), Reducer(cs.kinds[j], floats);
    Reads(floats, cs, []);
    PieceTable(q, p);
    KeyColumnValues(floats, cs, p.rows, key, i, j);
    StateIsFold(floats, cs, p, key, j);
    ConstantFold(r, MemberValues(q, p.rows, key, j), key[i]);
  }

  lemma StateIsFold(floats: FloatOps, cs: Columns, p: Piece, key: Row, j: nat)
    requires Fits(cs) && IsPiece(QueryOf(floats, cs), p) && key in p.table && j < |cs.kinds|
    ensures |QueryOf(floats, cs).calls| == |cs.kinds| == |p.table[key]|
    ensures Fold(Reducer(cs.kinds[j], floats), MemberValues(QueryOf(floats, cs), p.rows, key, j)) == Ok(p.table[key][j])
  {
    var q, r := QueryOf(floats, cs), Reducer(cs.kinds[j], floats);
    Reads(floats, cs, []);
    PieceTable(q, p);
    CallIs(floats, cs, j);
    CallAccumulates(r, ColumnAt(cs.inputs[j]), MemberValues(q, p.rows, key, j));
    assert GroupFold(q, Partial, p.rows, key, j) == Ok(p.table[key][j]);
  }

  lemma {:induction false} SameColumn(floats: FloatOps, cs: Columns, rows: seq<Row>, key: Row, i: nat, j: nat)
    requires Fits(cs) && i < |cs.kinds| && j < |cs.kinds| && cs.inputs[i] == cs.inputs[j]
    ensures |QueryOf(floats, cs).calls| == |cs.kinds|
    ensures MemberValues(QueryOf(floats, cs), rows, key, i) == MemberValues(QueryOf(floats, cs), rows, key, j)
  {
    Reads(floats, cs, []);
    if rows != [] {
      SameColumn(floats, cs, rows[..|rows| - 1], key, i, j);
      CallIs(floats, cs, i);
      CallIs(floats, cs, j);
    }
  }

  // A key's cell is its column's on some row of the group.
  lemma KeyCells(floats: FloatOps, cs: Columns, p: Piece, key: Row) returns (row: Row)
    requires Fits(cs) && IsPiece(QueryOf(floats, cs), p) && key in p.table
    ensures |key| == |cs.group| && forall i :: 0 <= i < |key| ==> key[i] == ColumnAt(cs.group[i])(row)
  {
    var q := QueryOf(floats, cs);
    PieceTable(q, p);
    KeySetMember(q, p.rows, key);
    row :| row in p.rows && KeyOf(q, row) == key;
    Reads(floats, cs, row);
  }

  lemma KeyReadBack(floats: FloatOps, cs: Columns, p: Piece, key: Row, i: nat)
    requires Fits(cs) && IsPiece(QueryOf(floats, cs), p) && key in p.table && i < |cs.group| && KeyReads(cs, i)
    ensures |key| == |cs.group| && ColumnAt(cs.group[i])(key + p.table[key]) == key[i]
  {
    hide IsPiece, QueryOf;
    var n, c := |cs.group|, cs.group[i];
    var row := KeyCells(floats, cs, p, key);
    if c >= n {
      ExtremeIsKey(floats, cs, p, key, i, c - n);
    }
  }

  // The state two calls of one kind share, if they read one column.
  lemma SameCall(floats: FloatOps, cs: Columns, p: Piece, key: Row, i: nat, j: nat)
    requires Fits(cs) && IsPiece(QueryOf(floats, cs), p) && key in p.table
    requires i < |cs.kinds| && j < |cs.kinds| && cs.kinds[i] == cs.kinds[j] && cs.inputs[i] == cs.inputs[j]
    ensures |p.table[key]| == |cs.kinds| && p.table[key][i] == p.table[key][j]
  {
    hide IsPiece, QueryOf, MemberValues, Fold;
    StateIsFold(floats, cs, p, key, i);
    StateIsFold(floats, cs, p, key, j);
    SameColumn(floats, cs, p.rows, key, i, j);
  }

  // Least and greatest of a key column are alike.
  lemma ExtremesOfKey(floats: FloatOps, cs: Columns, p: Piece, key: Row, i: nat, j: nat)
    requires Fits(cs) && IsPiece(QueryOf(floats, cs), p) && key in p.table
    requires i < |cs.kinds| && j < |cs.kinds| && MinOrMax(cs.kinds[i]) && MinOrMax(cs.kinds[j])
    requires cs.inputs[i] == cs.inputs[j] && cs.inputs[i] in cs.group
    ensures |p.table[key]| == |cs.kinds| && p.table[key][i] == p.table[key][j]
  {
    hide IsPiece, QueryOf;
    var x :| 0 <= x < |cs.group| && cs.group[x] == cs.inputs[i];
    ExtremeIsKey(floats, cs, p, key, x, i);
    ExtremeIsKey(floats, cs, p, key, x, j);
  }

  lemma InputReadBack(floats: FloatOps, cs: Columns, p: Piece, key: Row, j: nat)
    requires Fits(cs) && IsPiece(QueryOf(floats, cs), p) && key in p.table && j < |cs.kinds| && InputReads(cs, j)
    ensures |p.table[key]| == |cs.kinds| && ColumnAt(cs.inputs[j])(key + p.table[key]) == p.table[key][j]
  {
    hide IsPiece, QueryOf;
    var n, c := |cs.group|, cs.inputs[j];
    var row := KeyCells(floats, cs, p, key);
    if c < n {
      ExtremeIsKey(floats, cs, p, key, c, j);
    } else if cs.kinds[c - n] == cs.kinds[j] {
      SameCall(floats, cs, p, key, c - n, j);
    } else {
      ExtremesOfKey(floats, cs, p, key, c - n, j);
    }
  }

  lemma GroupReadBack(floats: FloatOps, cs: Columns, p: Piece, key: Row)
    requires Fits(cs) && Serves(cs) && IsPiece(QueryOf(floats, cs), p) && key in p.table
    ensures KeyOf(QueryOf(floats, cs), key + p.table[key]) == key
    ensures InputsOf(QueryOf(floats, cs), key + p.table[key]) == p.table[key]
  {
    hide KeyReads, InputReads, QueryOf, IsPiece;
    var q, partial := QueryOf(floats, cs), key + p.table[key];
    Reads(floats, cs, partial);
    var row := KeyCells(floats, cs, p, key);
    forall i | 0 <= i < |cs.group| ensures KeyOf(q, partial)[i] == key[i] {
      KeyReadBack(floats, cs, p, key, i);
    }
    PieceTable(q, p);
    forall j | 0 <= j < |cs.kinds| ensures InputsOf(q, partial)[j] == p.table[key][j] {
      InputReadBack(floats, cs, p, key, j);
    }
  }

  lemma EmitsBackWhenServed(floats: FloatOps, cs: Columns, p: Piece)
    requires Fits(cs) && Serves(cs) && IsPiece(QueryOf(floats, cs), p)
    ensures EmitsBack(QueryOf(floats, cs), p)
  {
    hide Serves, QueryOf, KeyOf, InputsOf, BuildTable;
    forall x | 0 <= x < |p.order|
      ensures KeyOf(QueryOf(floats, cs), p.emitted[x]) == p.order[x]
      ensures InputsOf(QueryOf(floats, cs), p.emitted[x]) == p.table[p.order[x]]
    {
      GroupReadBack(floats, cs, p, p.order[x]);
    }
  }

  lemma ServedMerges(floats: FloatOps, cs: Columns)
    requires Fits(cs) && Serves(cs)
    ensures ServesBoth(floats, cs)
  {
    var q, rs := QueryOf(floats, cs), Reducers(floats, cs.kinds);
    hide Serves, QueryOf, BuildTable, IsPiece, EmitsBack, ExactRows, Reduces;
    QueryReduces(floats, cs);
    forall pieces: seq<Piece>, shuffled: seq<Row> | ArePieces(q, rs, pieces) && Shuffled(pieces, shuffled)
      ensures SameOutcome(BuildTable(q, Final, shuffled), BuildTable(q, Single, InputRows(pieces)))
    {
      forall i | 0 <= i < |pieces| ensures EmitsBack(q, pieces[i]) {
        EmitsBackWhenServed(floats, cs, pieces[i]);
      }
      PiecesMerge(q, q, rs, pieces, shuffled);
    }
  }

  // ---------------------------------------------------------------- rows that tell

  lemma StepsToStates(q: Query, mode: Mode, t: Table, row: Row, states: seq<ScalarValue>)
    requires IsTable(q, t) && |states| == |q.calls|
    requires forall j :: 0 <= j < |states| ==>
               StepOf(mode, q.calls[j])(StatesAt(q, t, KeyOf(q, row))[j], InputsOf(q, row)[j]) == Ok(states[j])
    ensures AddRow(q, mode, t, row) == Ok(t[KeyOf(q, row) := states])
  {
    var start, inputs := StatesAt(q, t, KeyOf(q, row)), InputsOf(q, row);
    StepStatesPointwise(q, mode, start, inputs, |q.calls|);
    assert StepStates(q, mode, start, inputs, |q.calls|).value == states;
  }

  lemma SecondRow(q: Query, mode: Mode, a: Row, b: Row, t: Table)
    requires BuildTable(q, mode, [a]) == Ok(t)
    ensures BuildTable(q, mode, [a, b]) == AddRow(q, mode, t, b)
  {
    assert [a, b][..1] == [a];
  }

  // The state after one value, which is always defined.
  function One(r: Reducer, v: ScalarValue): ScalarValue {
    if v.Null? then Initial(r) else if r.kind == Count then Int32(1) else v
  }

  function Ones(floats: FloatOps, cs: Columns, row: Row): (states: seq<ScalarValue>)
    requires Fits(cs)
    ensures |states| == |cs.kinds|
    ensures forall j :: 0 <= j < |states| ==>
              states[j] == One(Reducer(cs.kinds[j], floats), ColumnAt(cs.inputs[j])(row))
  {
    seq(|cs.kinds|, j requires 0 <= j < |cs.kinds| => One(Reducer(cs.kinds[j], floats), ColumnAt(cs.inputs[j])(row)))
  }

  lemma TableOfOne(floats: FloatOps, cs: Columns, row: Row)
    requires Fits(cs)
    ensures var q := QueryOf(floats, cs);
            BuildTable(q, Single, [row]) == Ok(map[KeyOf(q, row) := Ones(floats, cs, row)])
  {
    var q, states := QueryOf(floats, cs), Ones(floats, cs, row);
    Reads(floats, cs, row);
    forall j | 0 <= j < |states|
      ensures StepOf(Single, q.calls[j])(StatesAt(q, map[], KeyOf(q, row))[j], InputsOf(q, row)[j]) == Ok(states[j])
    {
      CallIs(floats, cs, j);
    }
    StepsToStates(q, Single, map[], row, states);
    FirstRow(q, Single, row);
  }

  // Two rows of one group.
  lemma TableOfTwo(floats: FloatOps, cs: Columns, a: Row, b: Row, states: seq<ScalarValue>)
    requires Fits(cs) && KeyOf(QueryOf(floats, cs), a) == KeyOf(QueryOf(floats, cs), b) && |states| == |cs.kinds|
    requires forall j :: 0 <= j < |states| ==>
               var r := Reducer(cs.kinds[j], floats);
               Accumulate(r, One(r, ColumnAt(cs.inputs[j])(a)), ColumnAt(cs.inputs[j])(b)) == Ok(states[j])
    ensures var q := QueryOf(floats, cs); BuildTable(q, Single, [a, b]) == Ok(map[KeyOf(q, a) := states])
  {
    hide AddRow, BuildTable, KeyOf, InputsOf, QueryOf, Accumulate, One;
    var q, key := QueryOf(floats, cs), KeyOf(QueryOf(floats, cs), a);
    TableOfOne(floats, cs, a);
    var t: Table := map[key := Ones(floats, cs, a)];
    Reads(floats, cs, b);
    forall j | 0 <= j < |states|
      ensures StepOf(Single, q.calls[j])(StatesAt(q, t, KeyOf(q, b))[j], InputsOf(q, b)[j]) == Ok(states[j])
    {
      CallIs(floats, cs, j);
    }
    StepsToStates(q, Single, t, b, states);
    SecondRow(q, Single, a, b, t);
    assert t[key := states] == map[key := states];
  }

  // The whole input as one piece with one group.
  lemma OnePiece(q: Query, rows: seq<Row>, key: Row, states: seq<ScalarValue>) returns (p: Piece)
    requires BuildTable(q, Single, rows) == Ok(map[key := states])
    ensures p.rows == rows && IsPiece(q, p)
    ensures InputRows([p]) == rows && PartialRows([p]) == [key + states]
  {
    hide BuildTable;
    p := Piece(rows, map[key := states], [key], [key + states]);
    ModesComeInTwo(q, Partial, Single, rows);
    assert [p][..0] == [];
    assert InputRows([p][..0]) == [] && PartialRows([p][..0]) == [];
  }

  // What one group's partial row must read as if the final stage is to be right about it.
  lemma OneGroupTells(floats: FloatOps, cs: Columns, rows: seq<Row>, key: Row, states: seq<ScalarValue>)
    requires Fits(cs) && ServesBoth(floats, cs)
    requires ExactRows(QueryOf(floats, cs), Reducers(floats, cs.kinds), rows) && |states| == |cs.kinds|
    requires BuildTable(QueryOf(floats, cs), Single, rows) == Ok(map[key := states])
    ensures |key| == |cs.group| && forall i :: 0 <= i < |cs.group| ==> ColumnAt(cs.group[i])(key + states) == key[i]
    ensures forall j :: 0 <= j < |cs.kinds| ==>
              var r := Reducer(cs.kinds[j], floats);
              Merge(r, Initial(r), ColumnAt(cs.inputs[j])(key + states)) == Ok(states[j])
  {
    hide ServesBoth, QueryOf, ExactRows, Merge, AddRow, BuildTable;
    OneGroupMerges(floats, cs, rows, key, states);
    FirstRow(QueryOf(floats, cs), Final, key + states);
    FinalOfOne(floats, cs, key + states, key, states);
  }

  lemma OneGroupMerges(floats: FloatOps, cs: Columns, rows: seq<Row>, key: Row, states: seq<ScalarValue>)
    requires Fits(cs) && ServesBoth(floats, cs)
    requires ExactRows(QueryOf(floats, cs), Reducers(floats, cs.kinds), rows)
    requires BuildTable(QueryOf(floats, cs), Single, rows) == Ok(map[key := states])
    ensures BuildTable(QueryOf(floats, cs), Final, [key + states]) == Ok(map[key := states])
  {
    hide QueryOf, ExactRows, BuildTable, IsPiece, Reduces;
    var q, rs, partial := QueryOf(floats, cs), Reducers(floats, cs.kinds), key + states;
    var p := OnePiece(q, rows, key, states);
    assert ArePieces(q, rs, [p]) && Shuffled([p], [partial]);
    assert SameOutcome(BuildTable(q, Final, [partial]), BuildTable(q, Single, rows));
  }

  lemma FinalOfOne(floats: FloatOps, cs: Columns, partial: Row, key: Row, states: seq<ScalarValue>)
    requires Fits(cs) && |states| == |cs.kinds|
    requires AddRow(QueryOf(floats, cs), Final, map[], partial) == Ok(map[key := states])
    ensures |key| == |cs.group| && forall i :: 0 <= i < |cs.group| ==> ColumnAt(cs.group[i])(partial) == key[i]
    ensures forall j :: 0 <= j < |cs.kinds| ==>
              var r := Reducer(cs.kinds[j], floats);
              Merge(r, Initial(r), ColumnAt(cs.inputs[j])(partial)) == Ok(states[j])
  {
    var q := QueryOf(floats, cs);
    Reads(floats, cs, partial);
    var start, inputs, t: Table := Fresh(q), InputsOf(q, partial), map[key := states];
    var out := StepStates(q, Final, start, inputs, |q.calls|);
    assert key in t && t == map[KeyOf(q, partial) := out.value];
    assert KeyOf(q, partial) == key && out.value == states;
    StepStatesPointwise(q, Final, start, inputs, |q.calls|);
    forall j | 0 <= j < |cs.kinds|
      ensures var r := Reducer(cs.kinds[j], floats);
              Merge(r, Initial(r), ColumnAt(cs.inputs[j])(partial)) == Ok(states[j])
    {
      CallIs(floats, cs, j);
    }
  }

  // ---------------------------------------------------------------- four inputs that tell

  function Above(indices: seq<nat>): (bound: nat)
    ensures forall i :: i in indices ==> i < bound
  {
    if indices == [] then 0
    else
      var last, rest := indices[|indices| - 1], Above(indices[..|indices| - 1]);
      assert forall i :: i in indices ==> i in indices[..|indices| - 1] || i == last;
      if last < rest then rest else last + 1
  }

  // A row that has every column the query names, with the cell each column is to hold.
  function RowOf(cs: Columns, cell: nat -> ScalarValue): (row: Row)
    ensures forall c :: c in cs.group || c in cs.inputs ==> ColumnAt(c)(row) == cell(c)
  {
    var width := Above(cs.group + cs.inputs);
    assert forall c :: c in cs.group || c in cs.inputs ==> c in cs.group + cs.inputs;
    seq(width, c requires 0 <= c < width => cell(c))
  }

  // A partial row, read by the final stage's columns.
  function CellAt(cs: Columns, key: Row, states: seq<ScalarValue>, c: nat): ScalarValue {
    ColumnAt(c)(key + states)
  }

  // The final stage finds the key and each state where it looks.
  ghost predicate Found(floats: FloatOps, cs: Columns, key: Row, states: seq<ScalarValue>)
    requires Fits(cs)
  {
    && |key| == |cs.group| && |states| == |cs.kinds|
    && (forall i :: 0 <= i < |cs.group| ==> CellAt(cs, key, states, cs.group[i]) == key[i])
    && (forall j :: 0 <= j < |cs.kinds| ==>
          var r := Reducer(cs.kinds[j], floats);
          Merge(r, Initial(r), CellAt(cs, key, states, cs.inputs[j])) == Ok(states[j]))
  }

  lemma ExactCells(floats: FloatOps, cs: Columns, cell: nat -> ScalarValue)
    requires Fits(cs) && forall c :: !IsFloat(cell(c))
    ensures ExactRow(QueryOf(floats, cs), Reducers(floats, cs.kinds), RowOf(cs, cell))
  {
    var row := RowOf(cs, cell);
    Reads(floats, cs, row);
    forall j | 0 <= j < |cs.kinds|
      ensures Exact(Reducers(floats, cs.kinds)[j], QueryOf(floats, cs).calls[j].input(row))
    {
      CallIs(floats, cs, j);
      assert cs.inputs[j] in cs.inputs;
    }
  }

  lemma KeyCell(floats: FloatOps, cs: Columns, cell: nat -> ScalarValue, i: nat)
    requires Fits(cs) && i < |cs.group|
    ensures |KeyOf(QueryOf(floats, cs), RowOf(cs, cell))| == |cs.group|
    ensures KeyOf(QueryOf(floats, cs), RowOf(cs, cell))[i] == cell(cs.group[i])
  {
    Reads(floats, cs, RowOf(cs, cell));
    assert cs.group[i] in cs.group;
  }

  // What one row tells.
  lemma OneRowTells(floats: FloatOps, cs: Columns, cell: nat -> ScalarValue)
    returns (key: Row, states: seq<ScalarValue>)
    requires Fits(cs) && ServesBoth(floats, cs)
    requires forall c :: !IsFloat(cell(c))
    ensures Found(floats, cs, key, states)
    ensures forall i :: 0 <= i < |cs.group| ==> key[i] == cell(cs.group[i])
    ensures forall j :: 0 <= j < |cs.kinds| ==> states[j] == One(Reducer(cs.kinds[j], floats), cell(cs.inputs[j]))
  {
    hide ServesBoth, ExactRow, QueryOf, KeyOf, BuildTable, RowOf;
    var row := RowOf(cs, cell);
    key, states := KeyOf(QueryOf(floats, cs), row), Ones(floats, cs, row);
    TableOfOne(floats, cs, row);
    ExactCells(floats, cs, cell);
    OneGroupTells(floats, cs, [row], key, states);
    forall i | 0 <= i < |cs.group| ensures key[i] == cell(cs.group[i]) {
      KeyCell(floats, cs, cell, i);
    }
    forall j | 0 <= j < |cs.kinds| ensures states[j] == One(Reducer(cs.kinds[j], floats), cell(cs.inputs[j])) {
      assert cs.inputs[j] in cs.inputs;
    }
  }

  // What two rows of one group tell.
  lemma TwoRowsTell(floats: FloatOps, cs: Columns, a: nat -> ScalarValue, b: nat -> ScalarValue,
                    states: seq<ScalarValue>)
    returns (key: Row)
    requires Fits(cs) && ServesBoth(floats, cs) && |states| == |cs.kinds|
    requires forall c :: !IsFloat(a(c)) && !IsFloat(b(c))
    requires forall c :: c in cs.group ==> a(c) == b(c)
    requires forall j :: 0 <= j < |states| ==>
               var r := Reducer(cs.kinds[j], floats);
               Accumulate(r, One(r, a(cs.inputs[j])), b(cs.inputs[j])) == Ok(states[j])
    ensures Found(floats, cs, key, states)
    ensures forall i :: 0 <= i < |cs.group| ==> key[i] == a(cs.group[i])
  {
    hide ServesBoth, ExactRow, QueryOf, KeyOf, BuildTable, RowOf, Accumulate, One;
    var q, first, second := QueryOf(floats, cs), RowOf(cs, a), RowOf(cs, b);
    key := KeyOf(q, first);
    Reads(floats, cs, first);
    Reads(floats, cs, second);
    forall i | 0 <= i < |cs.group| ensures key[i] == KeyOf(q, second)[i] == a(cs.group[i]) {
      KeyCell(floats, cs, a, i);
      KeyCell(floats, cs, b, i);
      assert cs.group[i] in cs.group;
    }
    assert key == KeyOf(q, second);
    forall j | 0 <= j < |states|
      ensures ColumnAt(cs.inputs[j])(first) == a(cs.inputs[j]) && ColumnAt(cs.inputs[j])(second) == b(cs.inputs[j])
    {
      assert cs.inputs[j] in cs.inputs;
    }
    TableOfTwo(floats, cs, first, second, states);
    ExactCells(floats, cs, a);
    ExactCells(floats, cs, b);
    OneGroupTells(floats, cs, [first, second], key, states);
  }

  // ---------------------------------------------------------------- it has to serve

  // As far as a row whose cells all differ can tell.
  predicate KeyPlaced(cs: Columns, i: nat)
    requires Fits(cs) && i < |cs.group|
  {
    var n, c := |cs.group|, cs.group[i];
    if c < n then cs.group[c] == c
    else c < n + |cs.kinds| && cs.kinds[c - n] != Count && cs.inputs[c - n] == c
  }

  predicate InputPlaced(cs: Columns, j: nat)
    requires Fits(cs) && j < |cs.kinds|
  {
    var n, c := |cs.group|, cs.inputs[j];
    if cs.kinds[j] == Count then n <= c < n + |cs.kinds| && cs.kinds[c - n] == Count
    else if c < n then cs.group[c] == c
    else c < n + |cs.kinds| && cs.kinds[c - n] != Count && cs.inputs[c - n] == c
  }

  // A cell that names its column.
  function Strokes(c: nat): (v: ScalarValue)
    ensures v.Utf8? && |v.s| == c
  {
    Utf8(seq(c, _ => '|'))
  }

  // What a state is after one row of strokes.
  ghost predicate Stroked(floats: FloatOps, cs: Columns, key: Row, states: seq<ScalarValue>)
    requires Fits(cs)
  {
    && |key| == |cs.group| && |states| == |cs.kinds|
    && (forall i :: 0 <= i < |cs.group| ==> key[i] == Strokes(cs.group[i]))
    && (forall j :: 0 <= j < |cs.kinds| ==>
          states[j] == if cs.kinds[j] == Count then Int32(1) else Strokes(cs.inputs[j]))
  }

  lemma PlacedKey(floats: FloatOps, cs: Columns, key: Row, states: seq<ScalarValue>, i: nat)
    requires Fits(cs) && Found(floats, cs, key, states) && Stroked(floats, cs, key, states) && i < |cs.group|
    ensures KeyPlaced(cs, i)
  {
    hide Strokes, Merge;
    assert CellAt(cs, key, states, cs.group[i]) == key[i] == Strokes(cs.group[i]);
  }

  lemma PlacedInput(floats: FloatOps, cs: Columns, key: Row, states: seq<ScalarValue>, j: nat)
    requires Fits(cs) && Found(floats, cs, key, states) && Stroked(floats, cs, key, states) && j < |cs.kinds|
    ensures InputPlaced(cs, j)
  {
    hide Strokes;
    var r, v := Reducer(cs.kinds[j], floats), CellAt(cs, key, states, cs.inputs[j]);
    assert Merge(r, Initial(r), v) == Ok(states[j]);
    if r.kind == Count {
      assert v.Int32?;
    } else {
      assert v == states[j] == Strokes(cs.inputs[j]);
    }
  }

  lemma EachColumnApart(floats: FloatOps, cs: Columns)
    requires Fits(cs) && ServesBoth(floats, cs)
    ensures forall i :: 0 <= i < |cs.group| ==> KeyPlaced(cs, i)
    ensures forall j :: 0 <= j < |cs.kinds| ==> InputPlaced(cs, j)
  {
    hide ServesBoth, QueryOf, Merge, KeyPlaced, InputPlaced, Strokes;
    var key, states := OneRowTells(floats, cs, Strokes);
    assert Stroked(floats, cs, key, states);
    forall i | 0 <= i < |cs.group| ensures KeyPlaced(cs, i) {
      PlacedKey(floats, cs, key, states, i);
    }
    forall j | 0 <= j < |cs.kinds| ensures InputPlaced(cs, j) {
      PlacedInput(floats, cs, key, states, j);
    }
  }

  // A count is read where its own column is counted.
  lemma CountsTell(floats: FloatOps, cs: Columns, j: nat)
    requires Fits(cs) && ServesBoth(floats, cs)
    requires j < |cs.kinds| && cs.kinds[j] == Count && InputPlaced(cs, j)
    ensures InputReads(cs, j)
  {
    hide ServesBoth, QueryOf;
    var c := cs.inputs[j];
    var key, states := OneRowTells(floats, cs, x => if x == c then Boolean(true) else Null);
    var r := Reducer(Count, floats);
    assert Merge(r, Initial(r), CellAt(cs, key, states, c)) == Ok(states[j]);
    assert CellAt(cs, key, states, c) == states[c - |cs.group|];
  }

  // The states after ones everywhere, and then one or two in column c and ones elsewhere.
  function AfterOnes(cs: Columns, c: nat, second: I8): (states: seq<ScalarValue>)
    requires Fits(cs) && 1 <= second <= 2
    ensures |states| == |cs.kinds|
    ensures forall j :: 0 <= j < |states| ==>
              var there := if cs.inputs[j] == c then second else 1;
              states[j] == match cs.kinds[j]
                           case Count => Int32(2)
                           case Sum => Int8(1 + there)
                           case Min => Int8(1)
                           case Max => Int8(there)
  {
    seq(|cs.kinds|, j requires 0 <= j < |cs.kinds| =>
      var there := if cs.inputs[j] == c then second else 1;
      match cs.kinds[j]
      case Count => Int32(2)
      case Sum => Int8(1 + there)
      case Min => Int8(1)
      case Max => Int8(there))
  }

  lemma OnesTell(floats: FloatOps, cs: Columns, c: nat, second: I8) returns (key: Row)
    requires Fits(cs) && ServesBoth(floats, cs)
    requires 1 <= second <= 2 && (c !in cs.group || second == 1)
    ensures Found(floats, cs, key, AfterOnes(cs, c, second))
    ensures forall i :: 0 <= i < |cs.group| ==> key[i] == Int8(1)
  {
    hide ServesBoth, QueryOf, Found;
    var a: nat -> ScalarValue, b: nat -> ScalarValue := _ => Int8(1), x => Int8(if x == c then second else 1);
    key := TwoRowsTell(floats, cs, a, b, AfterOnes(cs, c, second));
  }

  // What a row of ones tells of an aggregate other than a count.
  predicate SumsApart(cs: Columns, j: nat)
    requires Fits(cs) && j < |cs.kinds|
  {
    var n, c := |cs.group|, cs.inputs[j];
    if c < n then MinOrMax(cs.kinds[j]) else c < n + |cs.kinds| && (cs.kinds[c - n] == Sum <==> cs.kinds[j] == Sum)
  }

  // A sum is not what a key, a least or a greatest value is.
  lemma SumsTell(floats: FloatOps, cs: Columns)
    requires Fits(cs) && ServesBoth(floats, cs)
    requires forall i :: 0 <= i < |cs.group| ==> KeyPlaced(cs, i)
    requires forall j :: 0 <= j < |cs.kinds| ==> InputPlaced(cs, j)
    ensures forall i :: 0 <= i < |cs.group| ==> KeyReads(cs, i)
    ensures forall j :: 0 <= j < |cs.kinds| && cs.kinds[j] != Count ==> SumsApart(cs, j)
  {
    hide ServesBoth, QueryOf, Found, KeyPlaced, InputPlaced, KeyReads, SumsApart, CellAt;
    var key := OnesTell(floats, cs, 0, 1);
    forall i | 0 <= i < |cs.group| ensures KeyReads(cs, i) {
      OnesTellKey(floats, cs, key, i);
    }
    forall j | 0 <= j < |cs.kinds| && cs.kinds[j] != Count ensures SumsApart(cs, j) {
      OnesTellInput(floats, cs, key, j);
    }
  }

  lemma OnesTellKey(floats: FloatOps, cs: Columns, key: Row, i: nat)
    requires Fits(cs) && Found(floats, cs, key, AfterOnes(cs, 0, 1)) && i < |cs.group| && KeyPlaced(cs, i)
    requires forall x :: 0 <= x < |cs.group| ==> key[x] == Int8(1)
    ensures KeyReads(cs, i)
  {
    hide Merge;
    assert CellAt(cs, key, AfterOnes(cs, 0, 1), cs.group[i]) == key[i];
  }

  lemma OnesTellInput(floats: FloatOps, cs: Columns, key: Row, j: nat)
    requires Fits(cs) && Found(floats, cs, key, AfterOnes(cs, 0, 1))
    requires j < |cs.kinds| && cs.kinds[j] != Count && InputPlaced(cs, j)
    requires forall x :: 0 <= x < |cs.group| ==> key[x] == Int8(1)
    ensures SumsApart(cs, j)
  {
    hide Found;
    StateFound(floats, cs, key, AfterOnes(cs, 0, 1), j);
  }

  lemma StateFound(floats: FloatOps, cs: Columns, key: Row, states: seq<ScalarValue>, j: nat)
    requires Fits(cs) && Found(floats, cs, key, states) && j < |cs.kinds| && cs.kinds[j] != Count
    ensures |key| == |cs.group| && |states| == |cs.kinds| && CellAt(cs, key, states, cs.inputs[j]) == states[j]
  {
  }

  // A least value is not the greatest unless the column is a key.
  lemma ExtremesTell(floats: FloatOps, cs: Columns, j: nat)
    requires Fits(cs) && ServesBoth(floats, cs)
    requires j < |cs.kinds| && MinOrMax(cs.kinds[j])
    requires |cs.group| <= cs.inputs[j] < |cs.group| + |cs.kinds| && cs.inputs[j] !in cs.group
    requires var x := cs.inputs[j] - |cs.group|; MinOrMax(cs.kinds[x]) && cs.inputs[x] == cs.inputs[j]
    ensures cs.kinds[cs.inputs[j] - |cs.group|] == cs.kinds[j]
  {
    hide ServesBoth, QueryOf, Found;
    var c := cs.inputs[j];
    var key := OnesTell(floats, cs, c, 2);
    var states := AfterOnes(cs, c, 2);
    StateFound(floats, cs, key, states, j);
    assert CellAt(cs, key, states, c) == states[c - |cs.group|];
  }

  lemma MergesServed(floats: FloatOps, cs: Columns)
    requires Fits(cs) && ServesBoth(floats, cs)
    ensures Serves(cs)
  {
    hide ServesBoth, QueryOf, KeyPlaced, KeyReads;
    EachColumnApart(floats, cs);
    SumsTell(floats, cs);
    forall j | 0 <= j < |cs.kinds| ensures InputReads(cs, j) {
      var n, c := |cs.group|, cs.inputs[j];
      assert InputPlaced(cs, j);
      assert cs.kinds[j] != Count ==> SumsApart(cs, j);
      if cs.kinds[j] == Count {
        CountsTell(floats, cs, j);
      } else if c >= n && c !in cs.group && MinOrMax(cs.kinds[j]) {
        ExtremesTell(floats, cs, j);
      }
    }
  }

  /** A query over plain columns serves both stages, on every input, cut and shuffled in any
      way, exactly when each of its columns finds on a partial row what it found on the input:
      a condition on the query alone. */
  lemma OneQueryServesBoth(floats: FloatOps, cs: Columns)
    requires Fits(cs)
    ensures ServesBoth(floats, cs) <==> Serves(cs)
  {
    if Serves(cs) {
      ServedMerges(floats, cs);
    } else if ServesBoth(floats, cs) {
      MergesServed(floats, cs);
    }
  }
}
