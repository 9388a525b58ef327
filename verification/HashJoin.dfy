/** The hash join: the right side is indexed by key, the left side probes it, and a
    right join finally adds the right rows nothing matched. */
module HashJoin {
  import opened Results
  import opened Scalars
  import opened Sequences
  import opened Batches
  import L = LogicalPlan

  // An expression of the join condition: only plain columns can be joined on.
  datatype KeyExpr = KeyColumn(index: nat) | OtherExpr

  datatype Join = Join(
    joinType: L.JoinType, leftKeys: seq<nat>, rightKeys: seq<nat>, excluded: set<nat>,
    leftWidth: nat, rightWidth: nat, width: nat, required: set<nat>)

  predicate Conform(rows: seq<Row>, width: nat) {
    forall row :: row in rows ==> |row| == width
  }

  predicate KeysInRange(j: Join) {
    && (forall k :: k in j.leftKeys ==> k < j.leftWidth)
    && (forall k :: k in j.rightKeys ==> k < j.rightWidth)
  }

  // ---------------------------------------------------------------- nested loops

  function KeyOf(keys: seq<nat>, row: Row): (key: Row)
    ensures |key| == |keys|
    ensures forall i :: 0 <= i < |keys| ==> key[i] == if keys[i] < |row| then row[keys[i]] else Null
  {
    seq(|keys|, i requires 0 <= i < |keys| => if keys[i] < |row| then row[keys[i]] else Null)
  }

  // The cells of a right row that are not dropped.
  function Kept(row: Row, excluded: set<nat>): Row {
    if row == [] then []
    else
      Kept(row[..|row| - 1], excluded) + (if |row| - 1 in excluded then [] else [row[|row| - 1]])
  }

  function Joined(j: Join, left: Row, right: Row): Row {
    left + Kept(right, j.excluded)
  }

  predicate Match(j: Join, left: Row, right: Row) {
    RowKeyEq(KeyOf(j.leftKeys, left), KeyOf(j.rightKeys, right))
  }

  // Every match of one left row, in right order.
  function PairsOf(j: Join, left: Row, rights: seq<Row>): seq<Row> {
    if rights == [] then []
    else
      PairsOf(j, left, rights[..|rights| - 1])
      + (if Match(j, left, rights[|rights| - 1]) then [Joined(j, left, rights[|rights| - 1])] else [])
  }

  function ForLeft(j: Join, left: Row, rights: seq<Row>): seq<Row> {
    if PairsOf(j, left, rights) == [] && j.joinType == L.LeftOuter then [Joined(j, left, L.Nulls(j.rightWidth))]
    else PairsOf(j, left, rights)
  }

  function Contribution(j: Join, rights: seq<Row>): Row -> seq<Row> {
    (left: Row) => ForLeft(j, left, rights)
  }

  // Left-then-right nested loops.
  function NestedLoop(j: Join, lefts: seq<Row>, rights: seq<Row>): seq<Row> {
    FlatMap(Contribution(j, rights), lefts)
  }

  predicate Unmatched(j: Join, lefts: seq<Row>, right: Row) {
    forall left :: left in lefts ==> !Match(j, left, right)
  }

  // The right rows no left row matches, with nulls on the left.
  function UnmatchedRows(j: Join, lefts: seq<Row>, rights: seq<Row>): seq<Row> {
    if rights == [] then []
    else
      UnmatchedRows(j, lefts, rights[..|rights| - 1])
      + (if Unmatched(j, lefts, rights[|rights| - 1]) then [Joined(j, L.Nulls(j.leftWidth), rights[|rights| - 1])]
         else [])
  }

  // What each left batch yields.
  function Found(j: Join, lefts: seq<RecordBatch>, rights: seq<Row>): (found: seq<seq<Row>>)
    requires AllValid(lefts)
    ensures |found| == |lefts|
  {
    if lefts == [] then []
    else Found(j, lefts[..|lefts| - 1], rights) + [NestedLoop(j, Rows(lefts[|lefts| - 1]), rights)]
  }

  lemma {:induction false} FoundAt(j: Join, lefts: seq<RecordBatch>, rights: seq<Row>, i: nat)
    requires AllValid(lefts) && i < |lefts|
    ensures Found(j, lefts, rights)[i] == NestedLoop(j, Rows(lefts[i]), rights)
  {
    if i < |lefts| - 1 {
      FoundAt(j, lefts[..|lefts| - 1], rights, i);
    }
  }

  // How the left side is cut into batches makes no difference.
  lemma {:induction false} FoundFlatten(j: Join, lefts: seq<RecordBatch>, rights: seq<Row>)
    requires AllValid(lefts)
    ensures Flatten(Found(j, lefts, rights)) == NestedLoop(j, AllRows(lefts), rights)
  {
    if lefts != [] {
      var front, last := lefts[..|lefts| - 1], lefts[|lefts| - 1];
      FoundFlatten(j, front, rights);
      FlatMapAppend(Contribution(j, rights), AllRows(front), Rows(last));
      FlattenPush(Found(j, front, rights), NestedLoop(j, Rows(last), rights));
    }
  }

  // ---------------------------------------------------------------- output widths

  function KeptCount(n: nat, excluded: set<nat>): nat {
    if n == 0 then 0 else KeptCount(n - 1, excluded) + if n - 1 in excluded then 0 else 1
  }

  function RowWidth(j: Join): nat {
    j.leftWidth + KeptCount(j.rightWidth, j.excluded)
  }

  lemma {:induction false} KeptWidth(row: Row, excluded: set<nat>)
    ensures |Kept(row, excluded)| == KeptCount(|row|, excluded)
  {
    if row != [] {
      KeptWidth(row[..|row| - 1], excluded);
    }
  }

  lemma {:induction false} PairsConform(j: Join, left: Row, rights: seq<Row>)
    requires |left| == j.leftWidth && Conform(rights, j.rightWidth)
    ensures Conform(PairsOf(j, left, rights), RowWidth(j))
  {
    if rights != [] {
      assert rights[|rights| - 1] in rights;
      KeptWidth(rights[|rights| - 1], j.excluded);
      PairsConform(j, left, rights[..|rights| - 1]);
    }
  }

  lemma {:induction false} NestedLoopConforms(j: Join, lefts: seq<Row>, rights: seq<Row>)
    requires Conform(lefts, j.leftWidth) && Conform(rights, j.rightWidth)
    ensures Conform(NestedLoop(j, lefts, rights), RowWidth(j))
  {
    if lefts != [] {
      assert lefts[|lefts| - 1] in lefts;
      NestedLoopConforms(j, lefts[..|lefts| - 1], rights);
      PairsConform(j, lefts[|lefts| - 1], rights);
      KeptWidth(L.Nulls(j.rightWidth), j.excluded);
    }
  }

  // ---------------------------------------------------------------- the operator's parts

  method CombineRows(left: Row, right: Row, excluded: set<nat>) returns (row: Row)
    ensures row == left + Kept(right, excluded)
  {
    row := left;
    for i := 0 to |right|
      invariant row == left + Kept(right[..i], excluded)
    {
      assert right[..i + 1][..i] == right[..i];
      if i !in excluded {
        row := row + [right[i]];
      }
    }
    assert right[..|right|] == right;
  }

  function OnIndex(e: KeyExpr): Result<nat> {
    if e.KeyColumn? then Ok(e.index) else Err(Internal)
  }

  // Both sides' key columns; a condition on anything but columns is refused.
  method LowerKeys(on: seq<(KeyExpr, KeyExpr)>) returns (r: Result<(seq<nat>, seq<nat>)>)
    ensures r.Ok? <==> forall k :: k in on ==> k.0.KeyColumn? && k.1.KeyColumn?
    ensures r.Err? ==> r.error == Internal
    ensures r.Ok? ==> |r.value.0| == |r.value.1| == |on|
    ensures r.Ok? ==> forall i :: 0 <= i < |on| ==> on[i] == (KeyColumn(r.value.0[i]), KeyColumn(r.value.1[i]))
  {
    var lefts, rights := [], [];
    for i := 0 to |on|
      invariant |lefts| == |rights| == i
      invariant forall k :: 0 <= k < i ==> on[k] == (KeyColumn(lefts[k]), KeyColumn(rights[k]))
    {
      var l :- OnIndex(on[i].0);
      var r :- OnIndex(on[i].1);
      lefts, rights := lefts + [l], rights + [r];
    }
    return Ok((lefts, rights));
  }

  // The rows with one key, in input order.
  function WithKey(keys: seq<nat>, rows: seq<Row>, key: Row): seq<Row> {
    if rows == [] then []
    else
      WithKey(keys, rows[..|rows| - 1], key)
      + (if KeyOf(keys, rows[|rows| - 1]) == key then [rows[|rows| - 1]] else [])
  }

  type Index = map<Row, seq<Row>>

  // The hash table holds every row under its key and no empty entry.
  ghost predicate IsIndex(table: Index, keys: seq<nat>, rows: seq<Row>) {
    && (forall key :: key in table ==> table[key] == WithKey(keys, rows, key) != [])
    && (forall key :: key !in table ==> WithKey(keys, rows, key) == [])
  }

  lemma IndexPush(table: Index, keys: seq<nat>, rows: seq<Row>, row: Row)
    requires IsIndex(table, keys, rows)
    ensures var key := KeyOf(keys, row);
            IsIndex(table[key := (if key in table then table[key] else []) + [row]], keys, rows + [row])
  {
    assert (rows + [row])[..|rows|] == rows;
  }

  method AddToIndex(keys: seq<nat>, table: Index, b: RecordBatch, ghost seen: seq<Row>) returns (out: Index)
    requires Valid(b) && IsIndex(table, keys, seen)
    ensures IsIndex(out, keys, seen + Rows(b))
  {
    out := table;
    ghost var rows := seen;
    for i := 0 to b.numRows
      invariant rows == seen + Rows(b)[..i]
      invariant IsIndex(out, keys, rows)
    {
      var row := RowAt(b, i);
      var key := KeyOf(keys, row);
      IndexPush(out, keys, rows, row);
      out := out[key := (if key in out then out[key] else []) + [row]];
      rows := rows + [row];
      assert Rows(b)[..i + 1] == Rows(b)[..i] + [row];
    }
    assert rows == seen + Rows(b);
  }

  method Build(keys: seq<nat>, rights: seq<RecordBatch>) returns (table: Index)
    requires AllValid(rights)
    ensures IsIndex(table, keys, AllRows(rights))
  {
    table := map[];
    ghost var rows := [];
    for i := 0 to |rights|
      invariant rows == AllRows(rights[..i])
      invariant IsIndex(table, keys, rows)
    {
      table := AddToIndex(keys, table, rights[i], rows);
      rows := rows + Rows(rights[i]);
      assert rights[..i + 1][..i] == rights[..i];
    }
    assert rights[..|rights|] == rights;
  }

  function JoinedAll(j: Join, left: Row, rights: seq<Row>): seq<Row> {
    if rights == [] then []
    else JoinedAll(j, left, rights[..|rights| - 1]) + [Joined(j, left, rights[|rights| - 1])]
  }

  lemma {:induction false} PairsByKey(j: Join, left: Row, rights: seq<Row>)
    ensures PairsOf(j, left, rights) == JoinedAll(j, left, WithKey(j.rightKeys, rights, KeyOf(j.leftKeys, left)))
    ensures PairsOf(j, left, rights) == [] <==> WithKey(j.rightKeys, rights, KeyOf(j.leftKeys, left)) == []
  {
    if rights != [] {
      var front, last := rights[..|rights| - 1], rights[|rights| - 1];
      var found := WithKey(j.rightKeys, front, KeyOf(j.leftKeys, left));
      PairsByKey(j, left, front);
      RowKeyEqIsIdentity(KeyOf(j.leftKeys, left), KeyOf(j.rightKeys, last));
      assert (found + [last])[..|found|] == found;
      assert found + [] == found;
    }
  }

  method JoinAll(j: Join, left: Row, rights: seq<Row>) returns (rows: seq<Row>)
    ensures rows == JoinedAll(j, left, rights)
  {
    rows := [];
    for i := 0 to |rights|
      invariant rows == JoinedAll(j, left, rights[..i])
    {
      assert rights[..i + 1][..i] == rights[..i];
      var row := CombineRows(left, rights[i], j.excluded);
      rows := rows + [row];
    }
    assert rights[..|rights|] == rights;
  }

  method ProbeRow(j: Join, table: Index, left: Row, ghost rights: seq<Row>) returns (rows: seq<Row>)
    requires IsIndex(table, j.rightKeys, rights)
    ensures rows == ForLeft(j, left, rights)
  {
    PairsByKey(j, left, rights);
    var key := KeyOf(j.leftKeys, left);
    rows := [];
    if key in table {
      rows := JoinAll(j, left, table[key]);
    } else if j.joinType == L.LeftOuter {
      var row := CombineRows(left, L.Nulls(j.rightWidth), j.excluded);
      rows := [row];
    }
  }

  method ProbeBatch(j: Join, table: Index, b: RecordBatch, ghost rights: seq<Row>) returns (rows: seq<Row>)
    requires Valid(b) && IsIndex(table, j.rightKeys, rights)
    ensures rows == NestedLoop(j, Rows(b), rights)
  {
    rows := [];
    for i := 0 to b.numRows
      invariant rows == NestedLoop(j, Rows(b)[..i], rights)
    {
      FlatMapPush(Contribution(j, rights), Rows(b)[..i], RowAt(b, i));
      assert Rows(b)[..i + 1] == Rows(b)[..i] + [RowAt(b, i)];
      var found := ProbeRow(j, table, RowAt(b, i), rights);
      rows := rows + found;
    }
    assert Rows(b)[..b.numRows] == Rows(b);
  }

  ghost predicate AllConform(batches: seq<RecordBatch>, width: nat) {
    AllValid(batches) && forall b :: b in batches ==> Conform(Rows(b), width)
  }

  // No null stands where the output schema allows none.
  ghost predicate AllFit(j: Join, outputs: seq<seq<Row>>) {
    forall rows :: rows in outputs ==> NullsFit(j.required, rows)
  }

  // The batches handed on: one per group of rows when rows are as wide as the schema.
  // Rows of another width make no batch, nor do nulls in required columns.
  ghost predicate Delivers(j: Join, outputs: seq<seq<Row>>, out: seq<RecordBatch>) {
    && Shaped(out, j.width)
    && (RowWidth(j) == j.width > 0 ==> AllFit(j, outputs) && BatchRows(out) == outputs)
    && (RowWidth(j) != j.width && RowWidth(j) > 0 ==> outputs == [])
  }

  // A row wider than the schema runs past the builders, a narrower one leaves them uneven.
  function WidthError(j: Join): Error {
    if RowWidth(j) > j.width then Panic else Internal
  }

  // The error these outputs end in: some do not fit.
  ghost predicate Fails(j: Join, outputs: seq<seq<Row>>, e: Error) {
    && e == WidthError(j)
    && (RowWidth(j) == j.width > 0 ==> !AllFit(j, outputs))
  }

  // Rows are handed on as one batch, if there are any.
  method Emit(j: Join, rows: seq<Row>, out: seq<RecordBatch>, ghost outputs: seq<seq<Row>>)
    returns (r: Result<seq<RecordBatch>>)
    requires Conform(rows, RowWidth(j)) && Delivers(j, outputs, out)
    ensures r.Ok? ==> Delivers(j, outputs + Group(rows), r.value)
    ensures r.Err? ==> Fails(j, outputs + Group(rows), r.error)
  {
    if rows == [] {
      assert outputs + [] == outputs;
      return Ok(out);
    }
    assert rows[0] in rows && rows in outputs + Group(rows);
    var b :- CreateBatch(rows, j.width, j.required);
    assert (out + [b])[..|out|] == out;
    return Ok(out + [b]);
  }

  method ProbeAndEmit(j: Join, table: Index, b: RecordBatch, out: seq<RecordBatch>,
                      ghost rights: seq<Row>, ghost found: seq<Row>, ghost outputs: seq<seq<Row>>)
    returns (r: Result<seq<RecordBatch>>)
    requires Valid(b) && Conform(Rows(b), j.leftWidth) && Conform(rights, j.rightWidth)
    requires IsIndex(table, j.rightKeys, rights) && found == NestedLoop(j, Rows(b), rights)
    requires Delivers(j, outputs, out)
    ensures r.Ok? ==> Delivers(j, outputs + Group(found), r.value)
    ensures r.Err? ==> Fails(j, outputs + Group(found), r.error)
  {
    NestedLoopConforms(j, Rows(b), rights);
    var rows := ProbeBatch(j, table, b, rights);
    r := Emit(j, rows, out, outputs);
  }

  lemma {:induction false} FailsToo(j: Join, outputs: seq<seq<Row>>, rest: seq<seq<Row>>, e: Error)
    requires Fails(j, outputs, e)
    ensures Fails(j, CollectNonEmpty(outputs, rest), e)
    decreases rest
  {
    if rest != [] {
      assert forall rows :: rows in outputs ==> rows in outputs + Group(rest[0]);
      FailsToo(j, outputs + Group(rest[0]), rest[1..], e);
    }
  }

  lemma NothingDelivered(j: Join)
    ensures Delivers(j, [], [])
  {
  }

  // One output batch per left batch that yields any row.
  method Probe(j: Join, table: Index, lefts: seq<RecordBatch>, ghost rights: seq<Row>)
    returns (r: Result<seq<RecordBatch>>)
    requires AllConform(lefts, j.leftWidth) && Conform(rights, j.rightWidth)
    requires IsIndex(table, j.rightKeys, rights)
    ensures r.Ok? ==> Delivers(j, NonEmpty(Found(j, lefts, rights)), r.value)
    ensures r.Err? ==> Fails(j, NonEmpty(Found(j, lefts, rights)), r.error)
  {
    hide Delivers, Fails, NestedLoop;
    var out := [];
    NothingDelivered(j);
    ghost var found, outputs := Found(j, lefts, rights), [];
    ghost var rest := found;
    CollectIsNonEmpty([], found);
    assert [] + NonEmpty(found) == NonEmpty(found);
    for i := 0 to |lefts|
      invariant rest == found[i..]
      invariant CollectNonEmpty(outputs, rest) == NonEmpty(found)
      invariant Delivers(j, outputs, out)
    {
      FoundAt(j, lefts, rights, i);
      var emitted := ProbeAndEmit(j, table, lefts[i], out, rights, rest[0], outputs);
      if emitted.Err? {
        FailsToo(j, outputs + Group(rest[0]), rest[1..], emitted.error);
        return Err(emitted.error);
      }
      outputs, rest, out := outputs + Group(rest[0]), rest[1..], emitted.value;
    }
    assert rest == [];
    return Ok(out);
  }

  // ---------------------------------------------------------------- unmatched right rows

  function KeysOf(keys: seq<nat>, rows: seq<Row>): set<Row> {
    if rows == [] then {} else KeysOf(keys, rows[..|rows| - 1]) + {KeyOf(keys, rows[|rows| - 1])}
  }

  // The second scan of the left side collects the keys that occur in the table.
  method MatchedKeys(j: Join, table: Index, lefts: seq<RecordBatch>) returns (matched: set<Row>)
    requires AllValid(lefts)
    ensures matched == KeysOf(j.leftKeys, AllRows(lefts)) * table.Keys
  {
    matched := {};
    for b := 0 to |lefts|
      invariant matched == KeysOf(j.leftKeys, AllRows(lefts[..b])) * table.Keys
    {
      assert lefts[..b + 1][..b] == lefts[..b];
      matched := MatchedInBatch(j, table, lefts[b], matched, AllRows(lefts[..b]));
    }
    assert lefts[..|lefts|] == lefts;
  }

  lemma KeysOfPush(keys: seq<nat>, rows: seq<Row>, row: Row)
    ensures KeysOf(keys, rows + [row]) == KeysOf(keys, rows) + {KeyOf(keys, row)}
  {
    assert (rows + [row])[..|rows|] == rows;
  }

  method MatchedInBatch(j: Join, table: Index, b: RecordBatch, before: set<Row>, ghost seen: seq<Row>)
    returns (matched: set<Row>)
    requires Valid(b) && before == KeysOf(j.leftKeys, seen) * table.Keys
    ensures matched == KeysOf(j.leftKeys, seen + Rows(b)) * table.Keys
  {
    matched := before;
    ghost var rows := seen;
    for i := 0 to b.numRows
      invariant rows == seen + Rows(b)[..i]
      invariant matched == KeysOf(j.leftKeys, rows) * table.Keys
    {
      var key := KeyOf(j.leftKeys, RowAt(b, i));
      KeysOfPush(j.leftKeys, rows, RowAt(b, i));
      rows := rows + [RowAt(b, i)];
      assert Rows(b)[..i + 1] == Rows(b)[..i] + [RowAt(b, i)];
      if key in table {
        matched := matched + {key};
      }
    }
    assert rows == seen + Rows(b);
  }

  function Padded(j: Join, right: Row): Row {
    Joined(j, L.Nulls(j.leftWidth), right)
  }

  // The right rows under some keys, with nulls on the left.
  function PaddedUnder(j: Join, rights: seq<Row>, keys: set<Row>): seq<Row> {
    if rights == [] then []
    else
      PaddedUnder(j, rights[..|rights| - 1], keys)
      + (if KeyOf(j.rightKeys, rights[|rights| - 1]) in keys then [Padded(j, rights[|rights| - 1])] else [])
  }

  lemma {:induction false} PaddedUnderOne(j: Join, rights: seq<Row>, key: Row)
    ensures PaddedUnder(j, rights, {key}) == JoinedAll(j, L.Nulls(j.leftWidth), WithKey(j.rightKeys, rights, key))
  {
    if rights != [] {
      var front, last := rights[..|rights| - 1], rights[|rights| - 1];
      var found := WithKey(j.rightKeys, front, key);
      PaddedUnderOne(j, front, key);
      assert (found + [last])[..|found|] == found;
      assert found + [] == found;
    }
  }

  lemma {:induction false} PaddedUnderAdds(j: Join, rights: seq<Row>, keys: set<Row>, key: Row)
    requires key !in keys
    ensures multiset(PaddedUnder(j, rights, keys + {key}))
            == multiset(PaddedUnder(j, rights, keys)) + multiset(PaddedUnder(j, rights, {key}))
  {
    if rights != [] {
      PaddedUnderAdds(j, rights[..|rights| - 1], keys, key);
    }
  }

  lemma {:induction false} NothingPadded(j: Join, rights: seq<Row>)
    ensures PaddedUnder(j, rights, {}) == []
  {
    if rights != [] {
      NothingPadded(j, rights[..|rights| - 1]);
    }
  }

  lemma OneMoreKey(j: Join, rights: seq<Row>, keys: set<Row>, key: Row, rows: seq<Row>, padded: seq<Row>)
    requires key !in keys && multiset(rows) == multiset(PaddedUnder(j, rights, keys))
    requires padded == JoinedAll(j, L.Nulls(j.leftWidth), WithKey(j.rightKeys, rights, key))
    ensures multiset(rows + padded) == multiset(PaddedUnder(j, rights, keys + {key}))
  {
    PaddedUnderOne(j, rights, key);
    PaddedUnderAdds(j, rights, keys, key);
  }

  // The table's entries are visited in arbitrary order.
  method CollectUnmatched(j: Join, table: Index, matched: set<Row>, ghost rights: seq<Row>) returns (rows: seq<Row>)
    requires IsIndex(table, j.rightKeys, rights)
    ensures multiset(rows) == multiset(PaddedUnder(j, rights, table.Keys - matched))
  {
    hide PaddedUnder, JoinedAll;
    rows := [];
    var keys := table.Keys;
    ghost var done := {};
    NothingPadded(j, rights);
    while keys != {}
      invariant keys <= table.Keys && done == (table.Keys - keys) - matched
      invariant multiset(rows) == multiset(PaddedUnder(j, rights, done))
      decreases |keys|
    {
      var key :| key in keys;
      keys := keys - {key};
      if key !in matched {
        var padded := JoinAll(j, L.Nulls(j.leftWidth), table[key]);
        OneMoreKey(j, rights, done, key, rows, padded);
        rows := rows + padded;
        done := done + {key};
      }
    }
    assert done == table.Keys - matched;
  }

  lemma {:induction false} KeysOfMember(keys: seq<nat>, rows: seq<Row>, key: Row)
    ensures key in KeysOf(keys, rows) <==> exists row :: row in rows && KeyOf(keys, row) == key
  {
    if rows != [] {
      var front, last := rows[..|rows| - 1], rows[|rows| - 1];
      KeysOfMember(keys, front, key);
      assert rows == front + [last];
      assert last in rows;
    }
  }

  // A right row is unmatched when its key does not occur on the left.
  lemma UnmatchedByKey(j: Join, lefts: seq<Row>, right: Row)
    ensures Unmatched(j, lefts, right) <==> KeyOf(j.rightKeys, right) !in KeysOf(j.leftKeys, lefts)
  {
    KeysOfMember(j.leftKeys, lefts, KeyOf(j.rightKeys, right));
    forall left ensures Match(j, left, right) <==> KeyOf(j.leftKeys, left) == KeyOf(j.rightKeys, right) {
      RowKeyEqIsIdentity(KeyOf(j.leftKeys, left), KeyOf(j.rightKeys, right));
    }
  }

  lemma {:induction false} UnmatchedArePadded(j: Join, lefts: seq<Row>, rights: seq<Row>, keys: set<Row>)
    requires forall right :: right in rights ==>
               (KeyOf(j.rightKeys, right) in keys <==> KeyOf(j.rightKeys, right) !in KeysOf(j.leftKeys, lefts))
    ensures UnmatchedRows(j, lefts, rights) == PaddedUnder(j, rights, keys)
  {
    if rights != [] {
      UnmatchedByKey(j, lefts, rights[|rights| - 1]);
      UnmatchedArePadded(j, lefts, rights[..|rights| - 1], keys);
    }
  }

  lemma {:induction false} RowIsUnderItsKey(keys: seq<nat>, rows: seq<Row>, row: Row)
    requires row in rows
    ensures WithKey(keys, rows, KeyOf(keys, row)) != []
  {
    if row != rows[|rows| - 1] {
      RowIsUnderItsKey(keys, rows[..|rows| - 1], row);
    }
  }

  lemma {:induction false} UnmatchedConform(j: Join, lefts: seq<Row>, rights: seq<Row>)
    requires Conform(rights, j.rightWidth)
    ensures Conform(UnmatchedRows(j, lefts, rights), RowWidth(j))
  {
    if rights != [] {
      assert rights[|rights| - 1] in rights;
      KeptWidth(rights[|rights| - 1], j.excluded);
      UnmatchedConform(j, lefts, rights[..|rights| - 1]);
    }
  }

  // `again` is what the left side yields when it is run a second time.
  method UnmatchedRight(j: Join, table: Index, again: seq<RecordBatch>, ghost rights: seq<Row>) returns (rows: seq<Row>)
    requires AllValid(again) && IsIndex(table, j.rightKeys, rights) && Conform(rights, j.rightWidth)
    ensures multiset(rows) == multiset(UnmatchedRows(j, AllRows(again), rights))
    ensures Conform(rows, RowWidth(j))
  {
    var matched := MatchedKeys(j, table, again);
    rows := CollectUnmatched(j, table, matched, rights);
    forall right | right in rights
      ensures KeyOf(j.rightKeys, right) in table.Keys - matched
              <==> KeyOf(j.rightKeys, right) !in KeysOf(j.leftKeys, AllRows(again))
    {
      RowIsUnderItsKey(j.rightKeys, rights, right);
    }
    UnmatchedArePadded(j, AllRows(again), rights, table.Keys - matched);
    UnmatchedConform(j, AllRows(again), rights);
    forall row | row in rows ensures |row| == RowWidth(j) {
      assert row in multiset(rows);
      assert row in UnmatchedRows(j, AllRows(again), rights);
    }
  }

  // ---------------------------------------------------------------- the operator

  datatype HashJoinExec = HashJoinExec(
    joinType: L.JoinType, on: seq<(KeyExpr, KeyExpr)>, excluded: set<nat>,
    leftWidth: nat, rightWidth: nat, width: nat, required: set<nat>)

  predicate Supported(t: L.JoinType) {
    t == L.Inner || t == L.LeftOuter || t == L.RightOuter
  }

  predicate OnColumns(on: seq<(KeyExpr, KeyExpr)>) {
    forall k :: k in on ==> k.0.KeyColumn? && k.1.KeyColumn?
  }

  function LeftKeys(on: seq<(KeyExpr, KeyExpr)>): (keys: seq<nat>)
    requires OnColumns(on)
    ensures |keys| == |on| && forall i :: 0 <= i < |on| ==> KeyColumn(keys[i]) == on[i].0
  {
    seq(|on|, i requires 0 <= i < |on| => on[i].0.index)
  }

  function RightKeys(on: seq<(KeyExpr, KeyExpr)>): (keys: seq<nat>)
    requires OnColumns(on)
    ensures |keys| == |on| && forall i :: 0 <= i < |on| ==> KeyColumn(keys[i]) == on[i].1
  {
    seq(|on|, i requires 0 <= i < |on| => on[i].1.index)
  }

  function Lowered(e: HashJoinExec): Join
    requires OnColumns(e.on)
  {
    Join(e.joinType, LeftKeys(e.on), RightKeys(e.on), e.excluded, e.leftWidth, e.rightWidth, e.width, e.required)
  }

  predicate Runs(e: HashJoinExec, partition: nat) {
    partition == 0 && Supported(e.joinType) && OnColumns(e.on)
  }

  // All the rows a join is to produce: the matches, then for a right join what `again`,
  // the second run of the left side, leaves unmatched.
  function Expected(j: Join, lefts: seq<Row>, rights: seq<Row>, again: seq<Row>): seq<Row> {
    NestedLoop(j, lefts, rights) + (if j.joinType == L.RightOuter then UnmatchedRows(j, again, rights) else [])
  }

  /** Build, probe and, for a right join, the unmatched rows. When joined rows are as
      wide as the output schema the join succeeds unless a null stands in a required column:
      its batches start with one per left batch that has output, the flattened matches are
      the nested loop's sequence however either side is cut, and a right join adds the
      unmatched rows in some order. When they are not, and there are any, it fails. */
  method Execute(e: HashJoinExec, partition: nat, lefts: seq<RecordBatch>, rights: seq<RecordBatch>,
                 again: seq<RecordBatch>)
    returns (r: Result<seq<RecordBatch>>)
    requires OnColumns(e.on) ==> KeysInRange(Lowered(e))
    requires AllConform(lefts, e.leftWidth) && AllConform(rights, e.rightWidth) && AllConform(again, e.leftWidth)
    ensures !Runs(e, partition) ==> r == Err(Internal)
    ensures r.Ok? ==> Shaped(r.value, e.width)
    ensures Runs(e, partition) && RowWidth(Lowered(e)) == e.width > 0 ==>
              var j := Lowered(e);
              && (r.Ok? <==> NullsFit(e.required, Expected(j, AllRows(lefts), AllRows(rights), AllRows(again))))
              && (r.Err? ==> r.error == Internal)
    ensures Runs(e, partition) && RowWidth(Lowered(e)) == e.width > 0 && r.Ok? ==>
              var j := Lowered(e);
              && NonEmpty(Found(j, lefts, AllRows(rights))) <= BatchRows(r.value)
              && NestedLoop(j, AllRows(lefts), AllRows(rights)) <= AllRows(r.value)
              && multiset(AllRows(r.value)) == multiset(Expected(j, AllRows(lefts), AllRows(rights), AllRows(again)))
              && (e.joinType != L.RightOuter ==> AllRows(r.value) == NestedLoop(j, AllRows(lefts), AllRows(rights)))
    ensures (Runs(e, partition) && RowWidth(Lowered(e)) != e.width && RowWidth(Lowered(e)) > 0
             && Expected(Lowered(e), AllRows(lefts), AllRows(rights), AllRows(again)) != []) ==>
              r == Err(WidthError(Lowered(e)))
  {
    if partition != 0 || !Supported(e.joinType) {
      return Err(Internal);
    }
    var keys :- LowerKeys(e.on);
    var j := Join(e.joinType, keys.0, keys.1, e.excluded, e.leftWidth, e.rightWidth, e.width, e.required);
    SameJoin(e, keys.0, keys.1);
    ghost var rows, found := AllRows(rights), Found(j, lefts, AllRows(rights));
    RowsConform(rights, e.rightWidth);
    FoundFlatten(j, lefts, rows);
    NonEmptyFlatten(found);
    ghost var matches := NonEmpty(found);
    FitFlat(j, matches);
    var table := Build(j.rightKeys, rights);
    var out :- Probe(j, table, lefts, rows);
    if RowWidth(j) == j.width > 0 {
      BatchRowsFlatten(out);
    }
    if j.joinType == L.RightOuter {
      var unmatched := UnmatchedRight(j, table, again, rows);
      assert unmatched == [] <==> UnmatchedRows(j, AllRows(again), rows) == [] by {
        SameSize(unmatched, UnmatchedRows(j, AllRows(again), rows));
      }
      FitFlat(j, matches + Group(unmatched));
      FlattenAppend(matches, Group(unmatched));
      FlattenGroup(unmatched);
      SameNulls(j, Flatten(matches), unmatched, UnmatchedRows(j, AllRows(again), rows));
      out :- Emit(j, unmatched, out, matches);
      if RowWidth(j) == j.width > 0 {
        BatchRowsFlatten(out);
      }
    }
    return Ok(out);
  }

  lemma {:induction false} FitFlat(j: Join, outputs: seq<seq<Row>>)
    ensures AllFit(j, outputs) <==> NullsFit(j.required, Flatten(outputs))
  {
    if outputs != [] {
      FitFlat(j, outputs[1..]);
      NullsFitBoth(j.required, outputs[0], Flatten(outputs[1..]));
      assert forall rows :: rows in outputs <==> rows == outputs[0] || rows in outputs[1..];
    }
  }

  lemma SameNulls(j: Join, front: seq<Row>, a: seq<Row>, b: seq<Row>)
    requires multiset(a) == multiset(b)
    ensures NullsFit(j.required, front + a) <==> NullsFit(j.required, front + b)
  {
    forall row ensures row in front + a <==> row in front + b {
      assert row in a <==> row in multiset(a);
      assert row in b <==> row in multiset(b);
    }
  }

  lemma SameJoin(e: HashJoinExec, lefts: seq<nat>, rights: seq<nat>)
    requires OnColumns(e.on) && |lefts| == |rights| == |e.on|
    requires forall i :: 0 <= i < |e.on| ==> e.on[i] == (KeyColumn(lefts[i]), KeyColumn(rights[i]))
    ensures Lowered(e) == Join(e.joinType, lefts, rights, e.excluded, e.leftWidth, e.rightWidth, e.width, e.required)
  {
    forall i | 0 <= i < |e.on| ensures LeftKeys(e.on)[i] == lefts[i] && RightKeys(e.on)[i] == rights[i] {
      assert KeyColumn(LeftKeys(e.on)[i]) == e.on[i].0;
      assert KeyColumn(RightKeys(e.on)[i]) == e.on[i].1;
    }
  }

  lemma SameSize(a: seq<Row>, b: seq<Row>)
    requires multiset(a) == multiset(b)
    ensures |a| == |b|
  {
    assert |multiset(a)| == |a| && |multiset(b)| == |b|;
  }

  lemma FlattenGroup(rows: seq<Row>)
    ensures Flatten(Group(rows)) == rows
  {
    if rows != [] {
      FlattenOne(rows);
    }
  }

  lemma {:induction false} RowsConform(batches: seq<RecordBatch>, width: nat)
    requires AllConform(batches, width)
    ensures Conform(AllRows(batches), width)
  {
    if batches != [] {
      assert batches[|batches| - 1] in batches;
      RowsConform(batches[..|batches| - 1], width);
    }
  }
}
