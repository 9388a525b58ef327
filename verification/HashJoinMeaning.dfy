/** The planned hash join computes what the logical join means. */
module HashJoinMeaning {
  import opened Results
  import opened Scalars
  import opened Sequences
  import opened Batches
  import opened HashJoin
  import opened PushDownSchemas
  import opened PushDownMeaning
  import opened PushDownExact
  import L = LogicalPlan

  // ---------------------------------------------------------------- planning

  type KeyNames = seq<(string, string)>

  // Each key name is resolved to its first column.
  function ResolveKeys(l: L.Schema, r: L.Schema, on: KeyNames): (keys: Result<seq<(KeyExpr, KeyExpr)>>)
    ensures keys.Ok? ==> |keys.value| == |on| && OnColumns(keys.value)
    ensures keys.Ok? ==> forall i :: 0 <= i < |on| ==>
              L.Position(l, on[i].0) == Some(keys.value[i].0.index)
              && L.Position(r, on[i].1) == Some(keys.value[i].1.index)
    ensures keys.Ok? <==> L.KeysBound(l, r, on)
    ensures keys.Err? ==> keys.error == SchemaError
  {
    if on == [] then Ok([])
    else
      var front :- ResolveKeys(l, r, on[..|on| - 1]);
      match (L.Position(l, on[|on| - 1].0), L.Position(r, on[|on| - 1].1))
      case (Some(i), Some(k)) => Ok(front + [(KeyColumn(i), KeyColumn(k))])
      case _ => Err(SchemaError)
  }

  // The right columns that repeat a key of the same name.
  function Repeated(r: L.Schema, on: KeyNames): set<nat> {
    set i: nat | i < |r| && r[i].name in L.DuplicateKeys(on)
  }

  // The columns whose fields are not nullable.
  function Required(s: L.Schema): set<nat> {
    set i: nat | i < |s| && !s[i].nullable
  }

  function PlanJoin(l: L.Schema, r: L.Schema, joinType: L.JoinType, on: KeyNames,
                    schema: L.Schema): Result<HashJoinExec>
  {
    var keys :- ResolveKeys(l, r, on);
    Ok(HashJoinExec(joinType, keys, Repeated(r, on), |l|, |r|, |schema|, Required(schema)))
  }

  // ---------------------------------------------------------------- columns by name and by index

  lemma CellsPush(s: L.Schema, f: L.Field, row: Row, v: ScalarValue, hidden: set<string>)
    requires |s| == |row|
    ensures L.WithoutCells(s + [f], row + [v], hidden)
            == L.WithoutCells(s, row, hidden) + if f.name in hidden then [] else [v]
  {
    CellsAppend(s, [f], row, [v], hidden);
    assert [f][1..] == [] && [v][1..] == [];
    assert L.WithoutCells([f][1..], [v][1..], hidden) == [];
  }

  lemma {:induction false} KeptByName(s: L.Schema, row: Row, hidden: set<string>, excluded: set<nat>)
    requires |s| == |row|
    requires forall i: nat :: i < |s| ==> (i in excluded <==> s[i].name in hidden)
    ensures Kept(row, excluded) == L.WithoutCells(s, row, hidden)
  {
    if s != [] {
      var last := |s| - 1;
      KeptByName(s[..last], row[..last], hidden, excluded);
      CellsPush(s[..last], s[last], row[..last], row[last], hidden);
      assert s == s[..last] + [s[last]] && row == row[..last] + [row[last]];
    }
  }

  // Rows match by index exactly when their key cells agree by name.
  lemma MatchByName(l: L.Schema, r: L.Schema, on: KeyNames, j: Join, left: Row, right: Row)
    requires Resolved(l, r, on, j) && |left| == |l| && |right| == |r|
    ensures Match(j, left, right) <==> L.KeyCells(l, left, L.LeftNames(on)) == L.KeyCells(r, right, L.RightNames(on))
  {
    var a, b := KeyOf(j.leftKeys, left), KeyOf(j.rightKeys, right);
    var x, y := L.KeyCells(l, left, L.LeftNames(on)), L.KeyCells(r, right, L.RightNames(on));
    forall i | 0 <= i < |on| ensures x[i] == Some(a[i]) && y[i] == Some(b[i]) {
      CellPosition(l, left, on[i].0);
      CellPosition(r, right, on[i].1);
    }
    RowKeyEqIsIdentity(a, b);
    if a == b {
      assert x == y;
    }
  }

  // The join's indices and widths are those of the names.
  ghost predicate Resolved(l: L.Schema, r: L.Schema, on: KeyNames, j: Join) {
    && |j.leftKeys| == |j.rightKeys| == |on|
    && (forall i :: 0 <= i < |on| ==>
          L.Position(l, on[i].0) == Some(j.leftKeys[i]) && L.Position(r, on[i].1) == Some(j.rightKeys[i]))
    && j.excluded == Repeated(r, on) && j.leftWidth == |l| && j.rightWidth == |r|
  }

  lemma KeptIsWithoutCells(r: L.Schema, on: KeyNames, row: Row)
    requires |row| == |r|
    ensures Kept(row, Repeated(r, on)) == L.WithoutCells(r, row, L.DuplicateKeys(on))
  {
    hide Kept, L.WithoutCells, L.DuplicateKeys;
    KeptByName(r, row, L.DuplicateKeys(on), Repeated(r, on));
  }

  // ---------------------------------------------------------------- nested loops

  lemma {:induction false} MatchesPush(l: L.Schema, left: Row, r: L.Schema, rights: seq<Row>, right: Row, on: KeyNames)
    ensures L.Matches(l, left, L.Relation(r, rights + [right]), on)
            == L.Matches(l, left, L.Relation(r, rights), on)
               + if L.KeyCells(l, left, L.LeftNames(on)) == L.KeyCells(r, right, L.RightNames(on))
                 then [left + L.WithoutCells(r, right, L.DuplicateKeys(on))] else []
  {
    if rights == [] {
      assert [right][1..] == [];
      assert L.Matches(l, left, L.Relation(r, [right][1..]), on) == [];
    } else {
      assert (rights + [right])[1..] == rights[1..] + [right];
      MatchesPush(l, left, r, rights[1..], right, on);
    }
  }

  lemma {:induction false} PairsAreMatches(l: L.Schema, r: L.Schema, on: KeyNames, j: Join, left: Row, rights: seq<Row>)
    requires Resolved(l, r, on, j) && |left| == |l| && Conform(rights, |r|)
    ensures PairsOf(j, left, rights) == L.Matches(l, left, L.Relation(r, rights), on)
  {
    if rights != [] {
      var front, last := rights[..|rights| - 1], rights[|rights| - 1];
      assert last in rights && rights == front + [last];
      PairsAreMatches(l, r, on, j, left, front);
      MatchesPush(l, left, r, front, last, on);
      MatchByName(l, r, on, j, left, last);
      KeptIsWithoutCells(r, on, last);
    }
  }

  lemma ContributionsAgree(l: L.Schema, r: L.Schema, on: KeyNames, j: Join, left: Row, rights: seq<Row>)
    requires Resolved(l, r, on, j) && |left| == |l| && Conform(rights, |r|)
    ensures ForLeft(j, left, rights) == L.Contribution(l, left, L.Relation(r, rights), j.joinType == L.LeftOuter, on)
  {
    hide PairsOf, L.Matches, Kept, L.WithoutCells, L.DuplicateKeys, Conform;
    PairsAreMatches(l, r, on, j, left, rights);
    KeptIsWithoutCells(r, on, L.Nulls(|r|));
  }

  lemma {:induction false} JoinRowsPush(l: L.Schema, lefts: seq<Row>, left: Row, r: L.Relation, outer: bool,
                                        on: KeyNames)
    ensures L.JoinRows(L.Relation(l, lefts + [left]), r, outer, on)
            == L.JoinRows(L.Relation(l, lefts), r, outer, on) + L.Contribution(l, left, r, outer, on)
  {
    if lefts == [] {
      assert [left][1..] == [];
      assert L.JoinRows(L.Relation(l, [left][1..]), r, outer, on) == [];
    } else {
      assert (lefts + [left])[1..] == lefts[1..] + [left];
      JoinRowsPush(l, lefts[1..], left, r, outer, on);
    }
  }

  lemma ConformLast(rows: seq<Row>, width: nat)
    requires rows != [] && Conform(rows, width)
    ensures Conform(rows[..|rows| - 1], width) && |rows[|rows| - 1]| == width
  {
    assert rows[|rows| - 1] in rows;
  }

  lemma NoLeftRows(l: L.Schema, r: L.Schema, on: KeyNames, j: Join, rights: seq<Row>)
    ensures NestedLoop(j, [], rights)
            == L.JoinRows(L.Relation(l, []), L.Relation(r, rights), j.joinType == L.LeftOuter, on)
  {
  }

  lemma LoopPush(j: Join, front: seq<Row>, last: Row, rights: seq<Row>)
    ensures NestedLoop(j, front + [last], rights) == NestedLoop(j, front, rights) + ForLeft(j, last, rights)
  {
    FlatMapPush(Contribution(j, rights), front, last);
  }

  /** Joining by resolved indices is joining by name. */
  lemma {:induction false} NestedLoopIsJoinRows(l: L.Schema, r: L.Schema, on: KeyNames, j: Join, lefts: seq<Row>,
                                                rights: seq<Row>)
    requires Resolved(l, r, on, j) && Conform(lefts, |l|) && Conform(rights, |r|)
    ensures NestedLoop(j, lefts, rights)
            == L.JoinRows(L.Relation(l, lefts), L.Relation(r, rights), j.joinType == L.LeftOuter, on)
  {
    if lefts == [] {
      NoLeftRows(l, r, on, j, rights);
    } else {
      hide Resolved, ForLeft, NestedLoop, L.Contribution, L.JoinRows, Conform;
      var front, last := lefts[..|lefts| - 1], lefts[|lefts| - 1];
      assert lefts == front + [last];
      ConformLast(lefts, |l|);
      NestedLoopIsJoinRows(l, r, on, j, front, rights);
      LoopPush(j, front, last, rights);
      ContributionsAgree(l, r, on, j, last, rights);
      JoinRowsPush(l, front, last, L.Relation(r, rights), j.joinType == L.LeftOuter, on);
    }
  }

  lemma {:induction false} UnpairedPush(l: L.Relation, r: L.Schema, rights: seq<Row>, right: Row, on: KeyNames)
    ensures L.Unpaired(l, L.Relation(r, rights + [right]), on)
            == L.Unpaired(l, L.Relation(r, rights), on) + L.Unpaired(l, L.Relation(r, [right]), on)
  {
    if rights == [] {
      assert [] + [right] == [right];
    } else {
      assert (rights + [right])[1..] == rights[1..] + [right];
      UnpairedPush(l, r, rights[1..], right, on);
    }
  }

  lemma OneUnpaired(l: L.Relation, r: L.Schema, right: Row, on: KeyNames)
    ensures L.Unpaired(l, L.Relation(r, [right]), on)
            == if L.Paired(l, r, right, on) then []
               else [L.Nulls(|l.schema|) + L.WithoutCells(r, right, L.DuplicateKeys(on))]
  {
    assert [right][1..] == [];
    assert L.Unpaired(l, L.Relation(r, [right][1..]), on) == [];
  }

  lemma UnmatchedByName(l: L.Schema, r: L.Schema, on: KeyNames, j: Join, lefts: seq<Row>, right: Row)
    requires Resolved(l, r, on, j) && Conform(lefts, |l|) && |right| == |r|
    ensures Unmatched(j, lefts, right) <==> !L.Paired(L.Relation(l, lefts), r, right, on)
  {
    hide Resolved, L.KeyCells, Match;
    forall i | 0 <= i < |lefts|
      ensures Match(j, lefts[i], right)
              <==> L.KeyCells(l, lefts[i], L.LeftNames(on)) == L.KeyCells(r, right, L.RightNames(on))
    {
      assert lefts[i] in lefts;
      MatchByName(l, r, on, j, lefts[i], right);
    }
  }

  /** The right rows nothing matches by index are those nothing matches by name. */
  lemma {:induction false} UnmatchedIsUnpaired(l: L.Schema, r: L.Schema, on: KeyNames, j: Join, lefts: seq<Row>,
                                               rights: seq<Row>)
    requires Resolved(l, r, on, j) && Conform(lefts, |l|) && Conform(rights, |r|)
    ensures UnmatchedRows(j, lefts, rights) == L.Unpaired(L.Relation(l, lefts), L.Relation(r, rights), on)
  {
    if rights != [] {
      hide Resolved, Conform, UnmatchedRows, L.Unpaired;
      var front, last := rights[..|rights| - 1], rights[|rights| - 1];
      assert rights == front + [last];
      ConformLast(rights, |r|);
      UnmatchedIsUnpaired(l, r, on, j, lefts, front);
      OneMoreUnmatched(l, r, on, j, lefts, front, last);
    }
  }

  lemma OneMoreUnmatched(l: L.Schema, r: L.Schema, on: KeyNames, j: Join, lefts: seq<Row>, rights: seq<Row>, right: Row)
    requires Resolved(l, r, on, j) && Conform(lefts, |l|) && |right| == |r|
    requires UnmatchedRows(j, lefts, rights) == L.Unpaired(L.Relation(l, lefts), L.Relation(r, rights), on)
    ensures UnmatchedRows(j, lefts, rights + [right])
            == L.Unpaired(L.Relation(l, lefts), L.Relation(r, rights + [right]), on)
  {
    hide Unmatched, L.Paired, L.Unpaired, L.WithoutCells, Kept, Conform;
    assert (rights + [right])[..|rights|] == rights;
    UnpairedPush(L.Relation(l, lefts), r, rights, right, on);
    OneUnpaired(L.Relation(l, lefts), r, right, on);
    UnmatchedByName(l, r, on, j, lefts, right);
    KeptIsWithoutCells(r, on, right);
  }

  // ---------------------------------------------------------------- widths

  /** A joined row has one cell per field of an inner or left join's schema. */
  lemma RowsFitTheSchema(l: L.Schema, r: L.Schema, on: KeyNames, j: Join)
    requires Resolved(l, r, on, j)
    ensures RowWidth(j) == |l + L.Without(r, L.DuplicateKeys(on))|
  {
    KeptWidth(L.Nulls(|r|), j.excluded);
    KeptIsWithoutCells(r, on, L.Nulls(|r|));
    CellWithout(r, L.Nulls(|r|), L.DuplicateKeys(on), "");
  }

  lemma {:induction false} BatchesConform(batches: seq<RecordBatch>, width: nat)
    requires AllValid(batches) && Conform(AllRows(batches), width)
    ensures AllConform(batches, width)
  {
    if batches != [] {
      var last := |batches| - 1;
      assert forall row :: row in AllRows(batches[..last]) || row in Rows(batches[last]) ==> row in AllRows(batches);
      BatchesConform(batches[..last], width);
      assert batches == batches[..last] + [batches[last]];
    }
  }

  // The batches hold what the plan means.
  ghost predicate Yields(w: L.World, p: L.Plan, batches: seq<RecordBatch>) {
    AllValid(batches) && L.Denote(w, p).Some? && AllRows(batches) == L.Denote(w, p).value.rows
  }

  lemma YieldsConform(w: L.World, p: L.Plan, batches: seq<RecordBatch>)
    requires L.WellTyped(w) && Yields(w, p, batches)
    ensures L.SchemaOf(w.text, p) == Ok(L.Denote(w, p).value.schema)
    ensures AllConform(batches, |L.Denote(w, p).value.schema|)
    ensures Conform(AllRows(batches), |L.Denote(w, p).value.schema|)
  {
    DenoteRectangular(w, p);
    BatchesConform(batches, |L.Denote(w, p).value.schema|);
  }

  lemma PlanResolves(l: L.Schema, r: L.Schema, joinType: L.JoinType, on: KeyNames, schema: L.Schema)
    ensures var e := PlanJoin(l, r, joinType, on, schema);
            && (e.Ok? <==> L.KeysBound(l, r, on))
            && (e.Ok? ==> OnColumns(e.value.on) && Resolved(l, r, on, Lowered(e.value))
                          && KeysInRange(Lowered(e.value)))
  {
    var e := PlanJoin(l, r, joinType, on, schema);
    if e.Ok? {
      var j := Lowered(e.value);
      forall i | 0 <= i < |on|
        ensures L.Position(l, on[i].0) == Some(j.leftKeys[i]) && L.Position(r, on[i].1) == Some(j.rightKeys[i])
      {
        assert KeyColumn(j.leftKeys[i]) == e.value.on[i].0;
        assert KeyColumn(j.rightKeys[i]) == e.value.on[i].1;
      }
    }
  }

  // A join that runs: its rows are as wide as its schema.
  method ExecuteFitting(e: HashJoinExec, lefts: seq<RecordBatch>, rights: seq<RecordBatch>)
    returns (r: Result<seq<RecordBatch>>)
    requires OnColumns(e.on) && KeysInRange(Lowered(e)) && Supported(e.joinType) && RowWidth(Lowered(e)) == e.width
    requires AllConform(lefts, e.leftWidth) && AllConform(rights, e.rightWidth)
    ensures r.Ok? ==> Shaped(r.value, e.width)
    ensures e.width > 0 ==>
              var expected := Expected(Lowered(e), AllRows(lefts), AllRows(rights), AllRows(lefts));
              && (r.Ok? <==> NullsFit(e.required, expected))
              && (r.Ok? ==> multiset(AllRows(r.value)) == multiset(expected))
              && (r.Ok? && e.joinType != L.RightOuter ==> AllRows(r.value) == expected)
  {
    hide NestedLoop, UnmatchedRows, RowWidth, KeysInRange, Rows;
    r := Execute(e, 0, lefts, rights, lefts);
    ghost var matched := NestedLoop(Lowered(e), AllRows(lefts), AllRows(rights));
    assert matched + [] == matched;
  }

  /** From the logical join to its rows: given inputs that yield what the two sides mean,
      planning and running a join succeeds exactly when the join has a meaning and no null
      of it stands in a field that is not nullable. It then yields that meaning's rows: those
      of an inner or left join in its order, those of a right join in some order, as its
      unmatched rows come out of a hash table. A join without a single output column is
      refused. */
  method RunPlannedJoin(w: L.World, left: L.Plan, right: L.Plan, joinType: L.JoinType, on: KeyNames,
                        lefts: seq<RecordBatch>, rights: seq<RecordBatch>)
    returns (r: Result<seq<RecordBatch>>)
    requires L.WellTyped(w) && Yields(w, left, lefts) && Yields(w, right, rights)
    requires L.HasOneLayout(joinType, on)
    ensures var p := L.Join(left, right, joinType, on);
            L.SchemaOf(w.text, p) != Ok([]) ==>
              && (r.Ok? <==> L.Denote(w, p).Some? && NullsAllowed(L.Denote(w, p).value))
              && (r.Ok? ==> Shaped(r.value, |L.Denote(w, p).value.schema|))
              && (r.Ok? && joinType != L.RightOuter ==> Yields(w, p, r.value))
              && (r.Ok? ==> AllValid(r.value) && multiset(AllRows(r.value)) == multiset(L.Denote(w, p).value.rows))
  {
    hide L.Denote, L.SchemaOf, L.HasOneLayout, PlanJoin, Expected, Rows;
    JoinMeans(w, left, right, joinType, on, AllRows(lefts), AllRows(rights));
    YieldsConform(w, left, lefts);
    YieldsConform(w, right, rights);
    var l, s := L.SchemaOf(w.text, left).value, L.SchemaOf(w.text, right).value;
    var schema := L.SchemaOf(w.text, L.Join(left, right, joinType, on)).value;
    var e :- PlanJoin(l, s, joinType, on, schema);
    r := ExecuteFitting(e, lefts, rights);
  }

  // No null stands in a field that is not nullable.
  predicate NullsAllowed(r: L.Relation) {
    NullsFit(Required(r.schema), r.rows)
  }

  predicate Planned(e: HashJoinExec, joinType: L.JoinType, left: nat, right: nat, schema: L.Schema) {
    && e.joinType == joinType && Supported(joinType) && e.leftWidth == left && e.rightWidth == right
    && e.width == |schema| && e.required == Required(schema)
  }

  lemma {:induction false} JoinMeans(w: L.World, left: L.Plan, right: L.Plan, joinType: L.JoinType, on: KeyNames,
                                     lefts: seq<Row>, rights: seq<Row>)
    requires L.WellTyped(w) && L.Denote(w, left).Some? && L.Denote(w, right).Some?
    requires L.Denote(w, left).value.rows == lefts && L.Denote(w, right).value.rows == rights
    requires L.HasOneLayout(joinType, on)
    ensures var p := L.Join(left, right, joinType, on);
            var l, r := L.Denote(w, left).value.schema, L.Denote(w, right).value.schema;
            && L.SchemaOf(w.text, left) == Ok(l) && L.SchemaOf(w.text, right) == Ok(r) && L.SchemaOf(w.text, p).Ok?
            && var e := PlanJoin(l, r, joinType, on, L.SchemaOf(w.text, p).value);
            && (e.Ok? <==> L.Denote(w, p).Some?)
            && (e.Ok? ==>
                  && OnColumns(e.value.on) && KeysInRange(Lowered(e.value))
                  && RowWidth(Lowered(e.value)) == |L.SchemaOf(w.text, p).value|
                  && Planned(e.value, joinType, |l|, |r|, L.SchemaOf(w.text, p).value)
                  && L.Denote(w, p).value == L.Relation(L.SchemaOf(w.text, p).value, L.Denote(w, p).value.rows)
                  && L.Denote(w, p).value.rows == Expected(Lowered(e.value), lefts, rights, lefts))
  {
    hide L.Denote, L.SchemaOf, L.JoinSchema, L.JoinResult, PlanJoin, Lowered, Expected, OnColumns, KeysInRange;
    DenoteRectangular(w, left);
    DenoteRectangular(w, right);
    JoinDenotes(w, left, right, joinType, on);
    var l, r := L.Denote(w, left).value, L.Denote(w, right).value;
    RelationsJoin(l, r, joinType, on);
  }

  // A join's meaning in terms of its sides'.
  lemma {:induction false} JoinDenotes(w: L.World, left: L.Plan, right: L.Plan, joinType: L.JoinType, on: KeyNames)
    requires L.Denote(w, left).Some? && L.Denote(w, right).Some? && L.HasOneLayout(joinType, on)
    requires L.SchemaOf(w.text, left) == Ok(L.Denote(w, left).value.schema)
    requires L.SchemaOf(w.text, right) == Ok(L.Denote(w, right).value.schema)
    ensures var p, l, r := L.Join(left, right, joinType, on), L.Denote(w, left).value, L.Denote(w, right).value;
            && L.SchemaOf(w.text, p) == L.JoinSchema(l.schema, r.schema, joinType, on) && L.SchemaOf(w.text, p).Ok?
            && L.Denote(w, p) == if L.KeysBound(l.schema, r.schema, on)
                                 then Some(L.Relation(L.SchemaOf(w.text, p).value, L.JoinResult(l, r, joinType, on)))
                                 else None
  {
    hide L.JoinResult, L.JoinSchema;
    OneLayout(L.Denote(w, left).value.schema, L.Denote(w, right).value.schema, joinType, on);
  }

  lemma {:induction false} RelationsJoin(l: L.Relation, r: L.Relation, joinType: L.JoinType, on: KeyNames)
    requires Rectangular(l) && Rectangular(r) && L.HasOneLayout(joinType, on)
    ensures var schema := L.JoinSchema(l.schema, r.schema, joinType, on);
            && schema.Ok?
            && var e := PlanJoin(l.schema, r.schema, joinType, on, schema.value);
            && (e.Ok? <==> L.KeysBound(l.schema, r.schema, on))
            && (e.Ok? ==>
                  && OnColumns(e.value.on) && KeysInRange(Lowered(e.value))
                  && RowWidth(Lowered(e.value)) == |schema.value|
                  && Planned(e.value, joinType, |l.schema|, |r.schema|, schema.value)
                  && L.JoinResult(l, r, joinType, on) == Expected(Lowered(e.value), l.rows, r.rows, l.rows))
  {
    hide L.JoinRows, L.Unpaired, NestedLoop, UnmatchedRows, Resolved, RowWidth;
    OneLayout(l.schema, r.schema, joinType, on);
    var schema := L.JoinSchema(l.schema, r.schema, joinType, on).value;
    PlanResolves(l.schema, r.schema, joinType, on, schema);
    var e := PlanJoin(l.schema, r.schema, joinType, on, schema);
    if e.Ok? {
      var j := Lowered(e.value);
      assert Conform(l.rows, |l.schema|) && Conform(r.rows, |r.schema|);
      RowsFitTheSchema(l.schema, r.schema, on, j);
      NestedLoopIsJoinRows(l.schema, r.schema, on, j, l.rows, r.rows);
      UnmatchedIsUnpaired(l.schema, r.schema, on, j, l.rows, r.rows);
    }
  }

  // ---------------------------------------------------------------- nulls

  predicate HasNull(key: Row) {
    Null in key
  }

  // Equality of keys; strictly, as the plan's null equality asks for, a null equals nothing.
  predicate KeysJoin(j: Join, strict: bool, left: Row, right: Row) {
    Match(j, left, right) && (strict ==> !HasNull(KeyOf(j.leftKeys, left)))
  }

  function PairedRows(j: Join, strict: bool, left: Row, rights: seq<Row>): seq<Row> {
    if rights == [] then []
    else
      PairedRows(j, strict, left, rights[..|rights| - 1])
      + (if KeysJoin(j, strict, left, rights[|rights| - 1]) then [Joined(j, left, rights[|rights| - 1])] else [])
  }

  function PaddedLeft(j: Join, left: Row): Row {
    Joined(j, left, L.Nulls(j.rightWidth))
  }

  function PaddedRight(j: Join, right: Row): Row {
    Joined(j, L.Nulls(j.leftWidth), right)
  }

  function LeftRows(j: Join, strict: bool, left: Row, rights: seq<Row>): seq<Row> {
    var found := PairedRows(j, strict, left, rights);
    if found == [] && j.joinType == L.LeftOuter then [PaddedLeft(j, left)] else found
  }

  function LoopRows(j: Join, strict: bool, lefts: seq<Row>, rights: seq<Row>): seq<Row> {
    if lefts == [] then []
    else LoopRows(j, strict, lefts[..|lefts| - 1], rights) + LeftRows(j, strict, lefts[|lefts| - 1], rights)
  }

  function UnpairedRights(j: Join, strict: bool, lefts: seq<Row>, rights: seq<Row>): seq<Row> {
    if rights == [] then []
    else
      var right := rights[|rights| - 1];
      UnpairedRights(j, strict, lefts, rights[..|rights| - 1])
      + (if forall left :: left in lefts ==> !KeysJoin(j, strict, left, right) then [PaddedRight(j, right)] else [])
  }

  // The join of three kinds with either equality, as nested loops.
  function JoinOutput(j: Join, strict: bool, lefts: seq<Row>, rights: seq<Row>): seq<Row> {
    LoopRows(j, strict, lefts, rights)
    + if j.joinType == L.RightOuter then UnpairedRights(j, strict, lefts, rights) else []
  }

  lemma {:induction false} LaxPairs(j: Join, left: Row, rights: seq<Row>)
    ensures PairedRows(j, false, left, rights) == PairsOf(j, left, rights)
  {
    if rights != [] {
      LaxPairs(j, left, rights[..|rights| - 1]);
    }
  }

  lemma {:induction false} LaxUnpaired(j: Join, lefts: seq<Row>, rights: seq<Row>)
    ensures UnpairedRights(j, false, lefts, rights) == UnmatchedRows(j, lefts, rights)
  {
    if rights != [] {
      LaxUnpaired(j, lefts, rights[..|rights| - 1]);
    }
  }

  lemma {:induction false} LaxLoop(j: Join, lefts: seq<Row>, rights: seq<Row>)
    ensures LoopRows(j, false, lefts, rights) == NestedLoop(j, lefts, rights)
  {
    if lefts != [] {
      var front, last := lefts[..|lefts| - 1], lefts[|lefts| - 1];
      assert lefts == front + [last];
      LaxLoop(j, front, rights);
      LaxPairs(j, last, rights);
      FlatMapPush(Contribution(j, rights), front, last);
    }
  }

  /** What the operator produces is the join under which nulls equal each other. */
  lemma LaxIsExpected(j: Join, lefts: seq<Row>, rights: seq<Row>)
    ensures JoinOutput(j, false, lefts, rights) == Expected(j, lefts, rights, lefts)
  {
    LaxLoop(j, lefts, rights);
    LaxUnpaired(j, lefts, rights);
  }

  // Strictly, a left row with a null in its key pairs with nothing, and any other as before.
  lemma {:induction false} StrictPairs(j: Join, left: Row, rights: seq<Row>)
    ensures PairedRows(j, true, left, rights)
            == if HasNull(KeyOf(j.leftKeys, left)) then [] else PairedRows(j, false, left, rights)
  {
    if rights != [] {
      StrictPairs(j, left, rights[..|rights| - 1]);
    }
  }

  // A left row with a null in its key that matches, but for a left join's one match of
  // nothing but nulls, which looks like padding.
  predicate MisjoinedLeft(j: Join, left: Row, rights: seq<Row>) {
    && HasNull(KeyOf(j.leftKeys, left)) && PairsOf(j, left, rights) != []
    && !(j.joinType == L.LeftOuter && PairsOf(j, left, rights) == [PaddedLeft(j, left)])
  }

  lemma StrictLeftRows(j: Join, left: Row, rights: seq<Row>)
    ensures |LeftRows(j, true, left, rights)| <= |LeftRows(j, false, left, rights)|
    ensures LeftRows(j, true, left, rights) == LeftRows(j, false, left, rights) <==> !MisjoinedLeft(j, left, rights)
  {
    StrictPairs(j, left, rights);
    LaxPairs(j, left, rights);
  }

  lemma {:induction false} StrictLoop(j: Join, lefts: seq<Row>, rights: seq<Row>)
    ensures |LoopRows(j, true, lefts, rights)| <= |LoopRows(j, false, lefts, rights)|
    ensures LoopRows(j, true, lefts, rights) == LoopRows(j, false, lefts, rights)
            <==> forall left :: left in lefts ==> !MisjoinedLeft(j, left, rights)
  {
    if lefts != [] {
      hide LeftRows, MisjoinedLeft;
      var front, last := lefts[..|lefts| - 1], lefts[|lefts| - 1];
      assert lefts == front + [last];
      StrictLoop(j, front, rights);
      StrictLeftRows(j, last, rights);
      SameParts(LoopRows(j, true, front, rights), LeftRows(j, true, last, rights),
                LoopRows(j, false, front, rights), LeftRows(j, false, last, rights));
    }
  }

  /** The planner asks for null keys to match nothing, and the operator does not read it.
      An inner join's output is the asked-for one exactly when no left row matches on a
      null key; a left join's exactly when each such row matches once, on a right row that
      keeps only nulls. */
  lemma NullEqualityIgnored(j: Join, lefts: seq<Row>, rights: seq<Row>)
    requires j.joinType != L.RightOuter
    ensures Expected(j, lefts, rights, lefts) == JoinOutput(j, true, lefts, rights)
            <==> forall left :: left in lefts ==> !MisjoinedLeft(j, left, rights)
  {
    LaxIsExpected(j, lefts, rights);
    StrictLoop(j, lefts, rights);
    assert JoinOutput(j, false, lefts, rights) == LoopRows(j, false, lefts, rights);
    assert JoinOutput(j, true, lefts, rights) == LoopRows(j, true, lefts, rights);
  }

  lemma SameParts(a: seq<Row>, b: seq<Row>, c: seq<Row>, d: seq<Row>)
    requires |a| <= |c| && |b| <= |d|
    ensures a + b == c + d <==> a == c && b == d
  {
    if a + b == c + d {
      assert |a + b| == |c + d|;
      assert a == (a + b)[..|a|] && c == (c + d)[..|c|];
      assert b == (a + b)[|a|..] && d == (c + d)[|c|..];
    }
  }

  // ---------------------------------------------------------------- nulls in a right join

  // The joined rows of one right row, in left order.
  function RightPairs(j: Join, strict: bool, lefts: seq<Row>, right: Row): seq<Row> {
    if lefts == [] then []
    else
      RightPairs(j, strict, lefts[..|lefts| - 1], right)
      + (if KeysJoin(j, strict, lefts[|lefts| - 1], right) then [Joined(j, lefts[|lefts| - 1], right)] else [])
  }

  function RightRows(j: Join, strict: bool, lefts: seq<Row>, right: Row): seq<Row> {
    var found := RightPairs(j, strict, lefts, right);
    if found == [] then [PaddedRight(j, right)] else found
  }

  function RowsByRight(j: Join, strict: bool, lefts: seq<Row>, rights: seq<Row>): seq<Row> {
    if rights == [] then []
    else RowsByRight(j, strict, lefts, rights[..|rights| - 1]) + RightRows(j, strict, lefts, rights[|rights| - 1])
  }

  lemma {:induction false} NoRightPairs(j: Join, strict: bool, lefts: seq<Row>, right: Row)
    ensures RightPairs(j, strict, lefts, right) == []
            <==> forall left :: left in lefts ==> !KeysJoin(j, strict, left, right)
  {
    if lefts != [] {
      var front, last := lefts[..|lefts| - 1], lefts[|lefts| - 1];
      assert lefts == front + [last];
      NoRightPairs(j, strict, front, right);
    }
  }

  lemma PairedPush(j: Join, strict: bool, left: Row, rights: seq<Row>, right: Row)
    ensures PairedRows(j, strict, left, rights + [right])
            == PairedRows(j, strict, left, rights)
               + (if KeysJoin(j, strict, left, right) then [Joined(j, left, right)] else [])
  {
    assert (rights + [right])[..|rights|] == rights;
  }

  // One more right row adds its pairs to the loop's, somewhere.
  lemma {:induction false} LoopGains(j: Join, strict: bool, lefts: seq<Row>, rights: seq<Row>, right: Row)
    requires j.joinType == L.RightOuter
    ensures multiset(LoopRows(j, strict, lefts, rights + [right]))
            == multiset(LoopRows(j, strict, lefts, rights)) + multiset(RightPairs(j, strict, lefts, right))
  {
    if lefts != [] {
      hide KeysJoin, Joined, PairedRows;
      LoopGains(j, strict, lefts[..|lefts| - 1], rights, right);
      PairedPush(j, strict, lefts[|lefts| - 1], rights, right);
    }
  }

  lemma {:induction false} EmptyLoop(j: Join, strict: bool, lefts: seq<Row>)
    requires j.joinType == L.RightOuter
    ensures LoopRows(j, strict, lefts, []) == []
  {
    if lefts != [] {
      EmptyLoop(j, strict, lefts[..|lefts| - 1]);
    }
  }

  // A right join's rows, told by right row instead of by left row.
  lemma {:induction false} OutputByRight(j: Join, strict: bool, lefts: seq<Row>, rights: seq<Row>)
    requires j.joinType == L.RightOuter
    ensures multiset(JoinOutput(j, strict, lefts, rights)) == multiset(RowsByRight(j, strict, lefts, rights))
  {
    if rights == [] {
      EmptyLoop(j, strict, lefts);
    } else {
      hide KeysJoin, LoopRows, RightPairs, Joined;
      var front, last := rights[..|rights| - 1], rights[|rights| - 1];
      assert rights == front + [last];
      OutputByRight(j, strict, lefts, front);
      LoopGains(j, strict, lefts, front, last);
      NoRightPairs(j, strict, lefts, last);
    }
  }

  // A right row with a null in its key that matches, but for one match of an all-null left
  // row, which looks like padding.
  predicate MisjoinedRight(j: Join, lefts: seq<Row>, right: Row) {
    && HasNull(KeyOf(j.rightKeys, right)) && RightPairs(j, false, lefts, right) != []
    && RightPairs(j, false, lefts, right) != [PaddedRight(j, right)]
  }

  lemma {:induction false} StrictRightPairs(j: Join, lefts: seq<Row>, right: Row)
    ensures RightPairs(j, true, lefts, right)
            == if HasNull(KeyOf(j.rightKeys, right)) then [] else RightPairs(j, false, lefts, right)
  {
    if lefts != [] {
      var left := lefts[|lefts| - 1];
      StrictRightPairs(j, lefts[..|lefts| - 1], right);
      RowKeyEqIsIdentity(KeyOf(j.leftKeys, left), KeyOf(j.rightKeys, right));
    }
  }

  // Rows that look padded weigh less than others.
  function Weight(j: Join, rows: seq<Row>): nat {
    if rows == [] then 0
    else Weight(j, rows[..|rows| - 1]) + if L.Nulls(j.leftWidth) <= rows[|rows| - 1] then 1 else 2
  }

  lemma {:induction false} WeightAppend(j: Join, a: seq<Row>, b: seq<Row>)
    ensures Weight(j, a + b) == Weight(j, a) + Weight(j, b)
  {
    if b == [] {
      assert a + b == a;
    } else {
      assert (a + b)[..|a + b| - 1] == a + b[..|b| - 1];
      WeightAppend(j, a, b[..|b| - 1]);
    }
  }

  lemma WeightOne(j: Join, row: Row)
    ensures Weight(j, [row]) == if L.Nulls(j.leftWidth) <= row then 1 else 2
  {
    assert [row][..0] == [];
    assert Weight(j, [row][..0]) == 0;
  }

  lemma {:induction false} WeightPermutes(j: Join, a: seq<Row>, b: seq<Row>)
    requires multiset(a) == multiset(b)
    ensures Weight(j, a) == Weight(j, b)
  {
    if a == [] {
      assert |multiset(b)| == 0;
    } else {
      var i := FindLast(a, b);
      WeightPermutes(j, a[..|a| - 1], Without(b, i));
      assert b == b[..i] + ([b[i]] + b[i + 1..]);
      WeightAppend(j, b[..i], [b[i]] + b[i + 1..]);
      WeightAppend(j, [b[i]], b[i + 1..]);
      WeightAppend(j, b[..i], b[i + 1..]);
      WeightOne(j, b[i]);
    }
  }

  lemma {:induction false} WeightAtLeast(j: Join, rows: seq<Row>)
    ensures Weight(j, rows) >= |rows|
  {
    if rows != [] {
      WeightAtLeast(j, rows[..|rows| - 1]);
    }
  }

  lemma {:induction false} RightPairsShape(j: Join, lefts: seq<Row>, right: Row)
    requires Conform(lefts, j.leftWidth)
    ensures forall row :: row in RightPairs(j, false, lefts, right) && L.Nulls(j.leftWidth) <= row ==>
              row == PaddedRight(j, right)
  {
    if lefts != [] {
      assert lefts[|lefts| - 1] in lefts;
      RightPairsShape(j, lefts[..|lefts| - 1], right);
    }
  }

  lemma StrictRightRows(j: Join, lefts: seq<Row>, right: Row)
    requires Conform(lefts, j.leftWidth)
    ensures Weight(j, RightRows(j, true, lefts, right)) <= Weight(j, RightRows(j, false, lefts, right))
    ensures RightRows(j, true, lefts, right) == RightRows(j, false, lefts, right) <==> !MisjoinedRight(j, lefts, right)
    ensures MisjoinedRight(j, lefts, right) ==>
              Weight(j, RightRows(j, true, lefts, right)) < Weight(j, RightRows(j, false, lefts, right))
  {
    hide KeysJoin, RightPairs, Weight, KeyOf;
    StrictRightPairs(j, lefts, right);
    RightPairsShape(j, lefts, right);
    var lax, padded := RightPairs(j, false, lefts, right), PaddedRight(j, right);
    WeightOne(j, padded);
    WeightAtLeast(j, lax);
    if |lax| == 1 {
      assert lax == [lax[0]] && lax[0] in lax;
      WeightOne(j, lax[0]);
    }
  }

  lemma {:induction false} StrictRights(j: Join, lefts: seq<Row>, rights: seq<Row>)
    requires Conform(lefts, j.leftWidth)
    ensures Weight(j, RowsByRight(j, true, lefts, rights)) <= Weight(j, RowsByRight(j, false, lefts, rights))
    ensures Weight(j, RowsByRight(j, true, lefts, rights)) == Weight(j, RowsByRight(j, false, lefts, rights))
            ==> forall right :: right in rights ==> !MisjoinedRight(j, lefts, right)
    ensures (forall right :: right in rights ==> !MisjoinedRight(j, lefts, right))
            ==> RowsByRight(j, true, lefts, rights) == RowsByRight(j, false, lefts, rights)
  {
    if rights != [] {
      hide Weight, RightRows, MisjoinedRight, Conform;
      var front, last := rights[..|rights| - 1], rights[|rights| - 1];
      assert rights == front + [last];
      StrictRights(j, lefts, front);
      StrictRightRows(j, lefts, last);
      WeightAppend(j, RowsByRight(j, true, lefts, front), RightRows(j, true, lefts, last));
      WeightAppend(j, RowsByRight(j, false, lefts, front), RightRows(j, false, lefts, last));
    }
  }

  /** A right join's output, in whatever order, is the asked-for one exactly when each right
      row that matches on a null key does so once, with a left row of nothing but nulls. */
  lemma NullEqualityIgnoredOnTheRight(j: Join, lefts: seq<Row>, rights: seq<Row>)
    requires j.joinType == L.RightOuter && Conform(lefts, j.leftWidth)
    ensures multiset(Expected(j, lefts, rights, lefts)) == multiset(JoinOutput(j, true, lefts, rights))
            <==> forall right :: right in rights ==> !MisjoinedRight(j, lefts, right)
  {
    hide JoinOutput, RowsByRight, Weight, MisjoinedRight, Expected;
    LaxIsExpected(j, lefts, rights);
    OutputByRight(j, false, lefts, rights);
    OutputByRight(j, true, lefts, rights);
    StrictRights(j, lefts, rights);
    if multiset(RowsByRight(j, false, lefts, rights)) == multiset(RowsByRight(j, true, lefts, rights)) {
      WeightPermutes(j, RowsByRight(j, false, lefts, rights), RowsByRight(j, true, lefts, rights));
    }
  }

  // A join of two columns on the left with one on the right, on the first of each.
  function FirstColumns(joinType: L.JoinType): Join {
    Join(joinType, [0], [0], {}, 2, 1, 3, {})
  }

  /** Two rows with null keys: the inner join pairs them, and should not; the right join
      should pad the right row with nulls on the left, and pairs it. */
  lemma NullsJoin(joinType: L.JoinType)
    requires joinType == L.Inner || joinType == L.RightOuter
    ensures var j, left, right := FirstColumns(joinType), [Null, Int32(1)], [Null];
            && Expected(j, [left], [right], [left]) == [[Null, Int32(1), Null]]
            && JoinOutput(j, true, [left], [right]) == if joinType == L.Inner then [] else [[Null, Null, Null]]
  {
    var j, left, right := FirstColumns(joinType), [Null, Int32(1)], [Null];
    NullKeysMatch(j, left, right);
    NullsJoined(j, left, right);
    LaxIsExpected(j, [left], [right]);
    OneLeft(j, false, left, right);
    OneLeft(j, true, left, right);
    hide Expected, JoinOutput, KeysJoin, Joined, PaddedRight;
  }

  lemma NullKeysMatch(j: Join, left: Row, right: Row)
    requires j.leftKeys == j.rightKeys == [0] && left != [] && right != [] && left[0] == right[0] == Null
    ensures KeysJoin(j, false, left, right) && !KeysJoin(j, true, left, right)
  {
    var keys := KeyOf(j.leftKeys, left);
    assert keys == KeyOf(j.rightKeys, right) == [Null];
    RowKeyEqIsIdentity(keys, keys);
    assert keys[0] == Null;
  }

  lemma NullsJoined(j: Join, left: Row, right: Row)
    requires j.excluded == {} && j.leftWidth == 2 && left == [Null, Int32(1)] && right == [Null]
    ensures Joined(j, left, right) == [Null, Int32(1), Null] && PaddedRight(j, right) == [Null, Null, Null]
  {
    assert right[..0] == [];
    assert Kept(right[..0], j.excluded) == [];
    assert Kept(right, j.excluded) == [Null];
    assert L.Nulls(2) == [Null, Null];
  }

  lemma OneLeft(j: Join, strict: bool, left: Row, right: Row)
    requires j.joinType == L.Inner || j.joinType == L.RightOuter
    ensures JoinOutput(j, strict, [left], [right])
            == if KeysJoin(j, strict, left, right) then [Joined(j, left, right)]
               else if j.joinType == L.RightOuter then [PaddedRight(j, right)] else []
  {
    assert [left][..0] == [] && [right][..0] == [];
    assert PairedRows(j, strict, left, [right][..0]) == [];
    assert LoopRows(j, strict, [left][..0], [right]) == [];
    assert UnpairedRights(j, strict, [left], [right][..0]) == [];
  }
}
