/** Outer joins pad rows with nulls, and the output schema keeps the fields of both sides as
    they are: when a padded row can be handed on. */
module OuterJoinNulls {
  import opened Results
  import opened Scalars
  import opened Batches
  import opened LogicalPlan
  import opened PushDownSchemas
  import opened PushDownMeaning
  import opened HashJoinMeaning

  predicate RowAllowed(s: Schema, row: Row) {
    |row| == |s| && forall i :: 0 <= i < |s| ==> s[i].nullable || row[i] != Null
  }

  predicate AllAllowed(s: Schema, rows: seq<Row>) {
    forall row :: row in rows ==> RowAllowed(s, row)
  }

  predicate AllNullable(s: Schema) {
    forall f :: f in s ==> f.nullable
  }

  lemma AllowedRows(s: Schema, rows: seq<Row>)
    requires forall row :: row in rows ==> |row| == |s|
    ensures NullsAllowed(Relation(s, rows)) <==> AllAllowed(s, rows)
  {
    if NullsAllowed(Relation(s, rows)) {
      forall row, i | row in rows && 0 <= i < |s| ensures s[i].nullable || row[i] != Null {
        if !s[i].nullable {
          assert i in Required(s);
        }
      }
    }
  }

  lemma AllowedBoth(s: Schema, t: Schema, a: Row, b: Row)
    requires |a| == |s| && |b| == |t|
    ensures RowAllowed(s + t, a + b) <==> RowAllowed(s, a) && RowAllowed(t, b)
  {
    if RowAllowed(s + t, a + b) {
      forall i | 0 <= i < |s| ensures s[i].nullable || a[i] != Null {
        assert (s + t)[i] == s[i] && (a + b)[i] == a[i];
      }
      forall i | 0 <= i < |t| ensures t[i].nullable || b[i] != Null {
        assert (s + t)[|s| + i] == t[i] && (a + b)[|s| + i] == b[i];
      }
    }
  }

  lemma {:induction false} AllowedWithout(s: Schema, row: Row, hidden: set<string>)
    requires RowAllowed(s, row)
    ensures RowAllowed(Without(s, hidden), WithoutCells(s, row, hidden))
  {
    if s != [] {
      AllowedWithout(s[1..], row[1..], hidden);
      assert s == [s[0]] + s[1..] && row == [row[0]] + row[1..];
      AllowedBoth([s[0]], s[1..], [row[0]], row[1..]);
      AllowedBoth([s[0]], Without(s[1..], hidden), [row[0]], WithoutCells(s[1..], row[1..], hidden));
    }
  }

  lemma {:induction false} PaddingAllowed(s: Schema, hidden: set<string>)
    ensures RowAllowed(Without(s, hidden), WithoutCells(s, Nulls(|s|), hidden)) <==> AllNullable(Without(s, hidden))
  {
    if s != [] {
      var rest := Without(s[1..], hidden);
      PaddingAllowed(s[1..], hidden);
      assert Nulls(|s|)[1..] == Nulls(|s| - 1);
      var cells := WithoutCells(s[1..], Nulls(|s| - 1), hidden);
      CellWithout(s[1..], Nulls(|s| - 1), hidden, "");
      AllowedBoth([s[0]], rest, [Null], cells);
    }
  }

  // ---------------------------------------------------------------- joined rows

  lemma JoinedAllowed(l: Schema, r: Schema, on: KeyNames, left: Row, right: Row)
    requires RowAllowed(l, left) && RowAllowed(r, right)
    ensures RowAllowed(l + Without(r, DuplicateKeys(on)), left + WithoutCells(r, right, DuplicateKeys(on)))
  {
    AllowedWithout(r, right, DuplicateKeys(on));
    AllowedBoth(l, Without(r, DuplicateKeys(on)), left, WithoutCells(r, right, DuplicateKeys(on)));
  }

  lemma {:induction false} MatchesAllowed(l: Schema, left: Row, r: Relation, on: KeyNames)
    requires RowAllowed(l, left) && AllAllowed(r.schema, r.rows)
    ensures AllAllowed(l + Without(r.schema, DuplicateKeys(on)), Matches(l, left, r, on))
    decreases r.rows
  {
    if r.rows != [] {
      MatchesAllowed(l, left, r.(rows := r.rows[1..]), on);
      JoinedAllowed(l, r.schema, on, left, r.rows[0]);
    }
  }

  lemma ContributionAllowed(l: Schema, left: Row, r: Relation, outer: bool, on: KeyNames)
    requires RowAllowed(l, left) && AllAllowed(r.schema, r.rows)
    ensures AllAllowed(l + Without(r.schema, DuplicateKeys(on)), Contribution(l, left, r, outer, on))
            <==> !outer || Matches(l, left, r, on) != [] || AllNullable(Without(r.schema, DuplicateKeys(on)))
  {
    MatchesAllowed(l, left, r, on);
    var hidden := DuplicateKeys(on);
    var padding := WithoutCells(r.schema, Nulls(|r.schema|), hidden);
    PaddingAllowed(r.schema, hidden);
    CellWithout(r.schema, Nulls(|r.schema|), hidden, "");
    AllowedBoth(l, Without(r.schema, hidden), left, padding);
  }

  lemma {:induction false} JoinRowsAllowed(l: Relation, r: Relation, outer: bool, on: KeyNames)
    requires AllAllowed(l.schema, l.rows) && AllAllowed(r.schema, r.rows)
    ensures AllAllowed(l.schema + Without(r.schema, DuplicateKeys(on)), JoinRows(l, r, outer, on))
            <==> !outer || AllNullable(Without(r.schema, DuplicateKeys(on)))
                 || forall left :: left in l.rows ==> Matches(l.schema, left, r, on) != []
    decreases l.rows
  {
    if l.rows != [] {
      hide Contribution, Matches, RowAllowed, AllNullable;
      var rest := l.(rows := l.rows[1..]);
      JoinRowsAllowed(rest, r, outer, on);
      ContributionAllowed(l.schema, l.rows[0], r, outer, on);
      var s, first, more := l.schema + Without(r.schema, DuplicateKeys(on)),
                            Contribution(l.schema, l.rows[0], r, outer, on), JoinRows(rest, r, outer, on);
      assert AllAllowed(s, first + more) <==> AllAllowed(s, first) && AllAllowed(s, more) by {
        assert forall row :: row in first + more <==> row in first || row in more;
      }
      assert forall left :: left in l.rows <==> left == l.rows[0] || left in rest.rows;
    }
  }

  lemma {:induction false} UnpairedAllowed(l: Relation, r: Relation, on: KeyNames)
    requires AllAllowed(r.schema, r.rows)
    ensures AllAllowed(l.schema + Without(r.schema, DuplicateKeys(on)), Unpaired(l, r, on))
            <==> AllNullable(l.schema) || forall right :: right in r.rows ==> Paired(l, r.schema, right, on)
    decreases r.rows
  {
    if r.rows != [] {
      hide Paired, AllNullable, RowAllowed;
      var rest := r.(rows := r.rows[1..]);
      UnpairedAllowed(l, rest, on);
      assert r.rows[0] in r.rows;
      PaddedAllowed(l.schema, r.schema, r.rows[0], DuplicateKeys(on));
      assert forall right :: right in r.rows <==> right == r.rows[0] || right in rest.rows;
    }
  }

  lemma PaddedAllowed(l: Schema, r: Schema, right: Row, hidden: set<string>)
    requires RowAllowed(r, right)
    ensures RowAllowed(l + Without(r, hidden), Nulls(|l|) + WithoutCells(r, right, hidden)) <==> AllNullable(l)
  {
    AllowedWithout(r, right, hidden);
    AllowedBoth(l, Without(r, hidden), Nulls(|l|), WithoutCells(r, right, hidden));
    assert RowAllowed(l, Nulls(|l|)) <==> AllNullable(l);
  }

  // ---------------------------------------------------------------- the join

  /** With nulls on either side only where their fields allow them, an inner join's rows have
      no others; a left join's have none exactly when every left row finds a match or all
      right fields that are kept are nullable; and a right join's exactly when every right
      row is matched or all left fields are nullable. */
  lemma PaddingFitsIff(l: Relation, r: Relation, joinType: JoinType, on: KeyNames)
    requires Rectangular(l) && Rectangular(r) && NullsAllowed(l) && NullsAllowed(r) && HasOneLayout(joinType, on)
    ensures JoinSchema(l.schema, r.schema, joinType, on).Ok?
    ensures NullsAllowed(Relation(JoinSchema(l.schema, r.schema, joinType, on).value, JoinResult(l, r, joinType, on)))
            <==> && (joinType == LeftOuter ==>
                       AllNullable(Without(r.schema, DuplicateKeys(on)))
                       || forall left :: left in l.rows ==> Matches(l.schema, left, r, on) != [])
                 && (joinType == RightOuter ==>
                       AllNullable(l.schema)
                       || forall right :: right in r.rows ==> Paired(l, r.schema, right, on))
  {
    hide JoinRows, Unpaired, Matches, Paired, RowAllowed, AllNullable, NullsAllowed;
    OneLayout(l.schema, r.schema, joinType, on);
    SideAllowed(l);
    SideAllowed(r);
    JoinRowsAllowed(l, r, joinType == LeftOuter, on);
    UnpairedAllowed(l, r, on);
    var s, rows := l.schema + Without(r.schema, DuplicateKeys(on)), JoinResult(l, r, joinType, on);
    assert AllAllowed(s, rows) <==>
           AllAllowed(s, JoinRows(l, r, joinType == LeftOuter, on))
           && (joinType == RightOuter ==> AllAllowed(s, Unpaired(l, r, on)));
    JoinResultWidth(l, r, joinType, on);
    AllowedRows(s, rows);
  }

  lemma SideAllowed(r: Relation)
    requires Rectangular(r) && NullsAllowed(r)
    ensures AllAllowed(r.schema, r.rows)
  {
    AllowedRows(r.schema, r.rows);
  }

  lemma JoinResultWidth(l: Relation, r: Relation, joinType: JoinType, on: KeyNames)
    requires Rectangular(l) && Rectangular(r)
    ensures forall row :: row in JoinResult(l, r, joinType, on) ==>
              |row| == |l.schema + Without(r.schema, DuplicateKeys(on))|
  {
    JoinRowsWidth(l, r, joinType == LeftOuter, on);
    UnpairedWidth(l, r, on);
  }

  /** A left row without a match cannot be handed on when a right field allows no nulls. */
  lemma OnePaddedRow()
    ensures var l := Relation([Field("id", Int32Type, false)], [[Int32(1)]]);
            var r := Relation([Field("rid", Int32Type, false)], [[Int32(2)]]);
            var on := [("id", "rid")];
            && NullsAllowed(l) && NullsAllowed(r)
            && !NullsAllowed(Relation(JoinSchema(l.schema, r.schema, LeftOuter, on).value,
                                      JoinResult(l, r, LeftOuter, on)))
  {
    hide JoinResult, JoinSchema;
    var l := Relation([Field("id", Int32Type, false)], [[Int32(1)]]);
    var r := Relation([Field("rid", Int32Type, false)], [[Int32(2)]]);
    var on := [("id", "rid")];
    assert DuplicateKeys(on) == {};
    WithoutNothing(r.schema);
    assert KeyCells(l.schema, [Int32(1)], LeftNames(on))[0] == Some(Int32(1));
    assert KeyCells(r.schema, [Int32(2)], RightNames(on))[0] == Some(Int32(2));
    assert r.rows[1..] == [];
    assert Matches(l.schema, [Int32(1)], r, on) == Matches(l.schema, [Int32(1)], r.(rows := []), on) == [];
    assert l.rows[0] in l.rows && r.schema[0] in r.schema;
    PaddingFitsIff(l, r, LeftOuter, on);
  }
}
