/** Push-down preserves what a plan means: row for row, every requested column keeps
    its cells, whatever the tables hold. */
module PushDownMeaning {
  import opened Results
  import opened Scalars
  import opened LogicalPlan
  import opened PushDown
  import opened PushDownSchemas

  ghost predicate Rectangular(r: Relation) {
    forall i :: 0 <= i < |r.rows| ==> |r.rows[i]| == |r.schema|
  }

  ghost predicate RowAgrees(s: Schema, row: Row, s': Schema, row': Row, names: set<string>) {
    forall n :: n in names ==> Cell(s', row', n) == Cell(s, row, n)
  }

  // The same number of rows in the same order, with the same cell under every name.
  ghost predicate Agrees(r: Relation, r': Relation, names: set<string>) {
    && FieldsAgree(r.schema, r'.schema, names)
    && |r'.rows| == |r.rows|
    && forall i :: 0 <= i < |r.rows| ==> RowAgrees(r.schema, r.rows[i], r'.schema, r'.rows[i], names)
  }

  // ---------------------------------------------------------------- cells

  lemma {:induction false} CellAppend(a: Schema, b: Schema, ra: Row, rb: Row, name: string)
    requires |ra| == |a|
    ensures Cell(a + b, ra + rb, name) == if name in Names(a) then Cell(a, ra, name) else Cell(b, rb, name)
  {
    if a == [] {
      assert a + b == b && ra + rb == rb;
    } else {
      assert (a + b)[1..] == a[1..] + b && (ra + rb)[1..] == ra[1..] + rb;
      CellAppend(a[1..], b, ra[1..], rb, name);
      assert Names(a) == {a[0].name} + Names(a[1..]);
    }
  }

  lemma {:induction false} CellWithout(s: Schema, row: Row, hidden: set<string>, name: string)
    requires |row| == |s|
    ensures |WithoutCells(s, row, hidden)| == |Without(s, hidden)|
    ensures Cell(Without(s, hidden), WithoutCells(s, row, hidden), name)
            == if name in hidden then None else Cell(s, row, name)
  {
    if s != [] {
      CellWithout(s[1..], row[1..], hidden, name);
    }
  }

  lemma {:induction false} CellPosition(s: Schema, row: Row, name: string)
    requires |row| == |s|
    ensures Cell(s, row, name).Some? <==> name in Names(s)
    ensures name in Names(s) ==> Cell(s, row, name) == Some(row[Position(s, name).value])
  {
    if s != [] {
      CellPosition(s[1..], row[1..], name);
      assert Names(s) == {s[0].name} + Names(s[1..]);
    }
  }

  lemma {:induction false} CellProjected(s: Schema, row: Row, names: seq<string>, name: string)
    requires |row| == |s|
    requires forall n :: n in names ==> n in Names(s)
    ensures ProjectSchema(s, names).Ok? && |ProjectRow(s, row, names)| == |names|
    ensures name in names ==> Cell(ProjectSchema(s, names).value, ProjectRow(s, row, names), name) == Cell(s, row, name)
  {
    ProjectSchemaFields(s, names, name);
    if names != [] {
      CellProjected(s, row, names[1..], name);
      CellPosition(s, row, names[0]);
      var fields, cells := ProjectSchema(s, names).value, ProjectRow(s, row, names);
      assert fields[1..] == ProjectSchema(s, names[1..]).value;
      assert cells[1..] == ProjectRow(s, row, names[1..]);
    }
  }

  // ---------------------------------------------------------------- expressions

  lemma {:induction false} BoundAgrees(e: Expr, s: Schema, s': Schema, names: set<string>)
    requires NamedExpr(e) && Wanted(e) <= names && FieldsAgree(s, s', names)
    ensures Bound(e, s') == Bound(e, s)
  {
    match e
    case Column(name) =>
      FindFieldNames(s, name);
      FindFieldNames(s', name);
    case DateSubtractInterval(d, i) => BoundAgrees(d, s, s', names); BoundAgrees(i, s, s', names);
    case DateAddInterval(d, i) => BoundAgrees(d, s, s', names); BoundAgrees(i, s, s', names);
    case Cast(inner, _) => BoundAgrees(inner, s, s', names);
    case BinaryExpr(l, _, r) => BoundAgrees(l, s, s', names); BoundAgrees(r, s, s', names);
    case Alias(inner, _) => BoundAgrees(inner, s, s', names);
    case _ =>
  }

  lemma {:induction false} EvalAgrees(w: World, e: Expr, s: Schema, row: Row, s': Schema, row': Row, names: set<string>)
    requires NamedExpr(e) && Wanted(e) <= names && RowAgrees(s, row, s', row', names)
    ensures Eval(w, e, s', row') == Eval(w, e, s, row)
  {
    match e
    case DateSubtractInterval(d, i) =>
      EvalAgrees(w, d, s, row, s', row', names);
      EvalAgrees(w, i, s, row, s', row', names);
    case DateAddInterval(d, i) =>
      EvalAgrees(w, d, s, row, s', row', names);
      EvalAgrees(w, i, s, row, s', row', names);
    case Cast(inner, _) => EvalAgrees(w, inner, s, row, s', row', names);
    case BinaryExpr(l, _, r) =>
      EvalAgrees(w, l, s, row, s', row', names);
      EvalAgrees(w, r, s, row, s', row', names);
    case Alias(inner, _) => EvalAgrees(w, inner, s, row, s', row', names);
    case _ =>
  }

  lemma {:induction false} EvalListAgrees(
    w: World, es: seq<Expr>, s: Schema, row: Row, s': Schema, row': Row, names: set<string>)
    requires NamedExprs(es) && (forall e :: e in es ==> Wanted(e) <= names)
    requires RowAgrees(s, row, s', row', names)
    ensures EvalList(w, es, s', row') == EvalList(w, es, s, row)
  {
    if es != [] {
      EvalAgrees(w, es[0], s, row, s', row', names);
      EvalListAgrees(w, es[1..], s, row, s', row', names);
    }
  }

  lemma {:induction false} EvalRowsAgree(w: World, es: seq<Expr>, r: Relation, r': Relation, names: set<string>)
    requires NamedExprs(es) && (forall e :: e in es ==> Wanted(e) <= names)
    requires Agrees(r, r', names)
    ensures AllBound(es, r'.schema) == AllBound(es, r.schema)
    ensures EvalRows(w, es, r') == EvalRows(w, es, r)
    decreases r.rows
  {
    forall e | e in es ensures Bound(e, r'.schema) == Bound(e, r.schema) {
      BoundAgrees(e, r.schema, r'.schema, names);
    }
    if r.rows != [] {
      EvalListAgrees(w, es, r.schema, r.rows[0], r'.schema, r'.rows[0], names);
      EvalRowsAgree(w, es, r.(rows := r.rows[1..]), r'.(rows := r'.rows[1..]), names);
    }
  }

  // ---------------------------------------------------------------- operators

  lemma {:induction false} SelectedAgree(r: Relation, r': Relation, verdicts: seq<Row>, names: set<string>)
    requires Agrees(r, r', names) && |verdicts| == |r.rows|
    ensures Agrees(r.(rows := Selected(r.rows, verdicts)), r'.(rows := Selected(r'.rows, verdicts)), names)
    decreases r.rows
  {
    if r.rows != [] {
      SelectedAgree(r.(rows := r.rows[1..]), r'.(rows := r'.rows[1..]), verdicts[1..], names);
    }
  }

  lemma {:induction false} KeyCellsAgree(s: Schema, row: Row, s': Schema, row': Row, keys: seq<string>,
                                         names: set<string>)
    requires RowAgrees(s, row, s', row', names) && forall k :: k in keys ==> k in names
    ensures KeyCells(s', row', keys) == KeyCells(s, row, keys)
  {
    forall i | 0 <= i < |keys| ensures Cell(s', row', keys[i]) == Cell(s, row, keys[i]) {
      assert keys[i] in keys;
    }
  }

  lemma {:induction false} JoinedRowAgrees(
    l: Schema, lrow: Row, l': Schema, lrow': Row, r: Schema, rrow: Row, r': Schema, rrow': Row,
    hidden: set<string>, names: set<string>)
    requires |lrow| == |l| && |lrow'| == |l'| && |rrow| == |r| && |rrow'| == |r'|
    requires FieldsAgree(l, l', names)
    requires RowAgrees(l, lrow, l', lrow', names) && RowAgrees(r, rrow, r', rrow', names)
    ensures RowAgrees(l + Without(r, hidden), lrow + WithoutCells(r, rrow, hidden),
                      l' + Without(r', hidden), lrow' + WithoutCells(r', rrow', hidden), names)
  {
    forall n | n in names
      ensures Cell(l' + Without(r', hidden), lrow' + WithoutCells(r', rrow', hidden), n)
              == Cell(l + Without(r, hidden), lrow + WithoutCells(r, rrow, hidden), n)
    {
      FindFieldNames(l, n);
      FindFieldNames(l', n);
      CellAppend(l, Without(r, hidden), lrow, WithoutCells(r, rrow, hidden), n);
      CellAppend(l', Without(r', hidden), lrow', WithoutCells(r', rrow', hidden), n);
      CellWithout(r, rrow, hidden, n);
      CellWithout(r', rrow', hidden, n);
    }
  }

  ghost predicate JoinKeysIn(on: seq<(string, string)>, names: set<string>) {
    forall k :: k in on ==> k.0 in names && k.1 in names
  }

  lemma {:induction false} MatchesAgree(
    l: Schema, lrow: Row, l': Schema, lrow': Row, r: Relation, r': Relation,
    on: seq<(string, string)>, names: set<string>)
    requires |lrow| == |l| && |lrow'| == |l'| && Rectangular(r) && Rectangular(r')
    requires FieldsAgree(l, l', names) && RowAgrees(l, lrow, l', lrow', names) && Agrees(r, r', names)
    requires JoinKeysIn(on, names)
    ensures var h := DuplicateKeys(on);
            Agrees(Relation(l + Without(r.schema, h), Matches(l, lrow, r, on)),
                   Relation(l' + Without(r'.schema, h), Matches(l', lrow', r', on)), names)
    decreases r.rows
  {
    var h := DuplicateKeys(on);
    JoinSchemaAgrees(l, l', r.schema, r'.schema, h, names);
    if r.rows != [] {
      MatchesAgree(l, lrow, l', lrow', r.(rows := r.rows[1..]), r'.(rows := r'.rows[1..]), on, names);
      KeyCellsAgree(l, lrow, l', lrow', LeftNames(on), names);
      KeyCellsAgree(r.schema, r.rows[0], r'.schema, r'.rows[0], RightNames(on), names);
      JoinedRowAgrees(l, lrow, l', lrow', r.schema, r.rows[0], r'.schema, r'.rows[0], h, names);
    }
  }

  lemma {:induction false} CellNulls(s: Schema, name: string)
    ensures Cell(s, Nulls(|s|), name) == if name in Names(s) then Some(Null) else None
  {
    CellPosition(s, Nulls(|s|), name);
  }

  lemma NullsAgree(s: Schema, s': Schema, names: set<string>)
    requires FieldsAgree(s, s', names)
    ensures RowAgrees(s, Nulls(|s|), s', Nulls(|s'|), names)
  {
    forall n | n in names ensures Cell(s', Nulls(|s'|), n) == Cell(s, Nulls(|s|), n) {
      FindFieldNames(s, n);
      FindFieldNames(s', n);
      CellNulls(s, n);
      CellNulls(s', n);
    }
  }

  lemma ContributionAgrees(
    l: Schema, lrow: Row, l': Schema, lrow': Row, r: Relation, r': Relation, outer: bool,
    on: seq<(string, string)>, names: set<string>)
    requires |lrow| == |l| && |lrow'| == |l'| && Rectangular(r) && Rectangular(r')
    requires FieldsAgree(l, l', names) && RowAgrees(l, lrow, l', lrow', names) && Agrees(r, r', names)
    requires JoinKeysIn(on, names)
    ensures var h := DuplicateKeys(on);
            Agrees(Relation(l + Without(r.schema, h), Contribution(l, lrow, r, outer, on)),
                   Relation(l' + Without(r'.schema, h), Contribution(l', lrow', r', outer, on)), names)
  {
    MatchesAgree(l, lrow, l', lrow', r, r', on, names);
    NullsAgree(r.schema, r'.schema, names);
    JoinedRowAgrees(l, lrow, l', lrow', r.schema, Nulls(|r.schema|), r'.schema, Nulls(|r'.schema|),
                    DuplicateKeys(on), names);
  }

  lemma AgreesAppend(s: Schema, s': Schema, a: seq<Row>, a': seq<Row>, b: seq<Row>, b': seq<Row>, names: set<string>)
    requires Agrees(Relation(s, a), Relation(s', a'), names) && Agrees(Relation(s, b), Relation(s', b'), names)
    ensures Agrees(Relation(s, a + b), Relation(s', a' + b'), names)
  {
  }

  lemma {:induction false} JoinRowsAgree(
    l: Relation, l': Relation, r: Relation, r': Relation, outer: bool,
    on: seq<(string, string)>, names: set<string>)
    requires Rectangular(l) && Rectangular(l') && Rectangular(r) && Rectangular(r')
    requires Agrees(l, l', names) && Agrees(r, r', names) && JoinKeysIn(on, names)
    ensures var h := DuplicateKeys(on);
            Agrees(Relation(l.schema + Without(r.schema, h), JoinRows(l, r, outer, on)),
                   Relation(l'.schema + Without(r'.schema, h), JoinRows(l', r', outer, on)), names)
    decreases l.rows
  {
    var h := DuplicateKeys(on);
    if l.rows == [] {
      JoinSchemaAgrees(l.schema, l'.schema, r.schema, r'.schema, h, names);
    } else {
      var rest, rest' := l.(rows := l.rows[1..]), l'.(rows := l'.rows[1..]);
      JoinRowsAgree(rest, rest', r, r', outer, on, names);
      ContributionAgrees(l.schema, l.rows[0], l'.schema, l'.rows[0], r, r', outer, on, names);
      AgreesAppend(l.schema + Without(r.schema, h), l'.schema + Without(r'.schema, h),
                   Contribution(l.schema, l.rows[0], r, outer, on), Contribution(l'.schema, l'.rows[0], r', outer, on),
                   JoinRows(rest, r, outer, on), JoinRows(rest', r', outer, on), names);
    }
  }

  lemma PairedAgrees(
    l: Relation, l': Relation, r: Schema, rrow: Row, r': Schema, rrow': Row, on: seq<(string, string)>,
    names: set<string>)
    requires Agrees(l, l', names) && RowAgrees(r, rrow, r', rrow', names) && JoinKeysIn(on, names)
    ensures Paired(l', r', rrow', on) == Paired(l, r, rrow, on)
  {
    hide KeyCells;
    KeyCellsAgree(r, rrow, r', rrow', RightNames(on), names);
    forall i | 0 <= i < |l.rows|
      ensures KeyCells(l'.schema, l'.rows[i], LeftNames(on)) == KeyCells(l.schema, l.rows[i], LeftNames(on))
    {
      KeyCellsAgree(l.schema, l.rows[i], l'.schema, l'.rows[i], LeftNames(on), names);
    }
  }

  lemma {:induction false} UnpairedAgree(
    l: Relation, l': Relation, r: Relation, r': Relation, on: seq<(string, string)>, names: set<string>)
    requires Rectangular(r) && Rectangular(r')
    requires Agrees(l, l', names) && Agrees(r, r', names) && JoinKeysIn(on, names)
    ensures var h := DuplicateKeys(on);
            Agrees(Relation(l.schema + Without(r.schema, h), Unpaired(l, r, on)),
                   Relation(l'.schema + Without(r'.schema, h), Unpaired(l', r', on)), names)
    decreases r.rows
  {
    var h := DuplicateKeys(on);
    JoinSchemaAgrees(l.schema, l'.schema, r.schema, r'.schema, h, names);
    if r.rows != [] {
      UnpairedAgree(l, l', r.(rows := r.rows[1..]), r'.(rows := r'.rows[1..]), on, names);
      PairedAgrees(l, l', r.schema, r.rows[0], r'.schema, r'.rows[0], on, names);
      NullsAgree(l.schema, l'.schema, names);
      JoinedRowAgrees(l.schema, Nulls(|l.schema|), l'.schema, Nulls(|l'.schema|),
                      r.schema, r.rows[0], r'.schema, r'.rows[0], h, names);
    }
  }

  lemma JoinResultAgrees(
    l: Relation, l': Relation, r: Relation, r': Relation, joinType: JoinType,
    on: seq<(string, string)>, names: set<string>)
    requires Rectangular(l) && Rectangular(l') && Rectangular(r) && Rectangular(r')
    requires Agrees(l, l', names) && Agrees(r, r', names) && JoinKeysIn(on, names)
    ensures var h := DuplicateKeys(on);
            Agrees(Relation(l.schema + Without(r.schema, h), JoinResult(l, r, joinType, on)),
                   Relation(l'.schema + Without(r'.schema, h), JoinResult(l', r', joinType, on)), names)
  {
    var h := DuplicateKeys(on);
    JoinRowsAgree(l, l', r, r', joinType == LeftOuter, on, names);
    UnpairedAgree(l, l', r, r', on, names);
    AgreesAppend(l.schema + Without(r.schema, h), l'.schema + Without(r'.schema, h),
                 JoinRows(l, r, joinType == LeftOuter, on), JoinRows(l', r', joinType == LeftOuter, on),
                 Unpaired(l, r, on), Unpaired(l', r', on), names);
  }

  lemma KeysBoundAgree(l: Schema, l': Schema, r: Schema, r': Schema, on: seq<(string, string)>, names: set<string>)
    requires FieldsAgree(l, l', names) && FieldsAgree(r, r', names) && JoinKeysIn(on, names)
    ensures KeysBound(l', r', on) == KeysBound(l, r, on)
  {
    forall k | k in on
      ensures (k.0 in Names(l') <==> k.0 in Names(l)) && (k.1 in Names(r') <==> k.1 in Names(r))
    {
      FindFieldNames(l, k.0);
      FindFieldNames(l', k.0);
      FindFieldNames(r, k.1);
      FindFieldNames(r', k.1);
    }
  }

  // ---------------------------------------------------------------- shape of a meaning

  lemma {:induction false} EvalRowsWidth(w: World, es: seq<Expr>, r: Relation)
    requires EvalRows(w, es, r).Some?
    ensures |EvalRows(w, es, r).value| == |r.rows|
    ensures forall i :: 0 <= i < |r.rows| ==> |EvalRows(w, es, r).value[i]| == |es|
    decreases r.rows
  {
    if r.rows != [] {
      EvalListWidth(w, es, r.schema, r.rows[0]);
      EvalRowsWidth(w, es, r.(rows := r.rows[1..]));
    }
  }

  lemma {:induction false} EvalListWidth(w: World, es: seq<Expr>, s: Schema, row: Row)
    ensures EvalList(w, es, s, row).Some? ==> |EvalList(w, es, s, row).value| == |es|
  {
    if es != [] {
      EvalListWidth(w, es[1..], s, row);
    }
  }

  lemma {:induction false} ToFieldsWidth(text: Texts, es: seq<Expr>, input: Result<Schema>)
    ensures ToFields(text, es, input).Ok? ==> |ToFields(text, es, input).value| == |es|
  {
    if es != [] {
      ToFieldsWidth(text, es[1..], input);
    }
  }

  lemma {:induction false} SelectedIsPart(rows: seq<Row>, verdicts: seq<Row>)
    requires |rows| == |verdicts|
    ensures forall row :: row in Selected(rows, verdicts) ==> row in rows
  {
    if rows != [] {
      SelectedIsPart(rows[1..], verdicts[1..]);
    }
  }

  lemma {:induction false} ReduceWidth(w: World, aggs: seq<Expr>, args: seq<Row>, column: nat)
    ensures Reduce(w, aggs, args, column).Some? ==> |Reduce(w, aggs, args, column).value| == |aggs|
  {
    if aggs != [] {
      ReduceWidth(w, aggs[1..], args, column + 1);
    }
  }

  lemma {:induction false} GroupRowsWidth(
    w: World, aggs: seq<Expr>, keys: seq<Row>, args: seq<Row>, order: seq<Row>, width: nat)
    requires |keys| == |args| && forall k :: k in order ==> |k| == width
    ensures var g := GroupRows(w, aggs, keys, args, order);
            g.Some? ==> forall row :: row in g.value ==> |row| == width + |aggs|
    decreases order
  {
    if order != [] {
      ReduceWidth(w, aggs, MembersOf(keys, args, order[0]), 0);
      GroupRowsWidth(w, aggs, keys, args, order[1..], width);
    }
  }

  lemma {:induction false} FirstOccurrencesArePart(keys: seq<Row>)
    ensures forall k :: k in FirstOccurrences(keys) ==> k in keys
  {
    if keys != [] {
      FirstOccurrencesArePart(keys[..|keys| - 1]);
    }
  }

  lemma {:induction false} MatchesWidth(l: Schema, lrow: Row, r: Relation, on: seq<(string, string)>)
    requires |lrow| == |l| && Rectangular(r)
    ensures forall row :: row in Matches(l, lrow, r, on) ==>
              |row| == |l| + |Without(r.schema, DuplicateKeys(on))|
    decreases r.rows
  {
    if r.rows != [] {
      MatchesWidth(l, lrow, r.(rows := r.rows[1..]), on);
      CellWithout(r.schema, r.rows[0], DuplicateKeys(on), "");
    }
  }

  lemma ContributionWidth(l: Schema, lrow: Row, r: Relation, outer: bool, on: seq<(string, string)>)
    requires |lrow| == |l| && Rectangular(r)
    ensures forall row :: row in Contribution(l, lrow, r, outer, on) ==>
              |row| == |l| + |Without(r.schema, DuplicateKeys(on))|
  {
    MatchesWidth(l, lrow, r, on);
    CellWithout(r.schema, Nulls(|r.schema|), DuplicateKeys(on), "");
  }

  lemma {:induction false} JoinRowsWidth(l: Relation, r: Relation, outer: bool, on: seq<(string, string)>)
    requires Rectangular(l) && Rectangular(r)
    ensures forall row :: row in JoinRows(l, r, outer, on) ==>
              |row| == |l.schema| + |Without(r.schema, DuplicateKeys(on))|
    decreases l.rows
  {
    if l.rows != [] {
      JoinRowsWidth(l.(rows := l.rows[1..]), r, outer, on);
      ContributionWidth(l.schema, l.rows[0], r, outer, on);
    }
  }

  lemma {:induction false} UnpairedWidth(l: Relation, r: Relation, on: seq<(string, string)>)
    requires Rectangular(r)
    ensures forall row :: row in Unpaired(l, r, on) ==> |row| == |l.schema| + |Without(r.schema, DuplicateKeys(on))|
    decreases r.rows
  {
    if r.rows != [] {
      UnpairedWidth(l, r.(rows := r.rows[1..]), on);
      CellWithout(r.schema, r.rows[0], DuplicateKeys(on), "");
    }
  }

  lemma {:induction false} ScanRectangular(s: Schema, rows: seq<Row>, projection: seq<string>)
    requires forall row :: row in rows ==> |row| == |s|
    requires DeriveSchema(s, projection).Ok?
    ensures Rectangular(Relation(DeriveSchema(s, projection).value, ScanRows(s, rows, projection)))
  {
    if projection != [] {
      ProjectSchemaResolves(s, projection);
      ProjectSchemaFields(s, projection, "");
      forall i | 0 <= i < |rows| ensures |ScanRows(s, rows, projection)[i]| == |projection| {
        CellProjected(s, rows[i], projection, "");
      }
    }
  }

  lemma {:induction false} ProjectSchemaResolves(s: Schema, names: seq<string>)
    requires ProjectSchema(s, names).Ok?
    ensures forall n :: n in names ==> n in Names(s)
  {
    if names != [] {
      ProjectSchemaResolves(s, names[1..]);
    }
  }

  /** A meaning carries the plan's schema, and every row is as wide as it. */
  lemma {:induction false} DenoteRectangular(w: World, p: Plan)
    requires WellTyped(w) && Denote(w, p).Some?
    ensures SchemaOf(w.text, p) == Ok(Denote(w, p).value.schema)
    ensures Rectangular(Denote(w, p).value)
  {
    match p
    case TableScan(_, source, projection) =>
      ScanRectangular(source.schema, w.rows(source), projection);
    case Projection(input, exprs) =>
      EvalRowsWidth(w, exprs, Denote(w, input).value);
      ToFieldsWidth(w.text, exprs, SchemaOf(w.text, input));
    case Filter(input, condition) =>
      DenoteRectangular(w, input);
      var r := Denote(w, input).value;
      EvalRowsWidth(w, [condition], r);
      var kept := Selected(r.rows, EvalRows(w, [condition], r).value);
      SelectedIsPart(r.rows, EvalRows(w, [condition], r).value);
      forall i | 0 <= i < |kept| ensures |kept[i]| == |r.schema| {
        assert kept[i] in r.rows;
      }
    case Aggregate(input, group, aggs) =>
      var r := Denote(w, input).value;
      var args := AggregateArgs(aggs).value;
      EvalRowsWidth(w, group, r);
      EvalRowsWidth(w, args, r);
      var keys, values := EvalRows(w, group, r).value, EvalRows(w, args, r).value;
      FirstOccurrencesArePart(keys);
      GroupRowsWidth(w, aggs, keys, values, FirstOccurrences(keys), |group|);
      ToFieldsWidth(w.text, group, SchemaOf(w.text, input));
      ToFieldsWidth(w.text, aggs, SchemaOf(w.text, input));
    case Limit(input, _) => DenoteRectangular(w, input);
    case Join(left, right, joinType, on) =>
      DenoteRectangular(w, left);
      DenoteRectangular(w, right);
      JoinRowsWidth(Denote(w, left).value, Denote(w, right).value, joinType == LeftOuter, on);
      UnpairedWidth(Denote(w, left).value, Denote(w, right).value, on);
      OneLayout(Denote(w, left).value.schema, Denote(w, right).value.schema, joinType, on);
  }

  // ---------------------------------------------------------------- the main result

  lemma {:induction false} ScanRowAgrees(s: Schema, row: Row, list: seq<string>, names: set<string>)
    requires |row| == |s| && forall n :: n in list <==> n in names && n in Names(s)
    ensures ProjectSchema(s, list).Ok?
    ensures RowAgrees(s, row, ProjectSchema(s, list).value, ProjectRow(s, row, list), names)
  {
    ProjectSchemaFields(s, list, "");
    var s' := ProjectSchema(s, list).value;
    forall n | n in names ensures Cell(s', ProjectRow(s, row, list), n) == Cell(s, row, n) {
      CellProjected(s, row, list, n);
      CellPosition(s, row, n);
      CellPosition(s', ProjectRow(s, row, list), n);
      ProjectSchemaFields(s, list, n);
    }
  }

  lemma {:induction false} ScanAgrees(s: Schema, rows: seq<Row>, names: set<string>)
    requires forall row :: row in rows ==> |row| == |s|
    ensures var list := Sort(Chosen(s, names));
            && DeriveSchema(s, list).Ok?
            && Agrees(Relation(s, rows), Relation(DeriveSchema(s, list).value, ScanRows(s, rows, list)), names)
  {
    var list := Sort(Chosen(s, names));
    ScanSchemaAgrees(s, names);
    ChosenNames(s, names);
    SortSorts(Chosen(s, names));
    if list != [] {
      forall i | 0 <= i < |rows|
        ensures RowAgrees(s, rows[i], ProjectSchema(s, list).value, ScanRows(s, rows, list)[i], names)
      {
        ScanRowAgrees(s, rows[i], list, names);
      }
    }
  }

  lemma ArgumentsNamed(aggs: seq<Expr>, names: set<string>)
    requires NamedExprs(aggs) && forall e :: e in aggs ==> Wanted(e) <= names
    requires AggregateArgs(aggs).Some?
    ensures NamedExprs(AggregateArgs(aggs).value)
    ensures forall e :: e in AggregateArgs(aggs).value ==> Wanted(e) <= names
  {
    if aggs != [] {
      ArgumentsNamed(aggs[1..], names);
      assert NamedExpr(aggs[0]) && aggs[0].args[0] in aggs[0].args;
      assert Wanted(aggs[0].args[0]) <= Wanted(aggs[0]);
    }
  }

  /** Push-down preserves meaning. For every plan that refers to columns by name, every
      request and all table contents: the rewritten plan has the same rows in the same
      order, as far as the requested columns can tell. */
  lemma {:induction false} PushDownAgrees(w: World, p: Plan, names: set<string>)
    requires WellTyped(w) && Plain(p) && Push(w.text, p, names).Ok? && Denote(w, p).Some?
    ensures Denote(w, Push(w.text, p, names).value.0).Some?
    ensures Agrees(Denote(w, p).value, Denote(w, Push(w.text, p, names).value.0).value, names)
    decreases p, 1
  {
    SchemaAgrees(w.text, p, names);
    match p
    case TableScan(_, source, _) => ScanAgrees(source.schema, w.rows(source), names);
    case Projection(_, _) => ProjectionKept(w, p, names);
    case Filter(input, condition) =>
      ExtractAddsWanted(condition, SchemaOf(w.text, input), SchemaOf(w.text, input), names);
      var a := names + Wanted(condition);
      PushDownAgrees(w, input, a);
      var r, r' := Denote(w, input).value, Denote(w, Push(w.text, input, a).value.0).value;
      EvalRowsAgree(w, [condition], r, r', a);
      BoundAgrees(condition, r.schema, r'.schema, a);
      EvalRowsLength(w, [condition], r);
      DenoteRectangular(w, input);
      DenoteRectangular(w, Push(w.text, input, a).value.0);
      SelectedAgree(r, r', EvalRows(w, [condition], r).value, a);
    case Aggregate(_, _, _) => AggregateKept(w, p, names);
    case Limit(input, _) =>
      PushDownAgrees(w, input, names);
      DenoteRectangular(w, input);
      DenoteRectangular(w, Push(w.text, input, names).value.0);
    case Join(_, _, _, _) => JoinAgrees(w, p, names);
  }

  lemma {:induction false} JoinAgrees(w: World, p: Plan, names: set<string>)
    requires p.Join?
    requires WellTyped(w) && Plain(p) && Push(w.text, p, names).Ok? && Denote(w, p).Some?
    ensures Denote(w, Push(w.text, p, names).value.0).Some?
    ensures Agrees(Denote(w, p).value, Denote(w, Push(w.text, p, names).value.0).value, names)
    decreases p, 0
  {
    var Join(left, right, joinType, on) := p;
    var a := JoinRequest(w.text, left, right, on, names).value;
    var ql := Push(w.text, left, a).value;
    var qr := Push(w.text, right, ql.1).value;
    PushGrows(w.text, left, a);
    SchemaAgrees(w.text, p, names);
    PushDownAgrees(w, left, a);
    PushDownAgrees(w, right, ql.1);
    var l, l' := Denote(w, left).value, Denote(w, ql.0).value;
    var r, r' := Denote(w, right).value, Denote(w, qr.0).value;
    DenoteRectangular(w, left);
    DenoteRectangular(w, ql.0);
    DenoteRectangular(w, right);
    DenoteRectangular(w, qr.0);
    KeysBoundAgree(l.schema, l'.schema, r.schema, r'.schema, on, a);
    JoinResultAgrees(l, l', r, r', joinType, on, a);
    OneLayout(l.schema, r.schema, joinType, on);
    OneLayout(l'.schema, r'.schema, joinType, on);
  }

  /** A projection's output does not change at all: schema, rows and order. */
  lemma {:induction false} ProjectionKept(w: World, p: Plan, names: set<string>)
    requires p.Projection?
    requires WellTyped(w) && Plain(p) && Push(w.text, p, names).Ok? && Denote(w, p).Some?
    ensures Denote(w, Push(w.text, p, names).value.0) == Denote(w, p)
    decreases p, 0
  {
    var Projection(input, exprs) := p;
    var s := SchemaOf(w.text, input);
    ExtractListAddsWanted(exprs, s, s, names);
    var a := ExtractColumnsList(exprs, s, names).value;
    PushDownAgrees(w, input, a);
    SchemaAgrees(w.text, p, names);
    DenoteRectangular(w, input);
    DenoteRectangular(w, Push(w.text, input, a).value.0);
    OutputSchemaKept(w.text, p, names);
    EvalRowsAgree(w, exprs, Denote(w, input).value, Denote(w, Push(w.text, input, a).value.0).value, a);
  }

  /** Nor does an aggregate's. */
  lemma {:induction false} AggregateKept(w: World, p: Plan, names: set<string>)
    requires p.Aggregate?
    requires WellTyped(w) && Plain(p) && Push(w.text, p, names).Ok? && Denote(w, p).Some?
    ensures Denote(w, Push(w.text, p, names).value.0) == Denote(w, p)
    decreases p, 0
  {
    var Aggregate(input, group, aggs) := p;
    var s := SchemaOf(w.text, input);
    ExtractListAddsWanted(group, s, s, names);
    var a := ExtractColumnsList(group, s, names).value;
    ExtractArgumentsAddsWanted(aggs, s, s, a);
    var b := ExtractArguments(aggs, s, a).value;
    PushDownAgrees(w, input, b);
    OutputSchemaKept(w.text, p, names);
    ArgumentsNamed(aggs, b);
    var r, r' := Denote(w, input).value, Denote(w, Push(w.text, input, b).value.0).value;
    EvalRowsAgree(w, group, r, r', b);
    EvalRowsAgree(w, AggregateArgs(aggs).value, r, r', b);
  }
}
