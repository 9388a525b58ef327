/** When the optimizer returns the very same result, columns and all: below a
    projection or an aggregate always, at the root exactly when each exposed scan keeps
    its columns in place. */
module PushDownExact {
  import opened Results
  import opened Scalars
  import opened Operators
  import opened LogicalPlan
  import opened PushDown
  import opened PushDownSchemas
  import opened PushDownMeaning

  // ---------------------------------------------------------------- the condition

  function NameList(s: Schema): seq<string> {
    if s == [] then [] else [s[0].name] + NameList(s[1..])
  }

  function Visible(names: seq<string>, hidden: set<string>): seq<string> {
    if names == [] then []
    else (if names[0] in hidden then [] else [names[0]]) + Visible(names[1..], hidden)
  }

  predicate DistinctNames(s: Schema) {
    forall i, j :: 0 <= i < j < |s| ==> s[i].name != s[j].name
  }

  // The exposed scans, those below no projection or aggregate, have no repeated column.
  predicate DistinctSources(p: Plan) {
    match p
    case TableScan(_, source, _) => DistinctNames(source.schema)
    case Projection(_, _) => true
    case Aggregate(_, _, _) => true
    case Filter(input, _) => DistinctSources(input)
    case Limit(input, _) => DistinctSources(input)
    case Join(left, right, _, _) => DistinctSources(left) && DistinctSources(right)
  }

  // Every scan lies below a projection or an aggregate.
  predicate Covered(p: Plan) {
    match p
    case TableScan(_, _, _) => false
    case Projection(_, _) => true
    case Aggregate(_, _, _) => true
    case Filter(input, _) => Covered(input)
    case Limit(input, _) => Covered(input)
    case Join(left, right, _, _) => Covered(left) && Covered(right)
  }

  // Columns of one name have one field, as far as they are visible.
  predicate FieldsByName(s: Schema, hidden: set<string>) {
    forall f :: f in s && f.name !in hidden ==> FindField(s, f.name) == Some(f)
  }

  // The columns of either side that do not show above a join: of a key that both sides name
  // alike, the other side's column shows.
  function HiddenLeft(joinType: JoinType, on: seq<(string, string)>, hidden: set<string>): set<string> {
    if joinType == RightOuter then DuplicateKeys(on) + hidden else hidden
  }

  function HiddenRight(joinType: JoinType, on: seq<(string, string)>, hidden: set<string>): set<string> {
    if joinType == RightOuter then hidden else DuplicateKeys(on) + hidden
  }

  // Each exposed scan is asked for nothing, or for all its columns, which are already
  // sorted; columns that a join above drops (`hidden`) do not matter.
  predicate KeepsColumns(text: Texts, p: Plan, names: set<string>, hidden: set<string>)
    requires Push(text, p, names).Ok?
  {
    match p
    case TableScan(_, source, _) =>
      var list := Sort(Chosen(source.schema, names));
      list == [] || (Visible(list, hidden) == Visible(NameList(source.schema), hidden)
                     && FieldsByName(source.schema, hidden))
    case Projection(_, _) => true
    case Aggregate(_, _, _) => true
    case Filter(input, condition) =>
      KeepsColumns(text, input, ExtractColumns(condition, SchemaOf(text, input), names).value, hidden)
    case Limit(input, _) => KeepsColumns(text, input, names, hidden)
    case Join(left, right, joinType, on) =>
      var a := JoinRequest(text, left, right, on, names).value;
      var b := Push(text, left, a).value.1;
      && KeepsColumns(text, left, a, HiddenLeft(joinType, on, hidden))
      && KeepsColumns(text, right, b, HiddenRight(joinType, on, hidden))
  }

  // ---------------------------------------------------------------- schemas

  lemma {:induction false} WithoutAppend(a: Schema, b: Schema, hidden: set<string>)
    ensures Without(a + b, hidden) == Without(a, hidden) + Without(b, hidden)
  {
    if a == [] {
      assert a + b == b;
    } else {
      assert (a + b)[1..] == a[1..] + b;
      WithoutAppend(a[1..], b, hidden);
    }
  }

  lemma {:induction false} WithoutTwice(s: Schema, h: set<string>, g: set<string>)
    ensures Without(Without(s, h), g) == Without(s, h + g)
  {
    if s != [] {
      WithoutTwice(s[1..], h, g);
      if s[0].name !in h {
        assert Without(s, h)[1..] == Without(s[1..], h);
      }
    }
  }

  lemma {:induction false} WithoutProjected(s: Schema, names: seq<string>, hidden: set<string>)
    requires forall n :: n in names ==> n in Names(s)
    ensures ProjectSchema(s, names).Ok? && ProjectSchema(s, Visible(names, hidden)).Ok?
    ensures Without(ProjectSchema(s, names).value, hidden) == ProjectSchema(s, Visible(names, hidden)).value
    ensures forall n :: n in Visible(names, hidden) ==> n in names
  {
    if names != [] {
      WithoutProjected(s, names[1..], hidden);
      var whole := ProjectSchema(s, names).value;
      assert names[0] in Names(s);
      assert whole[1..] == ProjectSchema(s, names[1..]).value;
      var shown := Visible(names[1..], hidden);
      if names[0] in hidden {
        assert Visible(names, hidden) == shown;
      } else {
        assert ([names[0]] + shown)[1..] == shown;
      }
    }
  }

  lemma {:induction false} PositionDistinct(s: Schema, i: nat)
    requires DistinctNames(s) && i < |s|
    ensures Position(s, s[i].name) == Some(i)
  {
    var j := Position(s, s[i].name);
    assert s[i] in s;
    assert s[i].name in Names(s);
  }

  // Selecting all of a suffix's columns by name gives the suffix back.
  lemma {:induction false} ProjectAll(s: Schema, from: nat)
    requires DistinctNames(s) && from <= |s|
    ensures ProjectSchema(s, NameList(s[from..])) == Ok(s[from..])
    decreases |s| - from
  {
    if from < |s| {
      assert s[from..][1..] == s[from + 1..];
      ProjectAll(s, from + 1);
      PositionDistinct(s, from);
      var list := NameList(s[from..]);
      assert list[0] == s[from].name && list[1..] == NameList(s[from + 1..]);
      assert s[from..] == [s[from]] + s[from + 1..];
    } else {
      assert s[from..] == [];
    }
  }

  lemma {:induction false} ProjectAllCells(s: Schema, row: Row, from: nat)
    requires DistinctNames(s) && from <= |s| == |row|
    ensures ProjectRow(s, row, NameList(s[from..])) == row[from..]
    decreases |s| - from
  {
    if from < |s| {
      assert s[from..][1..] == s[from + 1..];
      ProjectAllCells(s, row, from + 1);
      PositionDistinct(s, from);
      var list := NameList(s[from..]);
      assert list[0] == s[from].name && list[1..] == NameList(s[from + 1..]);
      assert row[from..] == [row[from]] + row[from + 1..];
    } else {
      assert s[from..] == [];
    }
  }

  lemma {:induction false} NameListNames(s: Schema)
    ensures forall n :: n in NameList(s) <==> n in Names(s)
    ensures |NameList(s)| == |s|
  {
    if s != [] {
      NameListNames(s[1..]);
      assert Names(s) == {s[0].name} + Names(s[1..]);
    }
  }

  lemma {:induction false} VisibleChosenShorter(s: Schema, wanted: set<string>, hidden: set<string>)
    ensures |Visible(Chosen(s, wanted), hidden)| <= |Without(s, hidden)|
  {
    if s != [] {
      VisibleChosenShorter(s[1..], wanted, hidden);
      var rest := Chosen(s[1..], wanted);
      if s[0].name in wanted {
        assert ([s[0].name] + rest)[1..] == rest;
      } else {
        assert Chosen(s, wanted) == rest;
      }
    }
  }

  lemma {:induction false} VisibleInsert(name: string, names: seq<string>, hidden: set<string>)
    ensures |Visible(Insert(name, names), hidden)| == |Visible([name] + names, hidden)|
  {
    assert ([name] + names)[1..] == names;
    if names != [] && !StringLeq(name, names[0]) {
      VisibleInsert(name, names[1..], hidden);
      var rest := Insert(name, names[1..]);
      assert ([names[0]] + rest)[1..] == rest;
      assert ([name] + names[1..])[1..] == names[1..];
    }
  }

  lemma {:induction false} VisibleSort(names: seq<string>, hidden: set<string>)
    ensures |Visible(Sort(names), hidden)| == |Visible(names, hidden)|
  {
    if names != [] {
      VisibleSort(names[1..], hidden);
      VisibleInsert(names[0], Sort(names[1..]), hidden);
      assert ([names[0]] + Sort(names[1..]))[1..] == Sort(names[1..]);
    }
  }

  // Selecting a suffix's visible columns by name gives them back if each is the first of
  // its name, or just like it.
  lemma {:induction false} ProjectVisible(s: Schema, from: nat, hidden: set<string>)
    requires from <= |s|
    ensures forall n :: n in Visible(NameList(s[from..]), hidden) ==> n in Names(s)
    ensures ProjectSchema(s, Visible(NameList(s[from..]), hidden)).Ok?
    ensures ProjectSchema(s, Visible(NameList(s[from..]), hidden)).value == Without(s[from..], hidden)
            <==> forall f :: f in s[from..] && f.name !in hidden ==> FindField(s, f.name) == Some(f)
    decreases |s| - from
  {
    if from < |s| {
      var rest, names := s[from + 1..], Visible(NameList(s[from + 1..]), hidden);
      assert s[from..][1..] == rest && s[from..] == [s[from]] + rest;
      ProjectVisible(s, from + 1, hidden);
      assert s[from] in s;
      var list := NameList(s[from..]);
      assert list[0] == s[from].name && list[1..] == NameList(rest);
      if s[from].name !in hidden {
        FindFieldPosition(s, s[from].name);
        assert Visible(list, hidden) == [s[from].name] + names;
        assert ([s[from].name] + names)[1..] == names;
        var whole := ProjectSchema(s, Visible(list, hidden)).value;
        assert whole[1..] == ProjectSchema(s, names).value;
        assert Without(s[from..], hidden)[1..] == Without(rest, hidden);
      } else {
        assert Visible(list, hidden) == names;
      }
    } else {
      assert s[from..] == [];
    }
  }

  lemma {:induction false} NamesWithout(s: Schema, hidden: set<string>)
    ensures NameList(Without(s, hidden)) == Visible(NameList(s), hidden)
  {
    if s != [] {
      NamesWithout(s[1..], hidden);
      assert NameList(s)[1..] == NameList(s[1..]);
      if s[0].name !in hidden {
        assert Without(s, hidden)[1..] == Without(s[1..], hidden);
      }
    }
  }

  lemma {:induction false} NamesProjected(s: Schema, names: seq<string>)
    requires ProjectSchema(s, names).Ok?
    ensures NameList(ProjectSchema(s, names).value) == names
  {
    if names != [] {
      NamesProjected(s, names[1..]);
      assert ProjectSchema(s, names).value[1..] == ProjectSchema(s, names[1..]).value;
    }
  }

  lemma {:induction false} ScanKeptExactly(s: Schema, names: set<string>, hidden: set<string>)
    ensures var list := Sort(Chosen(s, names));
            && DeriveSchema(s, list).Ok?
            && |Without(DeriveSchema(s, list).value, hidden)| <= |Without(s, hidden)|
            && (list == [] || (Visible(list, hidden) == Visible(NameList(s), hidden) && FieldsByName(s, hidden))
                <==> Without(DeriveSchema(s, list).value, hidden) == Without(s, hidden))
  {
    var list := Sort(Chosen(s, names));
    ChosenNames(s, names);
    SortSorts(Chosen(s, names));
    if list != [] {
      WithoutProjected(s, list, hidden);
      ProjectSchemaFields(s, Visible(list, hidden), "");
      VisibleSort(Chosen(s, names), hidden);
      VisibleChosenShorter(s, names, hidden);
      NamesProjected(s, Visible(list, hidden));
      NamesWithout(s, hidden);
      assert s[0..] == s;
      ProjectVisible(s, 0, hidden);
    }
  }

  /** The visible schema of the rewritten plan never grows, and it is unchanged exactly
      when the condition holds. */
  lemma {:induction false} SchemaKeptExactly(text: Texts, p: Plan, names: set<string>, hidden: set<string>)
    requires Plain(p) && Push(text, p, names).Ok? && SchemaOf(text, p).Ok?
    ensures SchemaOf(text, Push(text, p, names).value.0).Ok?
    ensures |Without(SchemaOf(text, Push(text, p, names).value.0).value, hidden)|
            <= |Without(SchemaOf(text, p).value, hidden)|
    ensures KeepsColumns(text, p, names, hidden)
            <==> Without(SchemaOf(text, Push(text, p, names).value.0).value, hidden)
                 == Without(SchemaOf(text, p).value, hidden)
  {
    SchemaAgrees(text, p, names);
    match p
    case TableScan(_, source, _) => ScanKeptExactly(source.schema, names, hidden);
    case Projection(_, _) => OutputSchemaKept(text, p, names);
    case Aggregate(_, _, _) => OutputSchemaKept(text, p, names);
    case Filter(input, condition) =>
      ExtractAddsWanted(condition, SchemaOf(text, input), SchemaOf(text, input), names);
      SchemaKeptExactly(text, input, names + Wanted(condition), hidden);
    case Limit(input, _) => SchemaKeptExactly(text, input, names, hidden);
    case Join(left, right, joinType, on) =>
      var a := JoinRequest(text, left, right, on, names).value;
      var ql := Push(text, left, a).value;
      var qr := Push(text, right, ql.1).value;
      var l, r := SchemaOf(text, left).value, SchemaOf(text, right).value;
      var l', r' := SchemaOf(text, ql.0), SchemaOf(text, qr.0);
      var d := DuplicateKeys(on);
      if joinType == RightOuter {
        SchemaKeptExactly(text, left, a, d + hidden);
        SchemaKeptExactly(text, right, ql.1, hidden);
        WithoutTwice(l, d, hidden);
        WithoutTwice(l'.value, d, hidden);
        WithoutAppend(Without(l, d), r, hidden);
        WithoutAppend(Without(l'.value, d), r'.value, hidden);
        AppendEqual(Without(l, d + hidden), Without(l'.value, d + hidden),
                    Without(r, hidden), Without(r'.value, hidden));
      } else {
        SchemaKeptExactly(text, left, a, hidden);
        SchemaKeptExactly(text, right, ql.1, d + hidden);
        WithoutTwice(r, d, hidden);
        WithoutTwice(r'.value, d, hidden);
        WithoutAppend(l, Without(r, d), hidden);
        WithoutAppend(l'.value, Without(r'.value, d), hidden);
        AppendEqual(Without(l, hidden), Without(l'.value, hidden),
                    Without(r, d + hidden), Without(r'.value, d + hidden));
      }
  }

  lemma AppendEqual(a: Schema, a': Schema, b: Schema, b': Schema)
    requires |a'| <= |a| && |b'| <= |b|
    ensures a' + b' == a + b <==> a' == a && b' == b
  {
    if a' + b' == a + b {
      assert a' == (a' + b')[..|a|];
      assert b' == (a' + b')[|a|..];
      assert a == (a + b)[..|a|] && b == (a + b)[|a|..];
    }
  }

  // ---------------------------------------------------------------- rows

  lemma {:induction false} CellsAppend(a: Schema, b: Schema, ra: Row, rb: Row, hidden: set<string>)
    requires |ra| == |a|
    ensures WithoutCells(a + b, ra + rb, hidden) == WithoutCells(a, ra, hidden) + WithoutCells(b, rb, hidden)
  {
    if a == [] {
      assert a + b == b && ra + rb == rb;
    } else {
      assert (a + b)[1..] == a[1..] + b && (ra + rb)[1..] == ra[1..] + rb;
      CellsAppend(a[1..], b, ra[1..], rb, hidden);
    }
  }

  lemma {:induction false} CellsTwice(s: Schema, row: Row, h: set<string>, g: set<string>)
    requires |row| == |s|
    ensures WithoutCells(Without(s, h), WithoutCells(s, row, h), g) == WithoutCells(s, row, h + g)
  {
    if s != [] {
      CellsTwice(s[1..], row[1..], h, g);
      if s[0].name !in h {
        assert Without(s, h)[1..] == Without(s[1..], h);
        assert WithoutCells(s, row, h)[1..] == WithoutCells(s[1..], row[1..], h);
      }
    }
  }

  lemma {:induction false} CellsNothing(s: Schema, row: Row)
    requires |row| == |s|
    ensures WithoutCells(s, row, {}) == row
  {
    if s != [] {
      CellsNothing(s[1..], row[1..]);
    }
  }

  lemma {:induction false} CellsOfNulls(s: Schema, hidden: set<string>)
    ensures WithoutCells(s, Nulls(|s|), hidden) == Nulls(|Without(s, hidden)|)
  {
    if s != [] {
      assert Nulls(|s|)[1..] == Nulls(|s[1..]|);
      CellsOfNulls(s[1..], hidden);
    }
  }

  lemma {:induction false} CellsProjected(s: Schema, row: Row, names: seq<string>, hidden: set<string>)
    requires |row| == |s| && forall n :: n in names ==> n in Names(s)
    ensures ProjectSchema(s, names).Ok?
    ensures WithoutCells(ProjectSchema(s, names).value, ProjectRow(s, row, names), hidden)
            == ProjectRow(s, row, Visible(names, hidden))
  {
    ProjectSchemaFields(s, names, "");
    if names != [] {
      CellsProjected(s, row, names[1..], hidden);
      assert names[0] in Names(s);
      var fields, cells := ProjectSchema(s, names).value, ProjectRow(s, row, names);
      assert fields[1..] == ProjectSchema(s, names[1..]).value;
      assert cells[1..] == ProjectRow(s, row, names[1..]);
      var shown := Visible(names[1..], hidden);
      if names[0] in hidden {
        assert Visible(names, hidden) == shown;
      } else {
        assert ([names[0]] + shown)[1..] == shown;
      }
    }
  }

  ghost predicate VisiblySame(r: Relation, r': Relation, hidden: set<string>) {
    && Without(r'.schema, hidden) == Without(r.schema, hidden)
    && |r'.rows| == |r.rows|
    && forall i :: 0 <= i < |r.rows| ==>
         WithoutCells(r'.schema, r'.rows[i], hidden) == WithoutCells(r.schema, r.rows[i], hidden)
  }

  // One row's visible cells, when all visible columns are selected.
  lemma ScanRowKept(s: Schema, row: Row, list: seq<string>, hidden: set<string>)
    requires DistinctNames(s) && |row| == |s| && forall n :: n in list ==> n in Names(s)
    requires Visible(list, hidden) == Visible(NameList(s), hidden)
    ensures ProjectSchema(s, list).Ok?
    ensures WithoutCells(ProjectSchema(s, list).value, ProjectRow(s, row, list), hidden) == WithoutCells(s, row, hidden)
  {
    NameListNames(s);
    ProjectAll(s, 0);
    ProjectAllCells(s, row, 0);
    assert s[0..] == s && row[0..] == row;
    CellsProjected(s, row, list, hidden);
    CellsProjected(s, row, NameList(s), hidden);
  }

  lemma ScanRowsKept(s: Schema, rows: seq<Row>, names: set<string>, hidden: set<string>)
    requires DistinctNames(s) && forall row :: row in rows ==> |row| == |s|
    requires var list := Sort(Chosen(s, names));
             list == [] || (Visible(list, hidden) == Visible(NameList(s), hidden) && FieldsByName(s, hidden))
    ensures var list := Sort(Chosen(s, names));
            && DeriveSchema(s, list).Ok?
            && VisiblySame(Relation(s, rows), Relation(DeriveSchema(s, list).value, ScanRows(s, rows, list)), hidden)
  {
    hide Sort, Chosen, Visible, NameList, ProjectRow, ProjectSchema, WithoutCells, Without, DistinctNames, FieldsByName;
    var list := Sort(Chosen(s, names));
    ScanKeptExactly(s, names, hidden);
    ChosenNames(s, names);
    SortSorts(Chosen(s, names));
    if list != [] {
      forall i | 0 <= i < |rows|
        ensures WithoutCells(ProjectSchema(s, list).value, ScanRows(s, rows, list)[i], hidden)
                == WithoutCells(s, rows[i], hidden)
      {
        ScanRowKept(s, rows[i], list, hidden);
      }
    }
  }

  lemma {:induction false} JoinedRowKept(
    l: Schema, lrow: Row, l': Schema, lrow': Row, r: Schema, rrow: Row, r': Schema, rrow': Row,
    dropped: set<string>, hidden: set<string>)
    requires |lrow| == |l| && |lrow'| == |l'| && |rrow| == |r| && |rrow'| == |r'|
    requires WithoutCells(l', lrow', hidden) == WithoutCells(l, lrow, hidden)
    requires WithoutCells(r', rrow', dropped + hidden) == WithoutCells(r, rrow, dropped + hidden)
    ensures WithoutCells(l' + Without(r', dropped), lrow' + WithoutCells(r', rrow', dropped), hidden)
            == WithoutCells(l + Without(r, dropped), lrow + WithoutCells(r, rrow, dropped), hidden)
  {
    CellsAppend(l, Without(r, dropped), lrow, WithoutCells(r, rrow, dropped), hidden);
    CellsAppend(l', Without(r', dropped), lrow', WithoutCells(r', rrow', dropped), hidden);
    CellsTwice(r, rrow, dropped, hidden);
    CellsTwice(r', rrow', dropped, hidden);
  }

  lemma JoinSchemaKept(l: Schema, l': Schema, r: Schema, r': Schema, dropped: set<string>, hidden: set<string>)
    requires Without(l', hidden) == Without(l, hidden)
    requires Without(r', dropped + hidden) == Without(r, dropped + hidden)
    ensures Without(l' + Without(r', dropped), hidden) == Without(l + Without(r, dropped), hidden)
  {
    WithoutAppend(l, Without(r, dropped), hidden);
    WithoutAppend(l', Without(r', dropped), hidden);
    WithoutTwice(r, dropped, hidden);
    WithoutTwice(r', dropped, hidden);
  }

  lemma {:induction false} MatchesKept(
    l: Schema, lrow: Row, l': Schema, lrow': Row, r: Relation, r': Relation,
    on: seq<(string, string)>, names: set<string>, hidden: set<string>)
    requires |lrow| == |l| && |lrow'| == |l'| && Rectangular(r) && Rectangular(r')
    requires RowAgrees(l, lrow, l', lrow', names) && Agrees(r, r', names) && JoinKeysIn(on, names)
    requires Without(l', hidden) == Without(l, hidden)
    requires WithoutCells(l', lrow', hidden) == WithoutCells(l, lrow, hidden)
    requires VisiblySame(r, r', DuplicateKeys(on) + hidden)
    ensures var d := DuplicateKeys(on);
            VisiblySame(Relation(l + Without(r.schema, d), Matches(l, lrow, r, on)),
                        Relation(l' + Without(r'.schema, d), Matches(l', lrow', r', on)), hidden)
    decreases r.rows
  {
    hide Matches, WithoutCells, Without, KeyCells, Rectangular;
    var d := DuplicateKeys(on);
    JoinSchemaKept(l, l', r.schema, r'.schema, d, hidden);
    MatchesHead(l, lrow, r, on);
    MatchesHead(l', lrow', r', on);
    if r.rows != [] {
      RectangularRest(r);
      RectangularRest(r');
      var rest, rest' := r.(rows := r.rows[1..]), r'.(rows := r'.rows[1..]);
      MatchesKept(l, lrow, l', lrow', rest, rest', on, names, hidden);
      HeadMatchKept(l, lrow, l', lrow', r, r', on, names, hidden);
      SameAppend(l + Without(r.schema, d), l' + Without(r'.schema, d),
                 HeadMatch(l, lrow, r, on), HeadMatch(l', lrow', r', on),
                 Matches(l, lrow, rest, on), Matches(l', lrow', rest', on), hidden);
    }
  }

  // What the first right row adds to the matches.
  function HeadMatch(l: Schema, lrow: Row, r: Relation, on: seq<(string, string)>): seq<Row>
    requires r.rows != []
  {
    if KeyCells(l, lrow, LeftNames(on)) == KeyCells(r.schema, r.rows[0], RightNames(on)) then
      [lrow + WithoutCells(r.schema, r.rows[0], DuplicateKeys(on))]
    else []
  }

  lemma MatchesHead(l: Schema, lrow: Row, r: Relation, on: seq<(string, string)>)
    ensures Matches(l, lrow, r, on)
            == if r.rows == [] then [] else HeadMatch(l, lrow, r, on) + Matches(l, lrow, r.(rows := r.rows[1..]), on)
  {
  }

  lemma RectangularRest(r: Relation)
    requires Rectangular(r) && r.rows != []
    ensures |r.rows[0]| == |r.schema| && Rectangular(r.(rows := r.rows[1..]))
  {
  }

  lemma HeadMatchKept(
    l: Schema, lrow: Row, l': Schema, lrow': Row, r: Relation, r': Relation,
    on: seq<(string, string)>, names: set<string>, hidden: set<string>)
    requires |lrow| == |l| && |lrow'| == |l'| && r.rows != [] && r'.rows != []
    requires |r.rows[0]| == |r.schema| && |r'.rows[0]| == |r'.schema|
    requires RowAgrees(l, lrow, l', lrow', names) && Agrees(r, r', names) && JoinKeysIn(on, names)
    requires Without(l', hidden) == Without(l, hidden)
    requires WithoutCells(l', lrow', hidden) == WithoutCells(l, lrow, hidden)
    requires VisiblySame(r, r', DuplicateKeys(on) + hidden)
    ensures var d := DuplicateKeys(on);
            VisiblySame(Relation(l + Without(r.schema, d), HeadMatch(l, lrow, r, on)),
                        Relation(l' + Without(r'.schema, d), HeadMatch(l', lrow', r', on)), hidden)
  {
    hide WithoutCells, Without, KeyCells;
    var d := DuplicateKeys(on);
    JoinSchemaKept(l, l', r.schema, r'.schema, d, hidden);
    KeyCellsAgree(l, lrow, l', lrow', LeftNames(on), names);
    KeyCellsAgree(r.schema, r.rows[0], r'.schema, r'.rows[0], RightNames(on), names);
    JoinedRowKept(l, lrow, l', lrow', r.schema, r.rows[0], r'.schema, r'.rows[0], d, hidden);
  }

  lemma ContributionKept(
    l: Schema, lrow: Row, l': Schema, lrow': Row, r: Relation, r': Relation, outer: bool,
    on: seq<(string, string)>, names: set<string>, hidden: set<string>)
    requires |lrow| == |l| && |lrow'| == |l'| && Rectangular(r) && Rectangular(r')
    requires RowAgrees(l, lrow, l', lrow', names) && Agrees(r, r', names) && JoinKeysIn(on, names)
    requires Without(l', hidden) == Without(l, hidden)
    requires WithoutCells(l', lrow', hidden) == WithoutCells(l, lrow, hidden)
    requires VisiblySame(r, r', DuplicateKeys(on) + hidden)
    ensures var d := DuplicateKeys(on);
            VisiblySame(Relation(l + Without(r.schema, d), Contribution(l, lrow, r, outer, on)),
                        Relation(l' + Without(r'.schema, d), Contribution(l', lrow', r', outer, on)), hidden)
  {
    var d := DuplicateKeys(on);
    MatchesKept(l, lrow, l', lrow', r, r', on, names, hidden);
    CellsOfNulls(r.schema, d + hidden);
    CellsOfNulls(r'.schema, d + hidden);
    JoinedRowKept(l, lrow, l', lrow', r.schema, Nulls(|r.schema|), r'.schema, Nulls(|r'.schema|), d, hidden);
  }

  lemma SameAppend(s: Schema, s': Schema, a: seq<Row>, a': seq<Row>, b: seq<Row>, b': seq<Row>, hidden: set<string>)
    requires VisiblySame(Relation(s, a), Relation(s', a'), hidden)
    requires VisiblySame(Relation(s, b), Relation(s', b'), hidden)
    ensures VisiblySame(Relation(s, a + b), Relation(s', a' + b'), hidden)
  {
  }

  lemma {:induction false} JoinRowsKept(
    l: Relation, l': Relation, r: Relation, r': Relation, outer: bool,
    on: seq<(string, string)>, names: set<string>, hidden: set<string>)
    requires Rectangular(l) && Rectangular(l') && Rectangular(r) && Rectangular(r')
    requires Agrees(l, l', names) && Agrees(r, r', names) && JoinKeysIn(on, names)
    requires VisiblySame(l, l', hidden) && VisiblySame(r, r', DuplicateKeys(on) + hidden)
    ensures var d := DuplicateKeys(on);
            VisiblySame(Relation(l.schema + Without(r.schema, d), JoinRows(l, r, outer, on)),
                        Relation(l'.schema + Without(r'.schema, d), JoinRows(l', r', outer, on)), hidden)
    decreases l.rows
  {
    var d := DuplicateKeys(on);
    if l.rows == [] {
      JoinSchemaKept(l.schema, l'.schema, r.schema, r'.schema, d, hidden);
    } else {
      var rest, rest' := l.(rows := l.rows[1..]), l'.(rows := l'.rows[1..]);
      JoinRowsKept(rest, rest', r, r', outer, on, names, hidden);
      ContributionKept(l.schema, l.rows[0], l'.schema, l'.rows[0], r, r', outer, on, names, hidden);
      SameAppend(l.schema + Without(r.schema, d), l'.schema + Without(r'.schema, d),
                 Contribution(l.schema, l.rows[0], r, outer, on), Contribution(l'.schema, l'.rows[0], r', outer, on),
                 JoinRows(rest, r, outer, on), JoinRows(rest', r', outer, on), hidden);
    }
  }

  lemma {:induction false} UnpairedKept(
    l: Relation, l': Relation, r: Relation, r': Relation, on: seq<(string, string)>, names: set<string>,
    hidden: set<string>)
    requires Rectangular(r) && Rectangular(r')
    requires Agrees(l, l', names) && Agrees(r, r', names) && JoinKeysIn(on, names)
    requires VisiblySame(l, l', hidden) && VisiblySame(r, r', DuplicateKeys(on) + hidden)
    ensures var d := DuplicateKeys(on);
            VisiblySame(Relation(l.schema + Without(r.schema, d), Unpaired(l, r, on)),
                        Relation(l'.schema + Without(r'.schema, d), Unpaired(l', r', on)), hidden)
    decreases r.rows
  {
    var d := DuplicateKeys(on);
    JoinSchemaKept(l.schema, l'.schema, r.schema, r'.schema, d, hidden);
    if r.rows != [] {
      hide Paired, Agrees, RowAgrees, WithoutCells, Without;
      var rest, rest' := r.(rows := r.rows[1..]), r'.(rows := r'.rows[1..]);
      UnpairedKept(l, l', rest, rest', on, names, hidden);
      PairedAgrees(l, l', r.schema, r.rows[0], r'.schema, r'.rows[0], on, names);
      CellsOfNulls(l.schema, hidden);
      CellsOfNulls(l'.schema, hidden);
      JoinedRowKept(l.schema, Nulls(|l.schema|), l'.schema, Nulls(|l'.schema|),
                    r.schema, r.rows[0], r'.schema, r'.rows[0], d, hidden);
    }
  }

  lemma {:induction false} SelectedKept(r: Relation, r': Relation, verdicts: seq<Row>, hidden: set<string>)
    requires VisiblySame(r, r', hidden) && |verdicts| == |r.rows|
    ensures VisiblySame(r.(rows := Selected(r.rows, verdicts)), r'.(rows := Selected(r'.rows, verdicts)), hidden)
    decreases r.rows
  {
    if r.rows != [] {
      SelectedKept(r.(rows := r.rows[1..]), r'.(rows := r'.rows[1..]), verdicts[1..], hidden);
    }
  }

  /** Where the condition holds, the visible cells of every row are unchanged too. */
  lemma {:induction false} RowsKept(w: World, p: Plan, names: set<string>, hidden: set<string>)
    requires WellTyped(w) && Plain(p) && DistinctSources(p) && Push(w.text, p, names).Ok? && Denote(w, p).Some?
    requires KeepsColumns(w.text, p, names, hidden)
    ensures Denote(w, Push(w.text, p, names).value.0).Some?
    ensures VisiblySame(Denote(w, p).value, Denote(w, Push(w.text, p, names).value.0).value, hidden)
    decreases p, 1
  {
    PushDownAgrees(w, p, names);
    match p
    case TableScan(_, source, _) => ScanRowsKept(source.schema, w.rows(source), names, hidden);
    case Projection(_, _) => ProjectionKept(w, p, names);
    case Aggregate(_, _, _) => AggregateKept(w, p, names);
    case Filter(input, condition) =>
      ExtractAddsWanted(condition, SchemaOf(w.text, input), SchemaOf(w.text, input), names);
      var a := names + Wanted(condition);
      RowsKept(w, input, a, hidden);
      PushDownAgrees(w, input, a);
      var r, r' := Denote(w, input).value, Denote(w, Push(w.text, input, a).value.0).value;
      EvalRowsAgree(w, [condition], r, r', a);
      EvalRowsLength(w, [condition], r);
      DenoteRectangular(w, input);
      DenoteRectangular(w, Push(w.text, input, a).value.0);
      SelectedKept(r, r', EvalRows(w, [condition], r).value, hidden);
    case Limit(input, _) =>
      RowsKept(w, input, names, hidden);
      DenoteRectangular(w, input);
      DenoteRectangular(w, Push(w.text, input, names).value.0);
    case Join(_, _, _, _) => JoinKept(w, p, names, hidden);
  }

  lemma {:induction false} JoinKept(w: World, p: Plan, names: set<string>, hidden: set<string>)
    requires p.Join?
    requires WellTyped(w) && Plain(p) && DistinctSources(p) && Push(w.text, p, names).Ok? && Denote(w, p).Some?
    requires KeepsColumns(w.text, p, names, hidden)
    ensures Denote(w, Push(w.text, p, names).value.0).Some?
    ensures VisiblySame(Denote(w, p).value, Denote(w, Push(w.text, p, names).value.0).value, hidden)
    decreases p, 0
  {
    PushDownAgrees(w, p, names);
    var Join(left, right, joinType, on) := p;
    var a := JoinRequest(w.text, left, right, on, names).value;
    var ql := Push(w.text, left, a).value;
    var qr := Push(w.text, right, ql.1).value;
    PushGrows(w.text, left, a);
    PushDownAgrees(w, left, a);
    PushDownAgrees(w, right, ql.1);
    RowsKept(w, left, a, HiddenLeft(joinType, on, hidden));
    RowsKept(w, right, ql.1, HiddenRight(joinType, on, hidden));
    DenoteRectangular(w, left);
    DenoteRectangular(w, ql.0);
    DenoteRectangular(w, right);
    DenoteRectangular(w, qr.0);
    assert joinType == RightOuter ==> DuplicateKeys(on) + hidden == hidden;
    JoinResultKept(Denote(w, left).value, Denote(w, ql.0).value, Denote(w, right).value, Denote(w, qr.0).value,
                   joinType, on, a, hidden);
    OneLayout(Denote(w, left).value.schema, Denote(w, right).value.schema, joinType, on);
    OneLayout(Denote(w, ql.0).value.schema, Denote(w, qr.0).value.schema, joinType, on);
  }

  lemma JoinResultKept(
    l: Relation, l': Relation, r: Relation, r': Relation, joinType: JoinType,
    on: seq<(string, string)>, names: set<string>, hidden: set<string>)
    requires Rectangular(l) && Rectangular(l') && Rectangular(r) && Rectangular(r')
    requires Agrees(l, l', names) && Agrees(r, r', names) && JoinKeysIn(on, names)
    requires VisiblySame(l, l', hidden) && VisiblySame(r, r', DuplicateKeys(on) + hidden)
    ensures var d := DuplicateKeys(on);
            VisiblySame(Relation(l.schema + Without(r.schema, d), JoinResult(l, r, joinType, on)),
                        Relation(l'.schema + Without(r'.schema, d), JoinResult(l', r', joinType, on)), hidden)
  {
    JoinRowsKept(l, l', r, r', joinType == LeftOuter, on, names, hidden);
    UnpairedKept(l, l', r, r', on, names, hidden);
  }

  // ---------------------------------------------------------------- the optimizer

  lemma SameWhenNothingHidden(r: Relation, r': Relation)
    requires Rectangular(r) && Rectangular(r')
    ensures VisiblySame(r, r', {}) <==> r' == r
  {
    WithoutNothing(r.schema);
    WithoutNothing(r'.schema);
    forall i | 0 <= i < |r.rows| ensures WithoutCells(r.schema, r.rows[i], {}) == r.rows[i] {
      CellsNothing(r.schema, r.rows[i]);
    }
    forall i | 0 <= i < |r'.rows| ensures WithoutCells(r'.schema, r'.rows[i], {}) == r'.rows[i] {
      CellsNothing(r'.schema, r'.rows[i]);
    }
    if VisiblySame(r, r', {}) {
      assert r'.rows == r.rows;
    }
  }

  /** The optimized plan yields the identical relation, schema included, only if every
      exposed scan keeps its columns, and exactly then unless one has two columns of one
      name. A plan that filters a bare table does not. */
  lemma OptimizeIsExact(w: World, p: Plan)
    requires WellTyped(w) && Plain(p)
    requires Optimize(w.text, p).Ok? && Denote(w, p).Some?
    ensures Denote(w, Optimize(w.text, p).value) == Denote(w, p) ==> KeepsColumns(w.text, p, {}, {})
    ensures DistinctSources(p) ==>
              (Denote(w, Optimize(w.text, p).value) == Denote(w, p) <==> KeepsColumns(w.text, p, {}, {}))
  {
    var q := Optimize(w.text, p).value;
    PushDownAgrees(w, p, {});
    DenoteRectangular(w, p);
    DenoteRectangular(w, q);
    SchemaKeptExactly(w.text, p, {}, {});
    WithoutNothing(Denote(w, p).value.schema);
    WithoutNothing(Denote(w, q).value.schema);
    if KeepsColumns(w.text, p, {}, {}) && DistinctSources(p) {
      RowsKept(w, p, {}, {});
      SameWhenNothingHidden(Denote(w, p).value, Denote(w, q).value);
    }
  }

  lemma {:induction false} CoveredKeepsColumns(text: Texts, p: Plan, names: set<string>, hidden: set<string>)
    requires Covered(p) && Push(text, p, names).Ok?
    ensures KeepsColumns(text, p, names, hidden) && DistinctSources(p)
  {
    match p
    case Filter(input, condition) =>
      CoveredKeepsColumns(text, input, ExtractColumns(condition, SchemaOf(text, input), names).value, hidden);
    case Limit(input, _) => CoveredKeepsColumns(text, input, names, hidden);
    case Join(left, right, joinType, on) =>
      var a := JoinRequest(text, left, right, on, names).value;
      CoveredKeepsColumns(text, left, a, HiddenLeft(joinType, on, hidden));
      CoveredKeepsColumns(text, right, Push(text, left, a).value.1, HiddenRight(joinType, on, hidden));
    case _ =>
  }

  // Built-in aggregates take one argument.
  predicate SingleArguments(p: Plan) {
    match p
    case TableScan(_, _, _) => true
    case Aggregate(input, _, aggs) =>
      SingleArguments(input) && forall e :: e in aggs && e.AggregateFunction? ==> |e.args| <= 1
    case Join(left, right, _, _) => SingleArguments(left) && SingleArguments(right)
    case _ => SingleArguments(p.input)
  }

  lemma {:induction false} BoundExtracts(e: Expr, s: Schema, input: Result<Schema>, accum: set<string>)
    requires NamedExpr(e) && Bound(e, s)
    ensures ExtractColumns(e, input, accum).Ok?
  {
    match e
    case BinaryExpr(l, _, r) =>
      BoundExtracts(l, s, input, accum);
      BoundExtracts(r, s, input, ExtractColumns(l, input, accum).value);
    case DateSubtractInterval(d, i) =>
      BoundExtracts(d, s, input, accum);
      BoundExtracts(i, s, input, ExtractColumns(d, input, accum).value);
    case DateAddInterval(d, i) =>
      BoundExtracts(d, s, input, accum);
      BoundExtracts(i, s, input, ExtractColumns(d, input, accum).value);
    case Alias(inner, _) => BoundExtracts(inner, s, input, accum);
    case Cast(inner, _) => BoundExtracts(inner, s, input, accum);
    case _ =>
  }

  lemma {:induction false} AllBoundExtract(es: seq<Expr>, s: Schema, input: Result<Schema>, accum: set<string>)
    requires NamedExprs(es) && AllBound(es, s)
    ensures ExtractColumnsList(es, input, accum).Ok?
  {
    if es != [] {
      BoundExtracts(es[0], s, input, accum);
      AllBoundExtract(es[1..], s, input, ExtractColumns(es[0], input, accum).value);
    }
  }

  lemma {:induction false} ArgumentsExtract(aggs: seq<Expr>, s: Schema, input: Result<Schema>, accum: set<string>)
    requires NamedExprs(aggs) && AggregateArgs(aggs).Some? && AllBound(AggregateArgs(aggs).value, s)
    requires forall e :: e in aggs && e.AggregateFunction? ==> |e.args| <= 1
    ensures ExtractArguments(aggs, input, accum).Ok?
  {
    if aggs != [] {
      assert NamedExpr(aggs[0]);
      assert aggs[0] in aggs;
      assert aggs[0].args == [aggs[0].args[0]];
      var all := AggregateArgs(aggs).value;
      assert all[1..] == AggregateArgs(aggs[1..]).value;
      assert all[0] in all;
      AllBoundExtract(aggs[0].args, s, input, accum);
      ArgumentsExtract(aggs[1..], s, input, ExtractColumnsList(aggs[0].args, input, accum).value);
    }
  }

  /** The rule never fails on a plan that can be executed. */
  lemma {:induction false} PushSucceeds(w: World, p: Plan, names: set<string>)
    requires WellTyped(w) && Plain(p) && SingleArguments(p) && Denote(w, p).Some?
    ensures Push(w.text, p, names).Ok?
  {
    match p
    case TableScan(_, source, _) => ScanSchemaAgrees(source.schema, names);
    case Projection(input, exprs) =>
      AllBoundExtract(exprs, Denote(w, input).value.schema, SchemaOf(w.text, input), names);
      PushSucceeds(w, input, ExtractColumnsList(exprs, SchemaOf(w.text, input), names).value);
    case Filter(input, condition) =>
      BoundExtracts(condition, Denote(w, input).value.schema, SchemaOf(w.text, input), names);
      PushSucceeds(w, input, ExtractColumns(condition, SchemaOf(w.text, input), names).value);
    case Aggregate(input, group, aggs) =>
      var s := SchemaOf(w.text, input);
      AllBoundExtract(group, Denote(w, input).value.schema, s, names);
      var a := ExtractColumnsList(group, s, names).value;
      ArgumentsExtract(aggs, Denote(w, input).value.schema, s, a);
      PushSucceeds(w, input, ExtractArguments(aggs, s, a).value);
    case Limit(input, _) => PushSucceeds(w, input, names);
    case Join(left, right, _, on) =>
      var a := JoinRequest(w.text, left, right, on, names).value;
      PushSucceeds(w, left, a);
      PushSucceeds(w, right, Push(w.text, left, a).value.1);
  }

  /** A query whose scans all feed a projection or an aggregate is optimized without
      error into one with the identical result, on every database. */
  lemma OptimizePreservesCovered(w: World, p: Plan)
    requires WellTyped(w) && Plain(p) && SingleArguments(p) && Covered(p)
    requires Denote(w, p).Some?
    ensures Optimize(w.text, p).Ok?
    ensures Denote(w, Optimize(w.text, p).value) == Denote(w, p)
  {
    PushSucceeds(w, p, {});
    CoveredKeepsColumns(w.text, p, {}, {});
    OptimizeIsExact(w, p);
  }

  // ---------------------------------------------------------------- where it goes wrong

  function StateIsCo(): Plan {
    var schema := [Field("id", Int64Type, true), Field("state", Utf8Type, true)];
    Filter(TableScan("employee", TableSource("employee", schema), []),
           BinaryExpr(Column("state"), Eq, Literal(Utf8("CO"))))
  }

  /** A filter at the root is taken for the whole request: selecting the employees of
      one state keeps the state column and loses every other. */
  lemma RootFilterLosesColumns(text: Texts)
    ensures Plain(StateIsCo()) && DistinctSources(StateIsCo())
    ensures SchemaOf(text, StateIsCo()) == Ok([Field("id", Int64Type, true), Field("state", Utf8Type, true)])
    ensures Optimize(text, StateIsCo()).Ok?
    ensures SchemaOf(text, Optimize(text, StateIsCo()).value) == Ok([Field("state", Utf8Type, true)])
  {
    var s := [Field("id", Int64Type, true), Field("state", Utf8Type, true)];
    var wanted := {} + {"state"};
    assert s[1..] == [Field("state", Utf8Type, true)] && s[1..][1..] == [];
    assert Chosen(s[1..], wanted) == ["state"];
    assert Chosen(s, wanted) == ["state"];
    assert ["state"][1..] == [];
    assert Sort(["state"]) == ["state"];
    assert s[0].name[0] == 'i';
    assert Position(s[1..], "state") == Some(0);
    assert Position(s, "state") == Some(1);
    assert ProjectSchema(s, ["state"][1..]) == Ok([]);
    assert [s[1]] + [] == [s[1]];
    assert ProjectSchema(s, ["state"]) == Ok([s[1]]);
    var scan, test := StateIsCo().input, StateIsCo().condition;
    assert ExtractColumns(test.left, Ok(s), {}) == Ok(wanted);
    assert ExtractColumns(test, Ok(s), {}) == Ok(wanted);
    assert Push(text, scan, wanted) == Ok((TableScan("employee", scan.source, ["state"]), wanted));
  }
}
