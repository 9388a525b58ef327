/** Aggregates over columns referred to by position. Their output fields do not name the
    columns they read, so a misread column shows in the values alone: whether the rewrite
    is right on every database is told by one database whose cells are their own names. */
module PushDownArguments {
  import Sequences
  import opened Results
  import opened Scalars
  import opened Operators
  import opened LogicalPlan
  import opened PushDown
  import opened PushDownSchemas
  import opened PushDownMeaning
  import opened PushDownExact
  import opened PushDownPositions
  import opened PushDownWorlds

  // ---------------------------------------------------------------- cells that are names

  // Every column's cell is the column's name.
  function NameRow(s: Schema): (row: Row)
    ensures |row| == |s| && forall i :: 0 <= i < |s| ==> row[i] == Utf8(s[i].name)
  {
    if s == [] then [] else [Utf8(s[0].name)] + NameRow(s[1..])
  }

  lemma NamesFill()
    ensures FillsRows(NameRow)
  {
  }

  lemma {:induction false} CellsAreNames(s: Schema, list: seq<string>)
    requires ProjectSchema(s, list).Ok?
    ensures ProjectRow(s, NameRow(s), list) == NameRow(ProjectSchema(s, list).value)
  {
    if list != [] {
      var t := ProjectSchema(s, list).value;
      CellsAreNames(s, list[1..]);
      assert t[1..] == ProjectSchema(s, list[1..]).value;
    }
  }

  lemma {:induction false} BoundHasField(text: Texts, e: Expr, t: Schema)
    requires Bound(e, t)
    ensures ToField(text, e, Ok(t)).Ok?
  {
    match e
    case Column(name) => FindFieldNames(t, name);
    case Cast(inner, _) => BoundHasField(text, inner, t);
    case BinaryExpr(l, _, _) => BoundHasField(text, l, t);
    case Alias(inner, _) => BoundHasField(text, inner, t);
    case _ =>
  }

  lemma {:induction false} BoundHaveFields(text: Texts, es: seq<Expr>, t: Schema)
    requires AllBound(es, t)
    ensures ToFields(text, es, Ok(t)).Ok?
  {
    if es != [] {
      BoundHasField(text, es[0], t);
      BoundHaveFields(text, es[1..], t);
    }
  }

  // Each aggregate reads one argument.
  predicate OneArgumentEach(aggs: seq<Expr>) {
    forall e :: e in aggs ==> e.AggregateFunction? && |e.args| == 1 && !e.distinct
  }

  function Arguments(aggs: seq<Expr>): (args: seq<Expr>)
    requires OneArgumentEach(aggs)
    ensures |args| == |aggs| && forall k :: 0 <= k < |args| ==> args[k] == aggs[k].args[0]
  {
    seq(|aggs|, k requires 0 <= k < |aggs| => aggs[k].args[0])
  }

  lemma {:induction false} ArgumentsRead(aggs: seq<Expr>)
    requires OneArgumentEach(aggs)
    ensures AggregateArgs(aggs) == Some(Arguments(aggs))
  {
    if aggs != [] {
      ArgumentsRead(aggs[1..]);
      assert aggs[0] in aggs;
      assert Arguments(aggs) == [aggs[0].args[0]] + Arguments(aggs[1..]);
    } else {
      assert Arguments(aggs) == [];
    }
  }

  lemma {:induction false} AggregatesHaveFields(text: Texts, aggs: seq<Expr>, t: Schema)
    requires OneArgumentEach(aggs) && AllBound(Arguments(aggs), t)
    ensures ToFields(text, aggs, Ok(t)).Ok?
  {
    if aggs != [] {
      assert aggs[0] in aggs;
      assert Arguments(aggs)[0] in Arguments(aggs);
      BoundHasField(text, aggs[0].args[0], t);
      assert Arguments(aggs)[1..] == Arguments(aggs[1..]);
      AggregatesHaveFields(text, aggs[1..], t);
    }
  }

  // ---------------------------------------------------------------- what the world shows

  // What some expressions come to on the one row.
  function Shown(text: Texts, es: seq<Expr>, t: Schema, row: Row): Row
    requires AllBound(es, t) && |row| == |t|
  {
    TelltaleEvalList(text, es, t, row);
    EvalList(Telltale(text, NameRow), es, t, row).value
  }

  lemma {:induction false} TelltaleEvalList(text: Texts, es: seq<Expr>, t: Schema, row: Row)
    requires AllBound(es, t) && |row| == |t|
    ensures var v := EvalList(Telltale(text, NameRow), es, t, row);
            v.Some? && |v.value| == |es|
            && forall k :: 0 <= k < |es| ==> Eval(Telltale(text, NameRow), es[k], t, row) == Some(v.value[k])
  {
    if es != [] {
      assert es[0] in es;
      TelltaleEval(text, NameRow, es[0], t, row);
      TelltaleEvalList(text, es[1..], t, row);
    }
  }

  // An aggregate's meaning in terms of its parts.
  lemma AggregateMeans(w: World, input: Plan, group: seq<Expr>, aggs: seq<Expr>, r: Relation, args: seq<Expr>)
    requires SchemaOf(w.text, input) == Ok(r.schema) && Denote(w, input) == Some(r) && AggregateArgs(aggs) == Some(args)
    ensures var p, keys, values := Aggregate(input, group, aggs), EvalRows(w, group, r), EvalRows(w, args, r);
            var out := Denote(w, p);
            && (out.Some? ==> AllBound(group, r.schema) && AllBound(args, r.schema))
            && (AllBound(group, r.schema) && AllBound(args, r.schema) && keys.Some? && values.Some?
                && |keys.value| == |values.value| ==>
                  var rows := GroupRows(w, aggs, keys.value, values.value, FirstOccurrences(keys.value));
                  && (out.Some? ==> rows == Some(out.value.rows))
                  && (rows.Some? && SchemaOf(w.text, p).Ok? ==> out.Some?))
  {
    hide EvalRows, GroupRows, FirstOccurrences, AllBound, AggregateArgs, ToFields;
  }

  lemma OneValue(text: Texts, aggs: seq<Expr>, v: Row, column: nat)
    requires aggs != [] && aggs[0].AggregateFunction? && column < |v|
    ensures var w := Telltale(text, NameRow);
            var rest := Reduce(w, aggs[1..], [v], column + 1);
            Reduce(w, aggs, [v], column) == if rest.Some? then Some([v[column]] + rest.value) else None
  {
    var args := [v];
    var values := seq(|args|, i requires 0 <= i < |args| => if column < |args[i]| then args[i][column] else Null);
    assert values == [v[column]];
  }

  lemma {:induction false} TelltaleReduce(text: Texts, aggs: seq<Expr>, v: Row, column: nat)
    requires OneArgumentEach(aggs) && |v| == column + |aggs|
    ensures Reduce(Telltale(text, NameRow), aggs, [v], column) == Some(v[column..])
  {
    if aggs != [] {
      assert aggs[0] in aggs;
      TelltaleReduce(text, aggs[1..], v, column + 1);
      assert v[column..] == [v[column]] + v[column + 1..];
      OneValue(text, aggs, v, column);
    } else {
      assert v[column..] == [];
    }
  }

  lemma TelltaleGroup(text: Texts, aggs: seq<Expr>, key: Row, v: Row)
    requires OneArgumentEach(aggs) && |v| == |aggs|
    ensures FirstOccurrences([key]) == [key]
    ensures GroupRows(Telltale(text, NameRow), aggs, [key], [v], [key]) == Some([key + v])
  {
    assert [key][..0] == [] && [key][1..] == [] && [v][1..] == [];
    assert FirstOccurrences([key][..0]) == [];
    assert MembersOf([key][1..], [v][1..], key) == [];
    assert MembersOf([key], [v], key) == [v];
    TelltaleReduce(text, aggs, v, 0);
    assert v[0..] == v;
    assert GroupRows(Telltale(text, NameRow), aggs, [key], [v], [key][1..]) == Some([]);
    assert [key + v] + [] == [key + v];
  }

  // The aggregate over one row, in that world: what its expressions come to, if it can be
  // planned at all.
  lemma TelltaleAggregate(text: Texts, input: Plan, t: Schema, row: Row, group: seq<Expr>, aggs: seq<Expr>)
    requires Denote(Telltale(text, NameRow), input) == Some(Relation(t, [row])) && |row| == |t|
    requires SchemaOf(text, input) == Ok(t) && OneArgumentEach(aggs)
    ensures var r, args := Denote(Telltale(text, NameRow), Aggregate(input, group, aggs)), Arguments(aggs);
            && (r.Some? ==> AllBound(group, t) && AllBound(args, t)
                            && r.value.rows == [Shown(text, group, t, row) + Shown(text, args, t, row)])
            && (AllBound(group, t) && AllBound(args, t) ==> r.Some?)
  {
    hide Denote, SchemaOf, EvalRows, EvalList, GroupRows, FirstOccurrences, AllBound, AggregateArgs, ToFields, Shown,
         Arguments, OneArgumentEach;
    var args := Arguments(aggs);
    ArgumentsRead(aggs);
    AggregateMeans(Telltale(text, NameRow), input, group, aggs, Relation(t, [row]), args);
    if AllBound(group, t) && AllBound(args, t) {
      ShownRows(text, group, t, row);
      ShownRows(text, args, t, row);
      TelltaleGroup(text, aggs, Shown(text, group, t, row), Shown(text, args, t, row));
      AggregateHasSchema(text, input, t, group, aggs);
    }
  }

  lemma ShownRows(text: Texts, es: seq<Expr>, t: Schema, row: Row)
    requires AllBound(es, t) && |row| == |t|
    ensures |Shown(text, es, t, row)| == |es|
    ensures EvalRows(Telltale(text, NameRow), es, Relation(t, [row])) == Some([Shown(text, es, t, row)])
  {
    TelltaleEvalList(text, es, t, row);
    OneEvalRow(Telltale(text, NameRow), es, t, row);
  }

  lemma AggregateHasSchema(text: Texts, input: Plan, t: Schema, group: seq<Expr>, aggs: seq<Expr>)
    requires SchemaOf(text, input) == Ok(t) && OneArgumentEach(aggs)
    requires AllBound(group, t) && AllBound(Arguments(aggs), t)
    ensures SchemaOf(text, Aggregate(input, group, aggs)).Ok?
  {
    BoundHaveFields(text, group, t);
    AggregatesHaveFields(text, aggs, t);
  }

  // ---------------------------------------------------------------- the condition

  ghost predicate Ranks(s: Schema, list: seq<string>) {
    DistinctNames(s) && Sequences.Distinct(list) && forall n :: n in list ==> n in Names(s)
  }

  lemma NameRank(s: Schema, list: seq<string>, i: nat)
    requires Ranks(s, list) && i < |s|
    ensures DeriveSchema(s, list).Ok?
    ensures var t := DeriveSchema(s, list).value;
            AtItsRank(s, list, i) <==> i < |t| && t[i].name == s[i].name
  {
    if list != [] {
      ProjectSchemaFields(s, list, "");
      if i < |list| {
        ProjectedAt(s, list, i);
      }
    }
  }

  // Where the expressions come to the same on both schemas' names, positions are at their
  // ranks.
  lemma ShownRank(text: Texts, s: Schema, list: seq<string>, es: seq<Expr>)
    requires Ranks(s, list) && DeriveSchema(s, list).Ok? && AllBound(es, s)
    requires var t := DeriveSchema(s, list).value;
             AllBound(es, t) && Shown(text, es, t, NameRow(t)) == Shown(text, es, s, NameRow(s))
    ensures AllAtRank(es, s, list)
  {
    var t := DeriveSchema(s, list).value;
    TelltaleEvalList(text, es, s, NameRow(s));
    TelltaleEvalList(text, es, t, NameRow(t));
    forall e | e in es && e.ColumnIndex? ensures AtItsRank(s, list, e.index) {
      var k :| 0 <= k < |es| && es[k] == e;
      NameRank(s, list, e.index);
    }
  }

  lemma {:induction false} AggregatesRead(s: Schema, t: Schema, aggs: seq<Expr>)
    requires OneArgumentEach(aggs) && AllRead(Arguments(aggs), s, t)
    ensures AllRead(aggs, s, t)
  {
    if aggs != [] {
      assert aggs[0] in aggs;
      var args := Arguments(aggs);
      assert args[1..] == Arguments(aggs[1..]);
      AggregatesRead(s, t, aggs[1..]);
      assert Reads(args[0], s, t) && aggs[0].args == [args[0]] && aggs[0].args[1..] == [];
      assert AllRead(aggs[0].args[1..], s, t);
      assert AllRead(aggs[0].args, s, t);
    }
  }

  // Keys and arguments that are positions or refer to columns by name, over filters and
  // limits by name, over one table; all of it can be planned.
  predicate PositionalAggregate(p: Plan) {
    && p.Aggregate? && OneArgumentEach(p.aggregateExpr)
    && Chain(p.input) && Plain(p.input) && DistinctNames(Source(p.input).schema)
    && Passable(p.input, Source(p.input).schema)
    && Positional(p.groupExpr) && Positional(Arguments(p.aggregateExpr))
    && AllBound(p.groupExpr, Source(p.input).schema) && AllBound(Arguments(p.aggregateExpr), Source(p.input).schema)
  }

  // Every position, of keys and of arguments, is its column's rank.
  predicate AllRanked(text: Texts, p: Plan)
    requires PositionalAggregate(p) && Optimize(text, p).Ok?
  {
    var s, list := Source(p.input).schema, RequestedList(text, p);
    AllAtRank(p.groupExpr, s, list) && AllAtRank(Arguments(p.aggregateExpr), s, list)
  }

  lemma RequestRanks(text: Texts, p: Plan)
    requires PositionalAggregate(p) && Optimize(text, p).Ok?
    ensures var s, list := Source(p.input).schema, RequestedList(text, p);
            && Ranks(s, list) && SchemaOf(text, p.input) == Ok(s) && DeriveSchema(s, list).Ok?
            && SchemaOf(text, Optimize(text, p).value.input) == DeriveSchema(s, list)
  {
    var s, a := Source(p.input).schema, InputRequest(text, p).value;
    ChainPushed(text, p.input, a);
    SortedChosenDistinct(s, Push(text, p.input, a).value.1);
  }

  lemma RankedAggregateStays(text: Texts, p: Plan)
    requires PositionalAggregate(p) && Optimize(text, p).Ok? && AllRanked(text, p)
    ensures Stays(text, p, {})
  {
    hide Reads, AllRead, AllAtRank, Passable, ProjectSchema, AllBound;
    var s, list := Source(p.input).schema, RequestedList(text, p);
    RequestRanks(text, p);
    RankedRead(p.groupExpr, s, list);
    RankedRead(Arguments(p.aggregateExpr), s, list);
    AggregatesRead(s, s, p.aggregateExpr);
    AggregatesRead(s, DeriveSchema(s, list).value, p.aggregateExpr);
    ChainStays(text, p.input, InputRequest(text, p).value);
  }

  lemma RankedAggregate(text: Texts, p: Plan)
    requires PositionalAggregate(p) && Optimize(text, p).Ok? && AllRanked(text, p)
    ensures AlwaysTheSame(text, p, Optimize(text, p).value)
  {
    hide Stays, AllRanked, Denote;
    RankedAggregateStays(text, p);
    forall w: World | WellTyped(w) && w.text == text && Denote(w, p).Some?
      ensures Denote(w, Optimize(text, p).value) == Denote(w, p)
    {
      PositionsAgree(w, p, {});
    }
  }

  lemma SameHalves(a: Row, b: Row, c: Row, d: Row)
    requires [a + b] == [c + d] && |a| == |c|
    ensures a == c && b == d
  {
    assert a + b == [a + b][0] == [c + d][0] == c + d;
    assert a == (a + b)[..|a|] && c == (c + d)[..|c|];
    assert b == (a + b)[|a|..] && d == (c + d)[|c|..];
  }

  lemma TelltaleTells(text: Texts, p: Plan)
    requires PositionalAggregate(p) && Optimize(text, p).Ok? && AlwaysTheSame(text, p, Optimize(text, p).value)
    ensures AllRanked(text, p)
  {
    hide Denote, Passable, NameRow, ProjectSchema, ProjectRow, AllBound, Shown, Positional;
    var s, list, a := Source(p.input).schema, RequestedList(text, p), InputRequest(text, p).value;
    var w, group, aggs := Telltale(text, NameRow), p.groupExpr, p.aggregateExpr;
    NamesFill();
    RequestRanks(text, p);
    var t, q := DeriveSchema(s, list).value, Optimize(text, p).value;
    TelltalePushed(text, NameRow, p.input, a);
    if list != [] {
      CellsAreNames(s, list);
    }
    TelltaleAggregate(text, p.input, s, NameRow(s), group, aggs);
    TelltaleAggregate(text, q.input, t, NameRow(t), group, aggs);
    TelltaleIsWellTyped(text, NameRow);
    assert Denote(w, q) == Denote(w, p);
    var args := Arguments(aggs);
    ShownRows(text, group, s, NameRow(s));
    ShownRows(text, group, t, NameRow(t));
    SameHalves(Shown(text, group, s, NameRow(s)), Shown(text, args, s, NameRow(s)),
               Shown(text, group, t, NameRow(t)), Shown(text, args, t, NameRow(t)));
    ShownRank(text, s, list, group);
    ShownRank(text, s, list, args);
  }

  /** Keys and arguments by position or by name over one table: the optimized plan gives the
      same result on every database exactly when every position, of keys and of arguments,
      is its column's rank among the requested names in sorted order. */
  lemma ArgumentsExact(text: Texts, p: Plan)
    requires PositionalAggregate(p) && Optimize(text, p).Ok?
    ensures AlwaysTheSame(text, p, Optimize(text, p).value) <==> AllRanked(text, p)
  {
    if AllRanked(text, p) {
      RankedAggregate(text, p);
    } else if AlwaysTheSame(text, p, Optimize(text, p).value) {
      TelltaleTells(text, p);
    }
  }

  /** The schema alone of a projection or grouping by position is kept under the same
      condition. */
  lemma SchemaByPosition(text: Texts, p: Plan)
    requires OverScan(p) && Optimize(text, p).Ok? && SchemaOf(text, p).Ok?
    ensures SchemaOf(text, Optimize(text, p).value) == SchemaOf(text, p)
            <==> AllAtRank(Outputs(p), Source(p.input).schema, RequestedList(text, p))
  {
    if AllAtRank(Outputs(p), Source(p.input).schema, RequestedList(text, p)) {
      RankedStays(text, p);
      TelltaleIsWellTyped(text, NameRow);
      NamedIsAlike(Telltale(text, NameRow), p, {});
      OutputSchemaKept(text, Named(text, p), {});
    } else if SchemaOf(text, Optimize(text, p).value) == SchemaOf(text, p) {
      SameSchemaRanks(text, p);
    }
  }

  // ---------------------------------------------------------------- where it goes wrong

  function TwoColumns(): TableSource {
    TableSource("t", [Field("b", Int32Type, true), Field("a", Int32Type, true)])
  }

  function BothByPosition(): Plan {
    Projection(TableScan("t", TwoColumns(), []), [ColumnIndex(0), ColumnIndex(1)])
  }

  /** SELECT #0, #1 over a table of columns b and a comes back with the columns, names and
      cells, exchanged. */
  lemma SwappedByPosition(w: World)
    requires WellTyped(w) && w.rows(TwoColumns()) == [[Int32(1), Int32(2)]]
    ensures var b, a := Field("b", Int32Type, true), Field("a", Int32Type, true);
            && Denote(w, BothByPosition()) == Some(Relation([b, a], [[Int32(1), Int32(2)]]))
            && Optimize(w.text, BothByPosition()).Ok?
            && Denote(w, Optimize(w.text, BothByPosition()).value) == Some(Relation([a, b], [[Int32(2), Int32(1)]]))
  {
    var s, row, list := TwoColumns().schema, [Int32(1), Int32(2)], ["a", "b"];
    var t, scan, cut := [s[1], s[0]], TableScan("t", TwoColumns(), []), TableScan("t", TwoColumns(), list);
    BothRequested(s);
    SortedBoth(s);
    ProjectedBoth(s, row);
    assert Push(w.text, scan, {"b", "a"}) == Ok((cut, {"b", "a"}));
    assert Denote(w, scan) == Some(Relation(s, [row]));
    assert ScanRows(s, [row], list) == [[row[1], row[0]]];
    assert Denote(w, cut) == Some(Relation(t, [[row[1], row[0]]]));
    BothProjected(w, scan, s, row);
    BothProjected(w, cut, t, [row[1], row[0]]);
  }

  lemma BothProjected(w: World, input: Plan, s: Schema, row: Row)
    requires |s| == |row| == 2 && SchemaOf(w.text, input) == Ok(s) && Denote(w, input) == Some(Relation(s, [row]))
    ensures Denote(w, Projection(input, [ColumnIndex(0), ColumnIndex(1)])) == Some(Relation(s, [row]))
  {
    BothPositions(w, s, row);
    hide ToFields, AllBound, EvalRows;
  }

  lemma BothRequested(s: Schema)
    requires |s| == 2 && s[0].name == "b" && s[1].name == "a"
    ensures ExtractColumnsList([ColumnIndex(0), ColumnIndex(1)], Ok(s), {}) == Ok({"b", "a"})
  {
    var es := [ColumnIndex(0), ColumnIndex(1)];
    assert es[1..] == [ColumnIndex(1)] && es[1..][1..] == [];
    assert {} + {"b"} == {"b"} && {"b"} + {"a"} == {"b", "a"};
    assert ExtractColumnsList(es[1..], Ok(s), {"b"}) == Ok({"b", "a"});
  }

  lemma ProjectedBoth(s: Schema, row: Row)
    requires |s| == |row| == 2 && s[0].name == "b" && s[1].name == "a"
    ensures ProjectSchema(s, ["a", "b"]) == Ok([s[1], s[0]])
    ensures ProjectRow(s, row, ["a", "b"]) == [row[1], row[0]]
  {
    var list := ["a", "b"];
    assert "b"[0] == 'b' && "a"[0] == 'a';
    assert Position(s[1..], "a") == Some(0);
    assert Position(s, "a") == Some(1) && Position(s, "b") == Some(0);
    assert list[1..] == ["b"] && list[1..][1..] == [];
    assert [s[0]] + [] == [s[0]] && [row[0]] + [] == [row[0]];
    assert ProjectSchema(s, list[1..][1..]) == Ok([]);
    assert ProjectSchema(s, list[1..]) == Ok([s[0]]);
    assert [s[1]] + [s[0]] == [s[1], s[0]] && [row[1]] + [row[0]] == [row[1], row[0]];
    assert ProjectRow(s, row, list[1..][1..]) == [];
    assert ProjectRow(s, row, list[1..]) == [row[0]];
  }

  lemma SortedBoth(s: Schema)
    requires |s| == 2 && s[0].name == "b" && s[1].name == "a"
    ensures Sort(Chosen(s, {"b", "a"})) == ["a", "b"]
  {
    assert Chosen(s[1..][1..], {"b", "a"}) == [];
    assert Chosen(s[1..], {"b", "a"}) == ["a"];
    assert Chosen(s, {"b", "a"}) == ["b", "a"];
    assert ["b", "a"][1..] == ["a"] && ["a"][1..] == [];
    assert Sort(["a"]) == ["a"];
    assert "b"[0] == 'b' && "a"[0] == 'a';
    assert !StringLeq("b", "a");
    assert Insert("b", ["a"][1..]) == ["b"];
  }

  lemma BothPositions(w: World, s: Schema, row: Row)
    requires |s| == |row| == 2
    ensures var es := [ColumnIndex(0), ColumnIndex(1)];
            && ToFields(w.text, es, Ok(s)) == Ok(s) && AllBound(es, s)
            && EvalRows(w, es, Relation(s, [row])) == Some([row])
  {
    var es := [ColumnIndex(0), ColumnIndex(1)];
    assert es[1..] == [ColumnIndex(1)] && es[1..][1..] == [];
    assert [s[1]] + [] == [s[1]] && [row[1]] + [] == [row[1]];
    assert ToFields(w.text, es[1..][1..], Ok(s)) == Ok([]);
    assert ToFields(w.text, es[1..], Ok(s)) == Ok([s[1]]);
    assert [s[0]] + [s[1]] == s;
    assert ToField(w.text, es[0], Ok(s)) == Ok(s[0]);
    assert EvalList(w, es[1..][1..], s, row) == Some([]);
    assert EvalList(w, es[1..], s, row) == Some([row[1]]);
    assert EvalList(w, es, s, row) == Some([row[0]] + [row[1]]);
    assert [row[0]] + [row[1]] == row;
    OneEvalRow(w, es, s, row);
  }
}
