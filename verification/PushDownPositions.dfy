/** Columns referred to by position. The rule copies them unchanged over scans whose
    columns it cuts and sorts, so they are right exactly when each still reads its column. */
module PushDownPositions {
  import Sequences
  import opened Results
  import opened Scalars
  import opened Operators
  import opened LogicalPlan
  import opened PushDown
  import opened PushDownSchemas
  import opened PushDownMeaning
  import opened PushDownExact

  // ---------------------------------------------------------------- positions as names

  // The expression with every position replaced by the name it has in `s`.
  function ByName(e: Expr, s: Schema): Expr
    decreases e
  {
    match e
    case ColumnIndex(i) => if i < |s| then Column(s[i].name) else e
    case DateSubtractInterval(d, i) => DateSubtractInterval(ByName(d, s), ByName(i, s))
    case DateAddInterval(d, i) => DateAddInterval(ByName(d, s), ByName(i, s))
    case Cast(inner, t) => Cast(ByName(inner, s), t)
    case BinaryExpr(l, op, r) => BinaryExpr(ByName(l, s), op, ByName(r, s))
    case Alias(inner, alias) => Alias(ByName(inner, s), alias)
    case AggregateFunction(func, args, distinct) => AggregateFunction(func, ByNames(args, s), distinct)
    case _ => e
  }

  function ByNames(es: seq<Expr>, s: Schema): (out: seq<Expr>)
    ensures |out| == |es|
    decreases es
  {
    if es == [] then [] else [ByName(es[0], s)] + ByNames(es[1..], s)
  }

  // Every position of `e` is, in `t`, the first column of the name it has in `s`.
  predicate Reads(e: Expr, s: Schema, t: Schema)
    decreases e
  {
    match e
    case ColumnIndex(i) => i < |s| && Position(t, s[i].name) == Some(i)
    case DateSubtractInterval(d, i) => Reads(d, s, t) && Reads(i, s, t)
    case DateAddInterval(d, i) => Reads(d, s, t) && Reads(i, s, t)
    case Cast(inner, _) => Reads(inner, s, t)
    case BinaryExpr(l, _, r) => Reads(l, s, t) && Reads(r, s, t)
    case Alias(inner, _) => Reads(inner, s, t)
    case AggregateFunction(_, args, _) => AllRead(args, s, t)
    case _ => true
  }

  predicate AllRead(es: seq<Expr>, s: Schema, t: Schema)
    decreases es
  {
    es == [] || (Reads(es[0], s, t) && AllRead(es[1..], s, t))
  }

  lemma {:induction false} ByNameIsNamed(e: Expr, s: Schema, t: Schema)
    requires Reads(e, s, t)
    ensures NamedExpr(ByName(e, s))
    decreases e
  {
    match e
    case DateSubtractInterval(d, i) => ByNameIsNamed(d, s, t); ByNameIsNamed(i, s, t);
    case DateAddInterval(d, i) => ByNameIsNamed(d, s, t); ByNameIsNamed(i, s, t);
    case Cast(inner, _) => ByNameIsNamed(inner, s, t);
    case BinaryExpr(l, _, r) => ByNameIsNamed(l, s, t); ByNameIsNamed(r, s, t);
    case Alias(inner, _) => ByNameIsNamed(inner, s, t);
    case AggregateFunction(_, args, _) => ByNamesAreNamed(args, s, t);
    case _ =>
  }

  lemma {:induction false} ByNamesAreNamed(es: seq<Expr>, s: Schema, t: Schema)
    requires AllRead(es, s, t)
    ensures NamedExprs(ByNames(es, s))
    decreases es
  {
    if es != [] {
      ByNameIsNamed(es[0], s, t);
      ByNamesAreNamed(es[1..], s, t);
    }
  }

  lemma {:induction false} SameExtract(e: Expr, s: Schema, t: Schema, accum: set<string>)
    requires Reads(e, s, t)
    ensures ExtractColumns(ByName(e, s), Ok(s), accum) == ExtractColumns(e, Ok(s), accum)
  {
    match e
    case DateSubtractInterval(d, i) =>
      SameExtract(d, s, t, accum);
      if ExtractColumns(d, Ok(s), accum).Ok? {
        SameExtract(i, s, t, ExtractColumns(d, Ok(s), accum).value);
      }
    case DateAddInterval(d, i) =>
      SameExtract(d, s, t, accum);
      if ExtractColumns(d, Ok(s), accum).Ok? {
        SameExtract(i, s, t, ExtractColumns(d, Ok(s), accum).value);
      }
    case Cast(inner, _) => SameExtract(inner, s, t, accum);
    case BinaryExpr(l, _, r) =>
      SameExtract(l, s, t, accum);
      if ExtractColumns(l, Ok(s), accum).Ok? {
        SameExtract(r, s, t, ExtractColumns(l, Ok(s), accum).value);
      }
    case Alias(inner, _) => SameExtract(inner, s, t, accum);
    case _ =>
  }

  lemma {:induction false} SameExtracts(es: seq<Expr>, s: Schema, t: Schema, accum: set<string>)
    requires AllRead(es, s, t)
    ensures ExtractColumnsList(ByNames(es, s), Ok(s), accum) == ExtractColumnsList(es, Ok(s), accum)
  {
    if es != [] {
      SameExtract(es[0], s, t, accum);
      if ExtractColumns(es[0], Ok(s), accum).Ok? {
        SameExtracts(es[1..], s, t, ExtractColumns(es[0], Ok(s), accum).value);
      }
    }
  }

  lemma {:induction false} SameArgumentExtracts(aggs: seq<Expr>, s: Schema, t: Schema, accum: set<string>)
    requires AllRead(aggs, s, t)
    ensures ExtractArguments(ByNames(aggs, s), Ok(s), accum) == ExtractArguments(aggs, Ok(s), accum)
  {
    if aggs != [] && aggs[0].AggregateFunction? {
      SameExtracts(aggs[0].args, s, t, accum);
      if ExtractColumnsList(aggs[0].args, Ok(s), accum).Ok? {
        SameArgumentExtracts(aggs[1..], s, t, ExtractColumnsList(aggs[0].args, Ok(s), accum).value);
      }
    }
  }

  lemma {:induction false} SameField(text: Texts, e: Expr, s: Schema, t: Schema)
    requires Reads(e, s, t)
    ensures ToField(text, ByName(e, s), Ok(t)) == ToField(text, e, Ok(t))
  {
    match e
    case ColumnIndex(i) => FindFieldPosition(t, s[i].name);
    case Cast(inner, _) => SameField(text, inner, s, t);
    case BinaryExpr(l, _, _) => SameField(text, l, s, t);
    case Alias(inner, _) => SameField(text, inner, s, t);
    case AggregateFunction(_, args, _) =>
      if args != [] {
        SameField(text, args[0], s, t);
      }
    case _ =>
  }

  lemma {:induction false} SameFields(text: Texts, es: seq<Expr>, s: Schema, t: Schema)
    requires AllRead(es, s, t)
    ensures ToFields(text, ByNames(es, s), Ok(t)) == ToFields(text, es, Ok(t))
  {
    if es != [] {
      SameField(text, es[0], s, t);
      SameFields(text, es[1..], s, t);
    }
  }

  lemma {:induction false} SameBound(e: Expr, s: Schema, t: Schema)
    requires Reads(e, s, t)
    ensures Bound(ByName(e, s), t) == Bound(e, t)
  {
    match e
    case DateSubtractInterval(d, i) => SameBound(d, s, t); SameBound(i, s, t);
    case DateAddInterval(d, i) => SameBound(d, s, t); SameBound(i, s, t);
    case Cast(inner, _) => SameBound(inner, s, t);
    case BinaryExpr(l, _, r) => SameBound(l, s, t); SameBound(r, s, t);
    case Alias(inner, _) => SameBound(inner, s, t);
    case _ =>
  }

  lemma {:induction false} SameAllBound(es: seq<Expr>, s: Schema, t: Schema)
    requires AllRead(es, s, t)
    ensures AllBound(ByNames(es, s), t) == AllBound(es, t)
  {
    if es != [] {
      SameBound(es[0], s, t);
      SameAllBound(es[1..], s, t);
      assert es == [es[0]] + es[1..];
    }
  }

  lemma {:induction false} SameEval(w: World, e: Expr, s: Schema, t: Schema, row: Row)
    requires Reads(e, s, t) && |row| == |t|
    ensures Eval(w, ByName(e, s), t, row) == Eval(w, e, t, row)
  {
    match e
    case ColumnIndex(i) => CellPosition(t, row, s[i].name);
    case DateSubtractInterval(d, i) => SameEval(w, d, s, t, row); SameEval(w, i, s, t, row);
    case DateAddInterval(d, i) => SameEval(w, d, s, t, row); SameEval(w, i, s, t, row);
    case Cast(inner, _) => SameEval(w, inner, s, t, row);
    case BinaryExpr(l, _, r) => SameEval(w, l, s, t, row); SameEval(w, r, s, t, row);
    case Alias(inner, _) => SameEval(w, inner, s, t, row);
    case _ =>
  }

  lemma {:induction false} SameEvalList(w: World, es: seq<Expr>, s: Schema, t: Schema, row: Row)
    requires AllRead(es, s, t) && |row| == |t|
    ensures EvalList(w, ByNames(es, s), t, row) == EvalList(w, es, t, row)
  {
    if es != [] {
      SameEval(w, es[0], s, t, row);
      SameEvalList(w, es[1..], s, t, row);
    }
  }

  lemma {:induction false} SameEvalRows(w: World, es: seq<Expr>, s: Schema, r: Relation)
    requires AllRead(es, s, r.schema) && Rectangular(r)
    ensures EvalRows(w, ByNames(es, s), r) == EvalRows(w, es, r)
    decreases r.rows
  {
    if r.rows != [] {
      SameEvalList(w, es, s, r.schema, r.rows[0]);
      SameEvalRows(w, es, s, r.(rows := r.rows[1..]));
    }
  }

  lemma {:induction false} SameArguments(aggs: seq<Expr>, s: Schema, t: Schema)
    requires AllRead(aggs, s, t)
    ensures AggregateArgs(ByNames(aggs, s)).Some? == AggregateArgs(aggs).Some?
    ensures AggregateArgs(aggs).Some? ==>
              && AllRead(AggregateArgs(aggs).value, s, t)
              && AggregateArgs(ByNames(aggs, s)).value == ByNames(AggregateArgs(aggs).value, s)
  {
    if aggs != [] {
      SameArguments(aggs[1..], s, t);
      if AggregateArgs(aggs).Some? {
        var args, first := AggregateArgs(aggs).value, aggs[0].args;
        assert args[1..] == AggregateArgs(aggs[1..]).value;
        assert Reads(aggs[0], s, t);
        assert AllRead(first, s, t);
        assert args[0] == first[0] && Reads(first[0], s, t);
        assert ByNames(first, s)[0] == ByName(first[0], s);
      }
    }
  }

  lemma {:induction false} SameReduce(w: World, aggs: seq<Expr>, s: Schema, args: seq<Row>, column: nat)
    ensures Reduce(w, ByNames(aggs, s), args, column) == Reduce(w, aggs, args, column)
  {
    if aggs != [] {
      SameReduce(w, aggs[1..], s, args, column + 1);
    }
  }

  lemma {:induction false} SameGroupRows(
    w: World, aggs: seq<Expr>, s: Schema, keys: seq<Row>, args: seq<Row>, order: seq<Row>)
    requires |keys| == |args|
    ensures GroupRows(w, ByNames(aggs, s), keys, args, order) == GroupRows(w, aggs, keys, args, order)
    decreases order
  {
    if order != [] {
      SameReduce(w, aggs, s, MembersOf(keys, args, order[0]), 0);
      SameGroupRows(w, aggs, s, keys, args, order[1..]);
    }
  }

  // ---------------------------------------------------------------- operators over named expressions

  // Two inputs with one schema and one meaning.
  ghost predicate Interchangeable(w: World, x: Plan, y: Plan, t: Schema) {
    SchemaOf(w.text, x) == Ok(t) == SchemaOf(w.text, y) && Denote(w, y) == Denote(w, x)
  }

  lemma SameProjection(w: World, x: Plan, y: Plan, exprs: seq<Expr>, s: Schema, t: Schema)
    requires WellTyped(w) && Interchangeable(w, x, y, t) && AllRead(exprs, s, t)
    ensures SchemaOf(w.text, Projection(y, ByNames(exprs, s))) == SchemaOf(w.text, Projection(x, exprs))
    ensures Denote(w, Projection(y, ByNames(exprs, s))) == Denote(w, Projection(x, exprs))
  {
    hide Reads, AllRead, ByName, ByNames, EvalRows, ToFields, AllBound;
    SameFields(w.text, exprs, s, t);
    if Denote(w, x).Some? {
      DenoteRectangular(w, x);
      SameAllBound(exprs, s, t);
      SameEvalRows(w, exprs, s, Denote(w, x).value);
    }
  }

  lemma SameFilter(w: World, x: Plan, y: Plan, condition: Expr, s: Schema, t: Schema)
    requires WellTyped(w) && Interchangeable(w, x, y, t) && Reads(condition, s, t)
    ensures Denote(w, Filter(y, ByName(condition, s))) == Denote(w, Filter(x, condition))
  {
    if Denote(w, x).Some? {
      DenoteRectangular(w, x);
      SameBound(condition, s, t);
      assert [condition][1..] == [];
      assert ByNames([condition], s) == [ByName(condition, s)];
      SameEvalRows(w, [condition], s, Denote(w, x).value);
    }
  }

  // Grouping a relation by either expressions is the same.
  lemma SameGrouping(w: World, group: seq<Expr>, aggs: seq<Expr>, s: Schema, r: Relation)
    requires Rectangular(r) && AllRead(group, s, r.schema) && AllRead(aggs, s, r.schema)
    ensures AllBound(ByNames(group, s), r.schema) == AllBound(group, r.schema)
    ensures EvalRows(w, ByNames(group, s), r) == EvalRows(w, group, r)
    ensures AggregateArgs(ByNames(aggs, s)).Some? == AggregateArgs(aggs).Some?
    ensures AggregateArgs(aggs).Some? ==>
              var args, args' := AggregateArgs(aggs).value, AggregateArgs(ByNames(aggs, s)).value;
              && AllBound(args', r.schema) == AllBound(args, r.schema) && EvalRows(w, args', r) == EvalRows(w, args, r)
              && (EvalRows(w, group, r).Some? && EvalRows(w, args, r).Some? ==>
                    var keys, values := EvalRows(w, group, r).value, EvalRows(w, args, r).value;
                    && |keys| == |values|
                    && GroupRows(w, ByNames(aggs, s), keys, values, FirstOccurrences(keys))
                       == GroupRows(w, aggs, keys, values, FirstOccurrences(keys)))
  {
    hide Reads, AllRead, ByName, ByNames, EvalRows, GroupRows, FirstOccurrences, AllBound, AggregateArgs;
    SameAllBound(group, s, r.schema);
    SameEvalRows(w, group, s, r);
    SameArguments(aggs, s, r.schema);
    if AggregateArgs(aggs).Some? {
      var args := AggregateArgs(aggs).value;
      SameAllBound(args, s, r.schema);
      SameEvalRows(w, args, s, r);
      if EvalRows(w, group, r).Some? && EvalRows(w, args, r).Some? {
        EvalRowsLength(w, group, r);
        EvalRowsLength(w, args, r);
        var keys := EvalRows(w, group, r).value;
        SameGroupRows(w, aggs, s, keys, EvalRows(w, args, r).value, FirstOccurrences(keys));
      }
    }
  }

  lemma SameAggregate(w: World, x: Plan, y: Plan, group: seq<Expr>, aggs: seq<Expr>, s: Schema, t: Schema)
    requires WellTyped(w) && Interchangeable(w, x, y, t) && AllRead(group, s, t) && AllRead(aggs, s, t)
    ensures SchemaOf(w.text, Aggregate(y, ByNames(group, s), ByNames(aggs, s)))
            == SchemaOf(w.text, Aggregate(x, group, aggs))
    ensures Denote(w, Aggregate(y, ByNames(group, s), ByNames(aggs, s))) == Denote(w, Aggregate(x, group, aggs))
  {
    hide Reads, AllRead, ByName, ByNames, EvalRows, GroupRows, FirstOccurrences, ToFields, AllBound, AggregateArgs;
    SameFields(w.text, group, s, t);
    SameFields(w.text, aggs, s, t);
    if Denote(w, x).Some? {
      DenoteRectangular(w, x);
      SameGrouping(w, group, aggs, s, Denote(w, x).value);
    }
  }

  // ---------------------------------------------------------------- plans

  // The plan with every column referred to by name.
  function Named(text: Texts, p: Plan): Plan {
    match p
    case TableScan(_, _, _) => p
    case Projection(input, exprs) => Projection(Named(text, input), ByNames(exprs, Fields(text, input)))
    case Filter(input, condition) => Filter(Named(text, input), ByName(condition, Fields(text, input)))
    case Aggregate(input, group, aggs) =>
      Aggregate(Named(text, input), ByNames(group, Fields(text, input)), ByNames(aggs, Fields(text, input)))
    case Limit(input, n) => Limit(Named(text, input), n)
    case Join(left, right, joinType, on) => Join(Named(text, left), Named(text, right), joinType, on)
  }

  function Fields(text: Texts, p: Plan): Schema {
    if SchemaOf(text, p).Ok? then SchemaOf(text, p).value else []
  }

  // Every position anywhere in the plan reads its column, before the rewrite and after.
  predicate Stays(text: Texts, p: Plan, names: set<string>)
    requires Push(text, p, names).Ok?
  {
    match p
    case TableScan(_, _, projection) => projection == []
    case Projection(input, exprs) =>
      var a := ExtractColumnsList(exprs, SchemaOf(text, input), names).value;
      && Stays(text, input, a) && SchemaOf(text, input).Ok? && SchemaOf(text, Push(text, input, a).value.0).Ok?
      && AllRead(exprs, Fields(text, input), Fields(text, input))
      && AllRead(exprs, Fields(text, input), Fields(text, Push(text, input, a).value.0))
    case Filter(input, condition) =>
      var a := ExtractColumns(condition, SchemaOf(text, input), names).value;
      && Stays(text, input, a) && SchemaOf(text, input).Ok? && SchemaOf(text, Push(text, input, a).value.0).Ok?
      && Reads(condition, Fields(text, input), Fields(text, input))
      && Reads(condition, Fields(text, input), Fields(text, Push(text, input, a).value.0))
    case Aggregate(input, group, aggs) =>
      var a := ExtractColumnsList(group, SchemaOf(text, input), names).value;
      var b := ExtractArguments(aggs, SchemaOf(text, input), a).value;
      && Stays(text, input, b) && SchemaOf(text, input).Ok? && SchemaOf(text, Push(text, input, b).value.0).Ok?
      && AllRead(group, Fields(text, input), Fields(text, input))
      && AllRead(aggs, Fields(text, input), Fields(text, input))
      && AllRead(group, Fields(text, input), Fields(text, Push(text, input, b).value.0))
      && AllRead(aggs, Fields(text, input), Fields(text, Push(text, input, b).value.0))
    case Limit(input, _) => Stays(text, input, names)
    case Join(left, right, _, on) =>
      var a := JoinRequest(text, left, right, on, names).value;
      Stays(text, left, a) && Stays(text, right, Push(text, left, a).value.1)
  }

  // The named plan is rewritten alike.
  ghost predicate Alike(w: World, p: Plan, names: set<string>)
    requires Push(w.text, p, names).Ok?
  {
    var q, pushed := Named(w.text, p), Push(w.text, p, names).value;
    && Plain(q) && SchemaOf(w.text, q) == SchemaOf(w.text, p) && Denote(w, q) == Denote(w, p)
    && Push(w.text, q, names).Ok?
    && var pushed' := Push(w.text, q, names).value;
    && pushed'.1 == pushed.1
    && SchemaOf(w.text, pushed'.0) == SchemaOf(w.text, pushed.0) && Denote(w, pushed'.0) == Denote(w, pushed.0)
  }

  lemma {:induction false} NamedIsAlike(w: World, p: Plan, names: set<string>)
    requires WellTyped(w) && Push(w.text, p, names).Ok? && Stays(w.text, p, names)
    ensures Alike(w, p, names)
    decreases p, 1
  {
    match p
    case TableScan(_, _, _) =>
    case Projection(_, _) => ProjectionAlike(w, p, names);
    case Filter(_, _) => FilterAlike(w, p, names);
    case Aggregate(_, _, _) => AggregateAlike(w, p, names);
    case Limit(input, _) => NamedIsAlike(w, input, names);
    case Join(left, right, joinType, on) =>
      var a := JoinRequest(w.text, left, right, on, names).value;
      NamedIsAlike(w, left, a);
      NamedIsAlike(w, right, Push(w.text, left, a).value.1);
      assert JoinRequest(w.text, Named(w.text, left), Named(w.text, right), on, names) == Ok(a);
  }

  lemma ProjectionAlike(w: World, p: Plan, names: set<string>)
    requires p.Projection? && WellTyped(w) && Push(w.text, p, names).Ok? && Stays(w.text, p, names)
    ensures Alike(w, p, names)
    decreases p, 0
  {
    var Projection(input, exprs) := p;
    var s := SchemaOf(w.text, input).value;
    var a := ExtractColumnsList(exprs, Ok(s), names).value;
    NamedIsAlike(w, input, a);
    ByNamesAreNamed(exprs, s, s);
    SameExtracts(exprs, s, s, names);
    var x, y := Push(w.text, input, a).value.0, Push(w.text, Named(w.text, input), a).value.0;
    SameProjection(w, input, Named(w.text, input), exprs, s, s);
    SameProjection(w, x, y, exprs, s, SchemaOf(w.text, x).value);
  }

  lemma FilterAlike(w: World, p: Plan, names: set<string>)
    requires p.Filter? && WellTyped(w) && Push(w.text, p, names).Ok? && Stays(w.text, p, names)
    ensures Alike(w, p, names)
    decreases p, 0
  {
    var Filter(input, condition) := p;
    var s := SchemaOf(w.text, input).value;
    var a := ExtractColumns(condition, Ok(s), names).value;
    NamedIsAlike(w, input, a);
    ByNameIsNamed(condition, s, s);
    SameExtract(condition, s, s, names);
    var x, y := Push(w.text, input, a).value.0, Push(w.text, Named(w.text, input), a).value.0;
    SameFilter(w, input, Named(w.text, input), condition, s, s);
    SameFilter(w, x, y, condition, s, SchemaOf(w.text, x).value);
  }

  lemma AggregateAlike(w: World, p: Plan, names: set<string>)
    requires p.Aggregate? && WellTyped(w) && Push(w.text, p, names).Ok? && Stays(w.text, p, names)
    ensures Alike(w, p, names)
    decreases p, 0
  {
    var Aggregate(input, group, aggs) := p;
    var s := SchemaOf(w.text, input).value;
    var a := ExtractColumnsList(group, Ok(s), names).value;
    var b := ExtractArguments(aggs, Ok(s), a).value;
    NamedIsAlike(w, input, b);
    ByNamesAreNamed(group, s, s);
    ByNamesAreNamed(aggs, s, s);
    SameExtracts(group, s, s, names);
    SameArgumentExtracts(aggs, s, s, a);
    var x, y := Push(w.text, input, b).value.0, Push(w.text, Named(w.text, input), b).value.0;
    SameAggregate(w, input, Named(w.text, input), group, aggs, s, s);
    SameAggregate(w, x, y, group, aggs, s, SchemaOf(w.text, x).value);
  }

  /** Positions are harmless where they stay: whatever the plan's shape, if every position
      reads its column before the rewrite and after, the rewritten plan agrees with it on
      every requested column, and below a projection or an aggregate is identical. */
  lemma PositionsAgree(w: World, p: Plan, names: set<string>)
    requires WellTyped(w) && Push(w.text, p, names).Ok? && Stays(w.text, p, names) && Denote(w, p).Some?
    ensures Denote(w, Push(w.text, p, names).value.0).Some?
    ensures Agrees(Denote(w, p).value, Denote(w, Push(w.text, p, names).value.0).value, names)
    ensures p.Projection? || p.Aggregate? ==> Denote(w, Push(w.text, p, names).value.0) == Denote(w, p)
  {
    NamedIsAlike(w, p, names);
    var q := Named(w.text, p);
    PushDownAgrees(w, q, names);
    if p.Projection? {
      ProjectionKept(w, q, names);
    } else if p.Aggregate? {
      AggregateKept(w, q, names);
    }
  }

  // ---------------------------------------------------------------- over one scan

  // Filters and limits over a scan that carries no projection yet.
  predicate Chain(p: Plan) {
    match p
    case TableScan(_, _, projection) => projection == []
    case Filter(input, _) => Chain(input)
    case Limit(input, _) => Chain(input)
    case _ => false
  }

  function Source(p: Plan): TableSource
    requires Chain(p)
  {
    if p.TableScan? then p.source else Source(p.input)
  }

  // The columns the rule leaves the scan, when `names` are requested of the chain.
  function ScanList(text: Texts, p: Plan, names: set<string>): seq<string>
    requires Chain(p) && Push(text, p, names).Ok?
  {
    Sort(Chosen(Source(p).schema, Push(text, p, names).value.1))
  }

  lemma {:induction false} ChainPushed(text: Texts, p: Plan, names: set<string>)
    requires Chain(p) && Push(text, p, names).Ok?
    ensures SchemaOf(text, p) == Ok(Source(p).schema)
    ensures SchemaOf(text, Push(text, p, names).value.0).Ok?
    ensures SchemaOf(text, Push(text, p, names).value.0) == DeriveSchema(Source(p).schema, ScanList(text, p, names))
  {
    match p
    case TableScan(_, _, _) =>
    case Filter(input, condition) =>
      ChainPushed(text, input, ExtractColumns(condition, SchemaOf(text, input), names).value);
    case Limit(input, _) => ChainPushed(text, input, names);
  }

  // ---------------------------------------------------------------- ranks in the sorted list

  lemma {:induction false} DistinctByCount(names: seq<string>)
    ensures Sequences.Distinct(names) <==> forall n :: multiset(names)[n] <= 1
  {
    if names != [] {
      var front, last := names[..|names| - 1], names[|names| - 1];
      assert names == front + [last];
      DistinctByCount(front);
      assert multiset(names)[last] == multiset(front)[last] + 1;
      assert forall n :: multiset(front)[n] <= multiset(names)[n];
      if Sequences.Distinct(names) {
        assert last !in front;
        assert multiset(front)[last] == 0;
        assert forall n :: n != last ==> multiset(names)[n] == multiset(front)[n];
      } else if Sequences.Distinct(front) {
        assert last in front;
        assert last in multiset(front);
      }
    }
  }

  lemma {:induction false} ChosenDistinct(s: Schema, wanted: set<string>)
    requires DistinctNames(s)
    ensures Sequences.Distinct(Chosen(s, wanted))
  {
    if s != [] {
      ChosenDistinct(s[1..], wanted);
      ChosenNames(s[1..], wanted);
    }
  }

  lemma SortedChosenDistinct(s: Schema, wanted: set<string>)
    requires DistinctNames(s)
    ensures var list := Sort(Chosen(s, wanted)); Sequences.Distinct(list) && forall n :: n in list ==> n in Names(s)
  {
    ChosenDistinct(s, wanted);
    ChosenNames(s, wanted);
    SortSorts(Chosen(s, wanted));
    DistinctByCount(Chosen(s, wanted));
    DistinctByCount(Sort(Chosen(s, wanted)));
  }

  // The column at position `i` is still there: nothing was requested and everything is
  // kept, or its name is the i-th of the sorted request.
  predicate AtItsRank(s: Schema, list: seq<string>, i: nat) {
    i < |s| && (list == [] || (i < |list| && list[i] == s[i].name))
  }

  lemma {:induction false} ProjectedAt(s: Schema, names: seq<string>, i: nat)
    requires i < |names| && forall n :: n in names ==> n in Names(s)
    ensures ProjectSchema(s, names).Ok? && |ProjectSchema(s, names).value| == |names|
    ensures ProjectSchema(s, names).value[i] == s[Position(s, names[i]).value]
  {
    ProjectSchemaFields(s, names, "");
    if i > 0 {
      ProjectedAt(s, names[1..], i - 1);
    }
  }

  lemma ProjectedDistinct(s: Schema, list: seq<string>)
    requires Sequences.Distinct(list) && forall n :: n in list ==> n in Names(s)
    ensures ProjectSchema(s, list).Ok? && DistinctNames(ProjectSchema(s, list).value)
  {
    ProjectSchemaFields(s, list, "");
    var t := ProjectSchema(s, list).value;
    forall i, j | 0 <= i < j < |t| ensures t[i].name != t[j].name {
      ProjectedAt(s, list, i);
      ProjectedAt(s, list, j);
    }
  }

  /** A position reads its column in the cut and sorted scan exactly when it is the
      column's rank. */
  lemma ReadsByRank(s: Schema, list: seq<string>, i: nat)
    requires DistinctNames(s) && Sequences.Distinct(list) && (forall n :: n in list ==> n in Names(s)) && i < |s|
    ensures DeriveSchema(s, list).Ok?
    ensures var t := DeriveSchema(s, list).value;
            && (AtItsRank(s, list, i) <==> Position(t, s[i].name) == Some(i))
            && (AtItsRank(s, list, i) <==> i < |t| && t[i] == s[i])
  {
    PositionDistinct(s, i);
    if list != [] {
      ProjectedDistinct(s, list);
      ProjectSchemaFields(s, list, "");
      var t := ProjectSchema(s, list).value;
      if i < |list| {
        ProjectedAt(s, list, i);
        PositionDistinct(t, i);
      }
    }
  }

  // ---------------------------------------------------------------- positional outputs

  lemma {:induction false} NamedReads(e: Expr, s: Schema, t: Schema)
    requires NamedExpr(e)
    ensures Reads(e, s, t)
    decreases e
  {
    match e
    case DateSubtractInterval(d, i) => NamedReads(d, s, t); NamedReads(i, s, t);
    case DateAddInterval(d, i) => NamedReads(d, s, t); NamedReads(i, s, t);
    case Cast(inner, _) => NamedReads(inner, s, t);
    case BinaryExpr(l, _, r) => NamedReads(l, s, t); NamedReads(r, s, t);
    case Alias(inner, _) => NamedReads(inner, s, t);
    case AggregateFunction(_, args, _) => NamedRead(args, s, t);
    case _ =>
  }

  lemma {:induction false} NamedRead(es: seq<Expr>, s: Schema, t: Schema)
    requires NamedExprs(es)
    ensures AllRead(es, s, t)
    decreases es
  {
    if es != [] {
      NamedReads(es[0], s, t);
      NamedRead(es[1..], s, t);
    }
  }

  lemma {:induction false} ChainStays(text: Texts, p: Plan, names: set<string>)
    requires Chain(p) && Plain(p) && Push(text, p, names).Ok?
    ensures Stays(text, p, names)
  {
    match p
    case TableScan(_, _, _) =>
    case Filter(input, condition) =>
      var a := ExtractColumns(condition, SchemaOf(text, input), names).value;
      ChainStays(text, input, a);
      ChainPushed(text, input, a);
      NamedReads(condition, Fields(text, input), Fields(text, input));
      NamedReads(condition, Fields(text, input), Fields(text, Push(text, input, a).value.0));
    case Limit(input, _) => ChainStays(text, input, names);
  }

  // Each expression is a bare position or refers to columns by name.
  predicate Positional(es: seq<Expr>) {
    forall e :: e in es ==> e.ColumnIndex? || NamedExpr(e)
  }

  // A projection or a grouping whose outputs may be positions, over filters and limits
  // by name, over one table.
  predicate OverScan(p: Plan) {
    && (p.Projection? || p.Aggregate?) && Chain(p.input) && Plain(p.input) && DistinctNames(Source(p.input).schema)
    && Positional(Outputs(p)) && (p.Aggregate? ==> NamedExprs(p.aggregateExpr))
  }

  function Outputs(p: Plan): seq<Expr>
    requires p.Projection? || p.Aggregate?
  {
    if p.Projection? then p.exprs else p.groupExpr
  }

  // What the rule asks of the input.
  function InputRequest(text: Texts, p: Plan): Result<set<string>>
    requires p.Projection? || p.Aggregate?
  {
    var a :- ExtractColumnsList(Outputs(p), SchemaOf(text, p.input), {});
    if p.Projection? then Ok(a) else ExtractArguments(p.aggregateExpr, SchemaOf(text, p.input), a)
  }

  function RequestedList(text: Texts, p: Plan): seq<string>
    requires (p.Projection? || p.Aggregate?) && Chain(p.input) && Optimize(text, p).Ok?
  {
    ScanList(text, p.input, InputRequest(text, p).value)
  }

  predicate AllAtRank(es: seq<Expr>, s: Schema, list: seq<string>) {
    forall e :: e in es && e.ColumnIndex? ==> AtItsRank(s, list, e.index)
  }

  lemma {:induction false} RankedRead(es: seq<Expr>, s: Schema, list: seq<string>)
    requires Positional(es) && DistinctNames(s) && Sequences.Distinct(list) && forall n :: n in list ==> n in Names(s)
    requires AllAtRank(es, s, list)
    ensures DeriveSchema(s, list).Ok? && AllRead(es, s, s) && AllRead(es, s, DeriveSchema(s, list).value)
  {
    if list != [] {
      ProjectSchemaFields(s, list, "");
    }
    if es != [] {
      RankedRead(es[1..], s, list);
      if es[0].ColumnIndex? {
        assert es[0] in es;
        ReadsByRank(s, list, es[0].index);
        PositionDistinct(s, es[0].index);
      } else {
        NamedReads(es[0], s, s);
        NamedReads(es[0], s, DeriveSchema(s, list).value);
      }
    }
  }

  lemma RankedStays(text: Texts, p: Plan)
    requires OverScan(p) && Optimize(text, p).Ok?
    requires AllAtRank(Outputs(p), Source(p.input).schema, RequestedList(text, p))
    ensures Stays(text, p, {})
  {
    var s, list, a := Source(p.input).schema, RequestedList(text, p), InputRequest(text, p).value;
    ChainPushed(text, p.input, a);
    ChainStays(text, p.input, a);
    SortedChosenDistinct(s, Push(text, p.input, a).value.1);
    RankedRead(Outputs(p), s, list);
    if p.Aggregate? {
      NamedRead(p.aggregateExpr, s, s);
      NamedRead(p.aggregateExpr, s, DeriveSchema(s, list).value);
    }
  }

  // Equal fields at a position mean it is at its rank.
  lemma {:induction false} FieldsRank(text: Texts, es: seq<Expr>, s: Schema, list: seq<string>)
    requires DistinctNames(s) && Sequences.Distinct(list) && (forall n :: n in list ==> n in Names(s))
    requires DeriveSchema(s, list).Ok? && ToFields(text, es, Ok(s)).Ok?
    requires ToFields(text, es, Ok(DeriveSchema(s, list).value)) == ToFields(text, es, Ok(s))
    ensures AllAtRank(es, s, list)
  {
    if es != [] {
      var x, y := ToFields(text, es, Ok(s)), ToFields(text, es, Ok(DeriveSchema(s, list).value));
      assert x.value[1..] == ToFields(text, es[1..], Ok(s)).value;
      assert y.value[1..] == ToFields(text, es[1..], Ok(DeriveSchema(s, list).value)).value;
      assert x.value[0] == y.value[0];
      FieldsRank(text, es[1..], s, list);
      if es[0].ColumnIndex? {
        ReadsByRank(s, list, es[0].index);
      }
      assert es == [es[0]] + es[1..];
    }
  }

  lemma SameSchemaRanks(text: Texts, p: Plan)
    requires OverScan(p) && Optimize(text, p).Ok? && SchemaOf(text, p).Ok?
    requires SchemaOf(text, Optimize(text, p).value) == SchemaOf(text, p)
    ensures AllAtRank(Outputs(p), Source(p.input).schema, RequestedList(text, p))
  {
    var s, list, a := Source(p.input).schema, RequestedList(text, p), InputRequest(text, p).value;
    ChainPushed(text, p.input, a);
    SortedChosenDistinct(s, Push(text, p.input, a).value.1);
    var es, t := Outputs(p), DeriveSchema(s, list).value;
    if p.Aggregate? {
      var x, y := ToFields(text, es, Ok(s)), ToFields(text, es, Ok(t));
      ToFieldsWidth(text, es, Ok(s));
      ToFieldsWidth(text, es, Ok(t));
      assert x.value == SchemaOf(text, p).value[..|es|];
      assert y.value == SchemaOf(text, Optimize(text, p).value).value[..|es|];
    }
    FieldsRank(text, es, s, list);
  }

  /** A projection or a grouping by position over one table, through any filters and limits
      by name: the optimized plan yields the identical relation, in every world where the
      plan has a meaning, exactly when each position is its column's rank among the
      requested names in sorted order. */
  lemma PositionsExact(w: World, p: Plan)
    requires WellTyped(w) && OverScan(p) && Optimize(w.text, p).Ok? && Denote(w, p).Some?
    ensures Denote(w, Optimize(w.text, p).value) == Denote(w, p)
            <==> AllAtRank(Outputs(p), Source(p.input).schema, RequestedList(w.text, p))
  {
    var q := Optimize(w.text, p).value;
    if AllAtRank(Outputs(p), Source(p.input).schema, RequestedList(w.text, p)) {
      RankedStays(w.text, p);
      PositionsAgree(w, p, {});
    } else if Denote(w, q) == Denote(w, p) {
      DenoteRectangular(w, p);
      DenoteRectangular(w, q);
      SameSchemaRanks(w.text, p);
    }
  }
}
