/** What push-down does to a plan whether or not the plan has a meaning: it rewrites the
    scans' column lists and nothing else, and it fails on exactly the plans described here. */
module PushDownShape {
  import opened Results
  import opened Scalars
  import opened LogicalPlan
  import opened PushDown
  import opened PushDownSchemas

  // ---------------------------------------------------------------- only the lists change

  // The plan with every scan's column list cleared.
  function Unlisted(p: Plan): Plan {
    match p
    case TableScan(path, source, _) => TableScan(path, source, [])
    case Projection(input, exprs) => Projection(Unlisted(input), exprs)
    case Filter(input, condition) => Filter(Unlisted(input), condition)
    case Aggregate(input, group, aggs) => Aggregate(Unlisted(input), group, aggs)
    case Limit(input, n) => Limit(Unlisted(input), n)
    case Join(left, right, joinType, on) => Join(Unlisted(left), Unlisted(right), joinType, on)
  }

  /** Whatever the plan: its operators, expressions, join types and keys, limits and tables
      stay as they are, in place. */
  lemma {:induction false} OnlyListsChange(text: Texts, p: Plan, names: set<string>)
    requires Push(text, p, names).Ok?
    ensures Unlisted(Push(text, p, names).value.0) == Unlisted(p)
  {
    match p
    case TableScan(_, _, _) =>
    case Projection(input, exprs) =>
      OnlyListsChange(text, input, ExtractColumnsList(exprs, SchemaOf(text, input), names).value);
    case Filter(input, condition) =>
      OnlyListsChange(text, input, ExtractColumns(condition, SchemaOf(text, input), names).value);
    case Aggregate(input, group, aggs) =>
      var s := SchemaOf(text, input);
      OnlyListsChange(text, input, ExtractArguments(aggs, s, ExtractColumnsList(group, s, names).value).value);
    case Limit(input, _) => OnlyListsChange(text, input, names);
    case Join(left, right, joinType, on) =>
      var a := JoinRequest(text, left, right, on, names).value;
      OnlyListsChange(text, left, a);
      OnlyListsChange(text, right, Push(text, left, a).value.1);
  }

  // ---------------------------------------------------------------- when it fails

  // Names can be collected: no negation, no function call, and no position the input lacks.
  predicate Collectable(e: Expr, input: Result<Schema>) {
    match e
    case Column(_) => true
    case ColumnIndex(i) => input.Ok? && i < |input.value|
    case Literal(_) => true
    case DateSubtractInterval(d, i) => Collectable(d, input) && Collectable(i, input)
    case DateAddInterval(d, i) => Collectable(d, input) && Collectable(i, input)
    case Cast(inner, _) => Collectable(inner, input)
    case BinaryExpr(l, _, r) => Collectable(l, input) && Collectable(r, input)
    case Alias(inner, _) => Collectable(inner, input)
    case _ => false
  }

  predicate AllCollectable(es: seq<Expr>, input: Result<Schema>) {
    forall e :: e in es ==> Collectable(e, input)
  }

  predicate AggregatesCollectable(aggs: seq<Expr>, input: Result<Schema>) {
    forall e :: e in aggs ==> e.AggregateFunction? && AllCollectable(e.args, input)
  }

  // The names an expression mentions, by name or by position.
  function Mentioned(e: Expr, input: Result<Schema>): set<string> {
    match e
    case Column(name) => {name}
    case ColumnIndex(i) => if input.Ok? && i < |input.value| then {input.value[i].name} else {}
    case DateSubtractInterval(d, i) => Mentioned(d, input) + Mentioned(i, input)
    case DateAddInterval(d, i) => Mentioned(d, input) + Mentioned(i, input)
    case Cast(inner, _) => Mentioned(inner, input)
    case BinaryExpr(l, _, r) => Mentioned(l, input) + Mentioned(r, input)
    case Alias(inner, _) => Mentioned(inner, input)
    case _ => {}
  }

  function AllMentioned(es: seq<Expr>, input: Result<Schema>): set<string> {
    set e, n | e in es && n in Mentioned(e, input) :: n
  }

  function AggregatesMention(aggs: seq<Expr>, input: Result<Schema>): set<string> {
    set e, n | e in aggs && e.AggregateFunction? && n in AllMentioned(e.args, input) :: n
  }

  // A join that is asked for nothing asks both sides for all their columns.
  function JoinAsks(text: Texts, left: Plan, right: Plan, on: seq<(string, string)>, names: set<string>): set<string> {
    var l, r := SchemaOf(text, left), SchemaOf(text, right);
    names + JoinKeys(on) + if names == {} && l.Ok? && r.Ok? then Names(l.value) + Names(r.value) else {}
  }

  // The names asked for once the whole plan has been walked.
  function Gathered(text: Texts, p: Plan, names: set<string>): set<string> {
    match p
    case TableScan(_, _, _) => names
    case Projection(input, exprs) => Gathered(text, input, names + AllMentioned(exprs, SchemaOf(text, input)))
    case Filter(input, condition) => Gathered(text, input, names + Mentioned(condition, SchemaOf(text, input)))
    case Aggregate(input, group, aggs) =>
      var s := SchemaOf(text, input);
      Gathered(text, input, names + AllMentioned(group, s) + AggregatesMention(aggs, s))
    case Limit(input, _) => Gathered(text, input, names)
    case Join(left, right, _, on) =>
      Gathered(text, right, Gathered(text, left, JoinAsks(text, left, right, on, names)))
  }

  // Every expression can be collected from, and every join reached with nothing asked for
  // has a schema on both sides.
  predicate Pushable(text: Texts, p: Plan, names: set<string>) {
    match p
    case TableScan(_, _, _) => true
    case Projection(input, exprs) =>
      var s := SchemaOf(text, input);
      AllCollectable(exprs, s) && Pushable(text, input, names + AllMentioned(exprs, s))
    case Filter(input, condition) =>
      var s := SchemaOf(text, input);
      Collectable(condition, s) && Pushable(text, input, names + Mentioned(condition, s))
    case Aggregate(input, group, aggs) =>
      var s := SchemaOf(text, input);
      && AllCollectable(group, s) && AggregatesCollectable(aggs, s)
      && Pushable(text, input, names + AllMentioned(group, s) + AggregatesMention(aggs, s))
    case Limit(input, _) => Pushable(text, input, names)
    case Join(left, right, _, on) =>
      var asked := JoinAsks(text, left, right, on, names);
      && (names == {} ==> SchemaOf(text, left).Ok? && SchemaOf(text, right).Ok?)
      && Pushable(text, left, asked) && Pushable(text, right, Gathered(text, left, asked))
  }

  lemma Unions<T>(a: set<T>, b: set<T>, c: set<T>)
    ensures a + b + c == a + (b + c)
    ensures a + {} == a
  {
  }

  lemma {:induction false} CollectsIff(e: Expr, input: Result<Schema>, accum: set<string>)
    ensures ExtractColumns(e, input, accum).Ok? <==> Collectable(e, input)
    ensures Collectable(e, input) ==> ExtractColumns(e, input, accum) == Ok(accum + Mentioned(e, input))
  {
    match e
    case DateSubtractInterval(d, i) =>
      CollectsIff(d, input, accum);
      CollectsIff(i, input, accum + Mentioned(d, input));
      Unions(accum, Mentioned(d, input), Mentioned(i, input));
    case DateAddInterval(d, i) =>
      CollectsIff(d, input, accum);
      CollectsIff(i, input, accum + Mentioned(d, input));
      Unions(accum, Mentioned(d, input), Mentioned(i, input));
    case BinaryExpr(l, _, r) =>
      CollectsIff(l, input, accum);
      CollectsIff(r, input, accum + Mentioned(l, input));
      Unions(accum, Mentioned(l, input), Mentioned(r, input));
    case Cast(inner, _) => CollectsIff(inner, input, accum);
    case Alias(inner, _) => CollectsIff(inner, input, accum);
    case _ => Unions(accum, {}, {});
  }

  lemma {:induction false} CollectsListIff(es: seq<Expr>, input: Result<Schema>, accum: set<string>)
    ensures ExtractColumnsList(es, input, accum).Ok? <==> AllCollectable(es, input)
    ensures AllCollectable(es, input) ==> ExtractColumnsList(es, input, accum) == Ok(accum + AllMentioned(es, input))
  {
    if es != [] {
      CollectsIff(es[0], input, accum);
      CollectsListIff(es[1..], input, accum + Mentioned(es[0], input));
      assert es == [es[0]] + es[1..];
      assert AllMentioned(es, input) == Mentioned(es[0], input) + AllMentioned(es[1..], input);
      Unions(accum, Mentioned(es[0], input), AllMentioned(es[1..], input));
    } else {
      assert AllMentioned(es, input) == {};
      Unions(accum, {}, {});
    }
  }

  lemma {:induction false} CollectsArgumentsIff(aggs: seq<Expr>, input: Result<Schema>, accum: set<string>)
    ensures ExtractArguments(aggs, input, accum).Ok? <==> AggregatesCollectable(aggs, input)
    ensures AggregatesCollectable(aggs, input) ==>
              ExtractArguments(aggs, input, accum) == Ok(accum + AggregatesMention(aggs, input))
  {
    if aggs != [] {
      assert aggs == [aggs[0]] + aggs[1..];
      if aggs[0].AggregateFunction? {
        var first := AllMentioned(aggs[0].args, input);
        CollectsListIff(aggs[0].args, input, accum);
        CollectsArgumentsIff(aggs[1..], input, accum + first);
        assert AggregatesMention(aggs, input) == first + AggregatesMention(aggs[1..], input);
        Unions(accum, first, AggregatesMention(aggs[1..], input));
      }
    } else {
      assert AggregatesMention(aggs, input) == {};
      Unions(accum, {}, {});
    }
  }

  /** The rule succeeds on exactly these plans, and leaves exactly these names. */
  lemma {:induction false} PushSucceedsIff(text: Texts, p: Plan, names: set<string>)
    ensures Push(text, p, names).Ok? <==> Pushable(text, p, names)
    ensures Pushable(text, p, names) ==> Push(text, p, names).value.1 == Gathered(text, p, names)
  {
    match p
    case TableScan(_, source, _) => ScanSchemaAgrees(source.schema, names);
    case Projection(input, exprs) =>
      CollectsListIff(exprs, SchemaOf(text, input), names);
      PushSucceedsIff(text, input, names + AllMentioned(exprs, SchemaOf(text, input)));
    case Filter(input, condition) =>
      CollectsIff(condition, SchemaOf(text, input), names);
      PushSucceedsIff(text, input, names + Mentioned(condition, SchemaOf(text, input)));
    case Aggregate(input, group, aggs) =>
      var s := SchemaOf(text, input);
      CollectsListIff(group, s, names);
      CollectsArgumentsIff(aggs, s, names + AllMentioned(group, s));
      PushSucceedsIff(text, input, names + AllMentioned(group, s) + AggregatesMention(aggs, s));
    case Limit(input, _) => PushSucceedsIff(text, input, names);
    case Join(left, right, _, on) =>
      var asked := JoinAsks(text, left, right, on, names);
      JoinRequestIs(text, left, right, on, names);
      PushSucceedsIff(text, left, asked);
      PushSucceedsIff(text, right, Gathered(text, left, asked));
  }

  lemma JoinRequestIs(text: Texts, left: Plan, right: Plan, on: seq<(string, string)>, names: set<string>)
    ensures var request := JoinRequest(text, left, right, on, names);
            && (request.Ok? <==> (names == {} ==> SchemaOf(text, left).Ok? && SchemaOf(text, right).Ok?))
            && (request.Ok? ==> request.value == JoinAsks(text, left, right, on, names))
  {
    hide JoinKeys, Names;
    var l, r := SchemaOf(text, left), SchemaOf(text, right);
    if names == {} && l.Ok? && r.Ok? {
      assert Names(l.value) + Names(r.value) + JoinKeys(on) == names + JoinKeys(on) + (Names(l.value) + Names(r.value));
    }
  }

  /** A schema is not enough: a filter that negates its condition has one and is refused. */
  lemma NegationIsRefused(text: Texts, scan: Plan, condition: Expr)
    requires scan.TableScan? && Plain(scan) && NamedExpr(condition)
    ensures var p := Filter(scan, Not(condition));
            Plain(p) && SchemaOf(text, p).Ok? && Optimize(text, p) == Err(NotImplemented)
  {
  }
}
