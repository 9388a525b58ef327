/** The projection push-down rule: one mutable set of column names is threaded down
    the plan, and each scan is cut to the requested columns in sorted order. */
module PushDown {
  import opened Results
  import opened Scalars
  import opened LogicalPlan

  // ---------------------------------------------------------------- sorted name lists

  function Insert(name: string, sorted: seq<string>): seq<string> {
    if sorted == [] || StringLeq(name, sorted[0]) then [name] + sorted
    else [sorted[0]] + Insert(name, sorted[1..])
  }

  function Sort(names: seq<string>): seq<string> {
    if names == [] then [] else Insert(names[0], Sort(names[1..]))
  }

  // The source columns that were asked for, in source order.
  function Chosen(s: Schema, wanted: set<string>): seq<string> {
    if s == [] then []
    else (if s[0].name in wanted then [s[0].name] else []) + Chosen(s[1..], wanted)
  }

  // ---------------------------------------------------------------- the rule as a function

  function ExtractColumns(e: Expr, input: Result<Schema>, accum: set<string>): Result<set<string>> {
    match e
    case ColumnIndex(i) =>
      var s :- input;
      if i < |s| then Ok(accum + {s[i].name}) else Err(Panic)
    case Column(name) => Ok(accum + {name})
    case BinaryExpr(l, _, r) =>
      var a :- ExtractColumns(l, input, accum);
      ExtractColumns(r, input, a)
    case Alias(inner, _) => ExtractColumns(inner, input, accum)
    case Cast(inner, _) => ExtractColumns(inner, input, accum)
    case Literal(_) => Ok(accum)
    case DateSubtractInterval(d, i) =>
      var a :- ExtractColumns(d, input, accum);
      ExtractColumns(i, input, a)
    case DateAddInterval(d, i) =>
      var a :- ExtractColumns(d, input, accum);
      ExtractColumns(i, input, a)
    case _ => Err(NotImplemented)
  }

  function ExtractColumnsList(es: seq<Expr>, input: Result<Schema>, accum: set<string>): Result<set<string>> {
    if es == [] then Ok(accum)
    else
      var a :- ExtractColumns(es[0], input, accum);
      ExtractColumnsList(es[1..], input, a)
  }

  function ExtractArguments(aggs: seq<Expr>, input: Result<Schema>, accum: set<string>): Result<set<string>> {
    if aggs == [] then Ok(accum)
    else if !aggs[0].AggregateFunction? then Err(Internal)
    else
      var a :- ExtractColumnsList(aggs[0].args, input, accum);
      ExtractArguments(aggs[1..], input, a)
  }

  function JoinKeys(on: seq<(string, string)>): set<string> {
    (set k | k in on :: k.0) + (set k | k in on :: k.1)
  }

  lemma NoKeys()
    ensures JoinKeys([]) == {}
  {
  }

  lemma OneMoreKey(on: seq<(string, string)>, i: nat)
    requires i < |on|
    ensures JoinKeys(on[..i + 1]) == JoinKeys(on[..i]) + {on[i].0} + {on[i].1}
  {
    assert on[..i + 1] == on[..i] + [on[i]];
  }

  // What a join asks of its inputs: everything when nothing was requested yet, and
  // always its keys.
  function JoinRequest(text: Texts, left: Plan, right: Plan, on: seq<(string, string)>, names: set<string>)
    : Result<set<string>>
  {
    var keys := JoinKeys(on);
    if names == {} then
      var l :- SchemaOf(text, left);
      var r :- SchemaOf(text, right);
      Ok(Names(l) + Names(r) + keys)
    else Ok(names + keys)
  }

  // The rewritten plan and the name set as the traversal leaves it.
  function Push(text: Texts, p: Plan, names: set<string>): Result<(Plan, set<string>)> {
    match p
    case Projection(input, exprs) =>
      var a :- ExtractColumnsList(exprs, SchemaOf(text, input), names);
      var r :- Push(text, input, a);
      Ok((Projection(r.0, exprs), r.1))
    case Filter(input, condition) =>
      var a :- ExtractColumns(condition, SchemaOf(text, input), names);
      var r :- Push(text, input, a);
      Ok((Filter(r.0, condition), r.1))
    case Aggregate(input, group, aggs) =>
      var a :- ExtractColumnsList(group, SchemaOf(text, input), names);
      var b :- ExtractArguments(aggs, SchemaOf(text, input), a);
      var r :- Push(text, input, b);
      Ok((Aggregate(r.0, group, aggs), r.1))
    case Limit(input, n) =>
      var r :- Push(text, input, names);
      Ok((Limit(r.0, n), r.1))
    case Join(left, right, joinType, on) =>
      var a :- JoinRequest(text, left, right, on, names);
      var l :- Push(text, left, a);
      var r :- Push(text, right, l.1);
      Ok((Join(l.0, r.0, joinType, on), r.1))
    case TableScan(path, source, _) =>
      var projection := Sort(Chosen(source.schema, names));
      var _ :- DeriveSchema(source.schema, projection);
      Ok((TableScan(path, source, projection), names))
  }

  function Optimize(text: Texts, p: Plan): Result<Plan> {
    var r :- Push(text, p, {});
    Ok(r.0)
  }

  // ---------------------------------------------------------------- the rule as it runs

  // The caller's `HashSet<String>`, updated in place while the plan is walked.
  class NameSet {
    var names: set<string>

    constructor ()
      ensures names == {}
    {
      names := {};
    }

    method Add(name: string)
      modifies this
      ensures names == old(names) + {name}
    {
      names := names + {name};
    }
  }

  method CollectColumns(text: Texts, e: Expr, input: Plan, accum: NameSet) returns (r: Result<()>)
    modifies accum
    ensures var spec := ExtractColumns(e, SchemaOf(text, input), old(accum.names));
            r.Ok? == spec.Ok? && (r.Ok? ==> accum.names == spec.value)
    decreases e
  {
    match e {
      case ColumnIndex(i) =>
        var s :- SchemaOf(text, input);
        if i >= |s| {
          return Err(Panic);
        }
        accum.Add(s[i].name);
      case Column(name) =>
        accum.Add(name);
      case BinaryExpr(l, _, right) =>
        var _ :- CollectColumns(text, l, input, accum);
        var _ :- CollectColumns(text, right, input, accum);
      case Alias(inner, _) =>
        var _ :- CollectColumns(text, inner, input, accum);
      case Cast(inner, _) =>
        var _ :- CollectColumns(text, inner, input, accum);
      case Literal(_) =>
      case DateSubtractInterval(d, i) =>
        var _ :- CollectColumns(text, d, input, accum);
        var _ :- CollectColumns(text, i, input, accum);
      case DateAddInterval(d, i) =>
        var _ :- CollectColumns(text, d, input, accum);
        var _ :- CollectColumns(text, i, input, accum);
      case _ =>
        return Err(NotImplemented);
    }
    return Ok(());
  }

  method CollectColumnsList(text: Texts, es: seq<Expr>, input: Plan, accum: NameSet) returns (r: Result<()>)
    modifies accum
    ensures var spec := ExtractColumnsList(es, SchemaOf(text, input), old(accum.names));
            r.Ok? == spec.Ok? && (r.Ok? ==> accum.names == spec.value)
  {
    ghost var s := SchemaOf(text, input);
    for i := 0 to |es|
      invariant ExtractColumnsList(es, s, old(accum.names)) == ExtractColumnsList(es[i..], s, accum.names)
    {
      assert es[i..][1..] == es[i + 1..];
      var _ :- CollectColumns(text, es[i], input, accum);
    }
    return Ok(());
  }

  method CollectArguments(text: Texts, aggs: seq<Expr>, input: Plan, accum: NameSet) returns (r: Result<()>)
    modifies accum
    ensures var spec := ExtractArguments(aggs, SchemaOf(text, input), old(accum.names));
            r.Ok? == spec.Ok? && (r.Ok? ==> accum.names == spec.value)
  {
    ghost var s := SchemaOf(text, input);
    for i := 0 to |aggs|
      invariant ExtractArguments(aggs, s, old(accum.names)) == ExtractArguments(aggs[i..], s, accum.names)
    {
      assert aggs[i..][1..] == aggs[i + 1..];
      if !aggs[i].AggregateFunction? {
        return Err(Internal);
      }
      var _ :- CollectColumnsList(text, aggs[i].args, input, accum);
    }
    return Ok(());
  }

  method RequestForJoin(text: Texts, left: Plan, right: Plan, on: seq<(string, string)>, accum: NameSet)
    returns (r: Result<()>)
    modifies accum
    ensures var spec := JoinRequest(text, left, right, on, old(accum.names));
            r.Ok? == spec.Ok? && (r.Ok? ==> accum.names == spec.value)
  {
    if accum.names == {} {
      var l :- SchemaOf(text, left);
      accum.names := accum.names + Names(l);
      var rs :- SchemaOf(text, right);
      accum.names := accum.names + Names(rs);
      assert accum.names == Names(l) + Names(rs);
    }
    hide JoinKeys;
    ghost var asked := accum.names;
    NoKeys();
    assert on[..0] == [];
    for i := 0 to |on|
      invariant accum.names == asked + JoinKeys(on[..i])
    {
      OneMoreKey(on, i);
      accum.Add(on[i].0);
      accum.Add(on[i].1);
    }
    assert on[..|on|] == on;
    return Ok(());
  }

  method RequestedColumns(s: Schema, columnNames: NameSet) returns (pushdown: seq<string>)
    ensures pushdown == Sort(Chosen(s, columnNames.names))
  {
    pushdown := [];
    for i := 0 to |s|
      invariant Chosen(s, columnNames.names) == pushdown + Chosen(s[i..], columnNames.names)
    {
      assert s[i..][1..] == s[i + 1..];
      if s[i].name in columnNames.names {
        pushdown := pushdown + [s[i].name];
      }
    }
    assert pushdown == pushdown + Chosen(s[|s|..], columnNames.names);
    pushdown := Sort(pushdown);
  }

  /** The traversal over one shared set computes `Push`, set included. */
  method PushDown(text: Texts, p: Plan, columnNames: NameSet) returns (r: Result<Plan>)
    modifies columnNames
    ensures var spec := Push(text, p, old(columnNames.names));
            r.Ok? == spec.Ok? && (r.Ok? ==> r.value == spec.value.0 && columnNames.names == spec.value.1)
    decreases p
  {
    match p {
      case Projection(input, exprs) =>
        var _ :- CollectColumnsList(text, exprs, input, columnNames);
        var q :- PushDown(text, input, columnNames);
        return Ok(Projection(q, exprs));
      case Filter(input, condition) =>
        var _ :- CollectColumns(text, condition, input, columnNames);
        var q :- PushDown(text, input, columnNames);
        return Ok(Filter(q, condition));
      case Aggregate(input, group, aggs) =>
        var _ :- CollectColumnsList(text, group, input, columnNames);
        var _ :- CollectArguments(text, aggs, input, columnNames);
        var q :- PushDown(text, input, columnNames);
        return Ok(Aggregate(q, group, aggs));
      case Limit(input, n) =>
        var q :- PushDown(text, input, columnNames);
        return Ok(Limit(q, n));
      case Join(left, right, joinType, on) =>
        var _ :- RequestForJoin(text, left, right, on, columnNames);
        var l :- PushDown(text, left, columnNames);
        var q :- PushDown(text, right, columnNames);
        return Ok(Join(l, q, joinType, on));
      case TableScan(path, source, _) =>
        var pushdown := RequestedColumns(source.schema, columnNames);
        var _ :- DeriveSchema(source.schema, pushdown);
        return Ok(TableScan(path, source, pushdown));
    }
  }
}
