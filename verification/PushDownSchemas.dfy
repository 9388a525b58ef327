/** What push-down does to names and schemas: which names it collects, that every
    requested name still resolves to the same field, and that running it again
    changes nothing. */
module PushDownSchemas {
  import opened Results
  import opened Scalars
  import opened LogicalPlan
  import opened PushDown

  // ---------------------------------------------------------------- well-formed plans

  // Columns are referred to by name.
  predicate NamedExpr(e: Expr) {
    match e
    case ColumnIndex(_) => false
    case DateSubtractInterval(d, i) => NamedExpr(d) && NamedExpr(i)
    case DateAddInterval(d, i) => NamedExpr(d) && NamedExpr(i)
    case Cast(inner, _) => NamedExpr(inner)
    case BinaryExpr(l, _, r) => NamedExpr(l) && NamedExpr(r)
    case Alias(inner, _) => NamedExpr(inner)
    case AggregateFunction(_, args, _) => forall a :: a in args ==> NamedExpr(a)
    case _ => true
  }

  predicate NamedExprs(es: seq<Expr>) {
    forall e :: e in es ==> NamedExpr(e)
  }

  // Every column is referred to by name and no scan carries a projection yet.
  predicate Plain(p: Plan) {
    match p
    case TableScan(_, _, projection) => projection == []
    case Projection(input, exprs) => NamedExprs(exprs) && Plain(input)
    case Filter(input, condition) => NamedExpr(condition) && Plain(input)
    case Aggregate(input, group, aggs) => NamedExprs(group) && NamedExprs(aggs) && Plain(input)
    case Limit(input, _) => Plain(input)
    case Join(left, right, _, _) => Plain(left) && Plain(right)
  }

  // ---------------------------------------------------------------- collected names

  function Wanted(e: Expr): set<string> {
    match e
    case Column(name) => {name}
    case DateSubtractInterval(d, i) => Wanted(d) + Wanted(i)
    case DateAddInterval(d, i) => Wanted(d) + Wanted(i)
    case Cast(inner, _) => Wanted(inner)
    case BinaryExpr(l, _, r) => Wanted(l) + Wanted(r)
    case Alias(inner, _) => Wanted(inner)
    case AggregateFunction(_, args, _) => set a, n | a in args && n in Wanted(a) :: n
    case _ => {}
  }

  /** Collecting from a named expression adds exactly the names it mentions, and does
      not consult the input's schema. */
  lemma {:induction false} ExtractAddsWanted(e: Expr, input: Result<Schema>, input': Result<Schema>, accum: set<string>)
    requires NamedExpr(e) && ExtractColumns(e, input, accum).Ok?
    ensures ExtractColumns(e, input, accum).value == accum + Wanted(e)
    ensures ExtractColumns(e, input', accum) == ExtractColumns(e, input, accum)
  {
    match e
    case BinaryExpr(l, _, r) =>
      ExtractAddsWanted(l, input, input', accum);
      ExtractAddsWanted(r, input, input', accum + Wanted(l));
    case DateSubtractInterval(d, i) =>
      ExtractAddsWanted(d, input, input', accum);
      ExtractAddsWanted(i, input, input', accum + Wanted(d));
    case DateAddInterval(d, i) =>
      ExtractAddsWanted(d, input, input', accum);
      ExtractAddsWanted(i, input, input', accum + Wanted(d));
    case Alias(inner, _) => ExtractAddsWanted(inner, input, input', accum);
    case Cast(inner, _) => ExtractAddsWanted(inner, input, input', accum);
    case _ =>
  }

  lemma {:induction false} ExtractListAddsWanted(
    es: seq<Expr>, input: Result<Schema>, input': Result<Schema>, accum: set<string>)
    requires NamedExprs(es) && ExtractColumnsList(es, input, accum).Ok?
    ensures accum <= ExtractColumnsList(es, input, accum).value
    ensures forall e :: e in es ==> Wanted(e) <= ExtractColumnsList(es, input, accum).value
    ensures ExtractColumnsList(es, input', accum) == ExtractColumnsList(es, input, accum)
  {
    if es != [] {
      ExtractAddsWanted(es[0], input, input', accum);
      ExtractListAddsWanted(es[1..], input, input', accum + Wanted(es[0]));
    }
  }

  lemma {:induction false} ExtractArgumentsAddsWanted(
    aggs: seq<Expr>, input: Result<Schema>, input': Result<Schema>, accum: set<string>)
    requires NamedExprs(aggs) && ExtractArguments(aggs, input, accum).Ok?
    ensures accum <= ExtractArguments(aggs, input, accum).value
    ensures forall e :: e in aggs ==> Wanted(e) <= ExtractArguments(aggs, input, accum).value
    ensures ExtractArguments(aggs, input', accum) == ExtractArguments(aggs, input, accum)
  {
    if aggs != [] {
      assert NamedExpr(aggs[0]);
      ExtractListAddsWanted(aggs[0].args, input, input', accum);
      ExtractArgumentsAddsWanted(aggs[1..], input, input',
                                 ExtractColumnsList(aggs[0].args, input, accum).value);
    }
  }

  /** The shared set only grows along the traversal. */
  lemma {:induction false} PushGrows(text: Texts, p: Plan, names: set<string>)
    requires Plain(p) && Push(text, p, names).Ok?
    ensures names <= Push(text, p, names).value.1
  {
    match p
    case TableScan(_, _, _) =>
    case Projection(input, exprs) =>
      ExtractListAddsWanted(exprs, SchemaOf(text, input), SchemaOf(text, input), names);
      PushGrows(text, input, ExtractColumnsList(exprs, SchemaOf(text, input), names).value);
    case Filter(input, condition) =>
      ExtractAddsWanted(condition, SchemaOf(text, input), SchemaOf(text, input), names);
      PushGrows(text, input, names + Wanted(condition));
    case Aggregate(input, group, aggs) =>
      var s := SchemaOf(text, input);
      ExtractListAddsWanted(group, s, s, names);
      var a := ExtractColumnsList(group, s, names).value;
      ExtractArgumentsAddsWanted(aggs, s, s, a);
      PushGrows(text, input, ExtractArguments(aggs, s, a).value);
    case Limit(input, _) => PushGrows(text, input, names);
    case Join(left, right, _, on) =>
      var a := JoinRequest(text, left, right, on, names).value;
      PushGrows(text, left, a);
      PushGrows(text, right, Push(text, left, a).value.1);
  }

  // ---------------------------------------------------------------- sorted lists

  predicate SortedNames(names: seq<string>) {
    forall i, j :: 0 <= i < j < |names| ==> StringLeq(names[i], names[j])
  }

  lemma {:induction false} InsertSorts(name: string, names: seq<string>)
    requires SortedNames(names)
    ensures SortedNames(Insert(name, names))
    ensures multiset(Insert(name, names)) == multiset{name} + multiset(names)
  {
    if names == [] {
    } else if StringLeq(name, names[0]) {
      forall j | 0 <= j < |names| ensures StringLeq(name, names[j]) {
        if j > 0 {
          StringLeqTransitive(name, names[0], names[j]);
        }
      }
    } else {
      InsertSorts(name, names[1..]);
      StringLeqTotal(name, names[0]);
      assert names == [names[0]] + names[1..];
      var rest := Insert(name, names[1..]);
      forall j | 0 <= j < |rest| ensures StringLeq(names[0], rest[j]) {
        assert rest[j] in multiset(rest);
        assert rest[j] == name || rest[j] in names[1..];
      }
    }
  }

  lemma {:induction false} SortPermutes(names: seq<string>)
    ensures SortedNames(Sort(names)) && multiset(Sort(names)) == multiset(names)
  {
    if names != [] {
      SortPermutes(names[1..]);
      InsertSorts(names[0], Sort(names[1..]));
      assert names == [names[0]] + names[1..];
    }
  }

  /** A scan's column list is the requested names of its source, in sorted order. */
  lemma SortSorts(names: seq<string>)
    ensures SortedNames(Sort(names))
    ensures multiset(Sort(names)) == multiset(names)
    ensures |Sort(names)| == |names|
    ensures forall n :: n in Sort(names) <==> n in names
  {
    SortPermutes(names);
    assert |multiset(Sort(names))| == |multiset(names)|;
    forall n ensures n in Sort(names) <==> n in names {
      assert n in Sort(names) <==> n in multiset(Sort(names));
    }
  }

  lemma {:induction false} ChosenNames(s: Schema, wanted: set<string>)
    ensures forall n :: n in Chosen(s, wanted) <==> n in wanted && n in Names(s)
    ensures |Chosen(s, wanted)| <= |s|
  {
    if s != [] {
      ChosenNames(s[1..], wanted);
      assert Names(s) == {s[0].name} + Names(s[1..]);
    }
  }

  // ---------------------------------------------------------------- field lookup

  lemma {:induction false} FindFieldNames(s: Schema, name: string)
    ensures FindField(s, name).Some? <==> name in Names(s)
    ensures FindField(s, name).Some? ==> FindField(s, name).value.name == name && FindField(s, name).value in s
  {
    if s != [] {
      FindFieldNames(s[1..], name);
      assert Names(s) == {s[0].name} + Names(s[1..]);
    }
  }

  lemma {:induction false} FindFieldAppend(a: Schema, b: Schema, name: string)
    ensures FindField(a + b, name) == if name in Names(a) then FindField(a, name) else FindField(b, name)
  {
    if a == [] {
      assert a + b == b;
    } else {
      assert (a + b)[1..] == a[1..] + b;
      FindFieldAppend(a[1..], b, name);
      assert Names(a) == {a[0].name} + Names(a[1..]);
    }
  }

  lemma {:induction false} FindFieldWithout(s: Schema, hidden: set<string>, name: string)
    ensures FindField(Without(s, hidden), name) == if name in hidden then None else FindField(s, name)
    ensures Names(Without(s, hidden)) == Names(s) - hidden
  {
    if s != [] {
      FindFieldWithout(s[1..], hidden, name);
      assert Names(s) == {s[0].name} + Names(s[1..]);
      if s[0].name !in hidden {
        assert Names(Without(s, hidden)) == {s[0].name} + Names(Without(s[1..], hidden));
      }
    }
  }

  lemma {:induction false} WithoutNothing(s: Schema)
    ensures Without(s, {}) == s
  {
    if s != [] {
      WithoutNothing(s[1..]);
    }
  }

  lemma OneLayout(l: Schema, r: Schema, joinType: JoinType, on: seq<(string, string)>)
    requires HasOneLayout(joinType, on)
    ensures JoinSchema(l, r, joinType, on) == Ok(l + Without(r, DuplicateKeys(on)))
  {
    WithoutNothing(l);
    WithoutNothing(r);
  }

  lemma {:induction false} FindFieldPosition(s: Schema, name: string)
    requires name in Names(s)
    ensures FindField(s, name) == Some(s[Position(s, name).value])
  {
    if s[0].name != name {
      assert Names(s) == {s[0].name} + Names(s[1..]);
      FindFieldPosition(s[1..], name);
    }
  }

  lemma {:induction false} ProjectSchemaFields(s: Schema, names: seq<string>, name: string)
    requires forall n :: n in names ==> n in Names(s)
    ensures ProjectSchema(s, names).Ok?
    ensures |ProjectSchema(s, names).value| == |names|
    ensures name in names <==> name in Names(ProjectSchema(s, names).value)
    ensures name in names ==> FindField(ProjectSchema(s, names).value, name) == FindField(s, name)
  {
    if names != [] {
      ProjectSchemaFields(s, names[1..], name);
      FindFieldPosition(s, names[0]);
      var rest := ProjectSchema(s, names[1..]).value;
      var whole := ProjectSchema(s, names).value;
      assert whole[1..] == rest;
      assert Names(whole) == {names[0]} + Names(rest);
    }
  }

  // ---------------------------------------------------------------- requested fields survive

  ghost predicate FieldsAgree(s: Schema, s': Schema, names: set<string>) {
    forall n :: n in names ==> FindField(s', n) == FindField(s, n)
  }

  lemma {:induction false} ToFieldAgrees(text: Texts, e: Expr, s: Result<Schema>, s': Result<Schema>,
                                         names: set<string>)
    requires NamedExpr(e) && Wanted(e) <= names
    requires s.Ok? ==> s'.Ok? && FieldsAgree(s.value, s'.value, names)
    requires ToField(text, e, s).Ok?
    ensures ToField(text, e, s') == ToField(text, e, s)
  {
    match e
    case Cast(inner, _) => ToFieldAgrees(text, inner, s, s', names);
    case BinaryExpr(l, op, _) =>
      if !op.IsComparison() && !op.IsLogic() {
        ToFieldAgrees(text, l, s, s', names);
      }
    case Alias(inner, _) => ToFieldAgrees(text, inner, s, s', names);
    case AggregateFunction(func, args, _) =>
      if args != [] && func != Count {
        ToFieldAgrees(text, args[0], s, s', names);
      }
    case _ =>
  }

  lemma {:induction false} ToFieldsAgree(text: Texts, es: seq<Expr>, s: Result<Schema>, s': Result<Schema>,
                                         names: set<string>)
    requires NamedExprs(es) && forall e :: e in es ==> Wanted(e) <= names
    requires s.Ok? ==> s'.Ok? && FieldsAgree(s.value, s'.value, names)
    requires ToFields(text, es, s).Ok?
    ensures ToFields(text, es, s') == ToFields(text, es, s)
  {
    if es != [] {
      ToFieldAgrees(text, es[0], s, s', names);
      ToFieldsAgree(text, es[1..], s, s', names);
    }
  }

  lemma {:induction false} ScanSchemaAgrees(s: Schema, names: set<string>)
    ensures var s' := DeriveSchema(s, Sort(Chosen(s, names)));
            && s'.Ok? && FieldsAgree(s, s'.value, names)
            && Names(s'.value) <= Names(s)
            && (Names(s) <= names ==> Names(s'.value) == Names(s))
  {
    var list := Sort(Chosen(s, names));
    ChosenNames(s, names);
    SortSorts(Chosen(s, names));
    if list != [] {
      var s' := ProjectSchema(s, list);
      ProjectSchemaFields(s, list, list[0]);
      forall n ensures n in Names(s'.value) <==> n in list {
        ProjectSchemaFields(s, list, n);
      }
      forall n | n in names ensures FindField(s'.value, n) == FindField(s, n) {
        ProjectSchemaFields(s, list, n);
        FindFieldNames(s, n);
        FindFieldNames(s'.value, n);
      }
    }
  }

  lemma {:induction false} JoinSchemaAgrees(
    l: Schema, l': Schema, r: Schema, r': Schema, hidden: set<string>, names: set<string>)
    requires FieldsAgree(l, l', names) && FieldsAgree(r, r', names)
    ensures FieldsAgree(l + Without(r, hidden), l' + Without(r', hidden), names)
    ensures FieldsAgree(Without(l, hidden) + r, Without(l', hidden) + r', names)
  {
    forall n | n in names
      ensures FindField(l' + Without(r', hidden), n) == FindField(l + Without(r, hidden), n)
      ensures FindField(Without(l', hidden) + r', n) == FindField(Without(l, hidden) + r, n)
    {
      FindFieldNames(l, n);
      FindFieldNames(l', n);
      FindFieldAppend(l, Without(r, hidden), n);
      FindFieldAppend(l', Without(r', hidden), n);
      FindFieldAppend(Without(l, hidden), r, n);
      FindFieldAppend(Without(l', hidden), r', n);
      FindFieldWithout(r, hidden, n);
      FindFieldWithout(r', hidden, n);
      FindFieldWithout(l, hidden, n);
      FindFieldWithout(l', hidden, n);
    }
  }

  /** Every requested name resolves in the rewritten plan to the very field it resolved
      to before, or to none in both; through joins of all three executable kinds. */
  lemma {:induction false} SchemaAgrees(text: Texts, p: Plan, names: set<string>)
    requires Plain(p) && Push(text, p, names).Ok? && SchemaOf(text, p).Ok?
    ensures SchemaOf(text, Push(text, p, names).value.0).Ok?
    ensures FieldsAgree(SchemaOf(text, p).value, SchemaOf(text, Push(text, p, names).value.0).value, names)
    decreases p, 1
  {
    match p
    case TableScan(_, source, _) => ScanSchemaAgrees(source.schema, names);
    case Projection(_, _) => OutputSchemaKept(text, p, names);
    case Filter(input, condition) =>
      ExtractAddsWanted(condition, SchemaOf(text, input), SchemaOf(text, input), names);
      SchemaAgrees(text, input, names + Wanted(condition));
    case Aggregate(_, _, _) => OutputSchemaKept(text, p, names);
    case Limit(input, _) => SchemaAgrees(text, input, names);
    case Join(left, right, joinType, on) =>
      var a := JoinRequest(text, left, right, on, names).value;
      var b := Push(text, left, a).value.1;
      PushGrows(text, left, a);
      SchemaAgrees(text, left, a);
      SchemaAgrees(text, right, b);
      JoinSchemaAgrees(SchemaOf(text, left).value, SchemaOf(text, Push(text, left, a).value.0).value,
                       SchemaOf(text, right).value, SchemaOf(text, Push(text, right, b).value.0).value,
                       DuplicateKeys(on), a);
  }

  /** The output schema of a projection or an aggregate does not change at all. */
  lemma {:induction false} OutputSchemaKept(text: Texts, p: Plan, names: set<string>)
    requires p.Projection? || p.Aggregate?
    requires Plain(p) && Push(text, p, names).Ok? && SchemaOf(text, p).Ok?
    ensures SchemaOf(text, Push(text, p, names).value.0) == SchemaOf(text, p)
    decreases p, 0
  {
    var s := SchemaOf(text, p.input);
    match p
    case Projection(input, exprs) =>
      ExtractListAddsWanted(exprs, s, s, names);
      var a := ExtractColumnsList(exprs, s, names).value;
      if s.Ok? {
        SchemaAgrees(text, input, a);
      }
      ToFieldsAgree(text, exprs, s, SchemaOf(text, Push(text, input, a).value.0), a);
    case Aggregate(input, group, aggs) =>
      ExtractListAddsWanted(group, s, s, names);
      var a := ExtractColumnsList(group, s, names).value;
      ExtractArgumentsAddsWanted(aggs, s, s, a);
      var b := ExtractArguments(aggs, s, a).value;
      if s.Ok? {
        SchemaAgrees(text, input, b);
      }
      var s' := SchemaOf(text, Push(text, input, b).value.0);
      ToFieldsAgree(text, group, s, s', b);
      ToFieldsAgree(text, aggs, s, s', b);
  }

  // ---------------------------------------------------------------- a second pass

  /** Requesting at least every name of a plan keeps its set of names. */
  lemma {:induction false} NamesKept(text: Texts, p: Plan, names: set<string>)
    requires Plain(p) && Push(text, p, names).Ok? && SchemaOf(text, p).Ok?
    requires Names(SchemaOf(text, p).value) <= names
    ensures SchemaOf(text, Push(text, p, names).value.0).Ok?
    ensures Names(SchemaOf(text, Push(text, p, names).value.0).value) == Names(SchemaOf(text, p).value)
  {
    SchemaAgrees(text, p, names);
    match p
    case TableScan(_, source, _) => ScanSchemaAgrees(source.schema, names);
    case Projection(_, _) => OutputSchemaKept(text, p, names);
    case Filter(input, condition) =>
      ExtractAddsWanted(condition, SchemaOf(text, input), SchemaOf(text, input), names);
      NamesKept(text, input, names + Wanted(condition));
    case Aggregate(_, _, _) => OutputSchemaKept(text, p, names);
    case Limit(input, _) => NamesKept(text, input, names);
    case Join(left, right, joinType, on) =>
      var a := JoinRequest(text, left, right, on, names).value;
      var b := Push(text, left, a).value.1;
      var l, r := SchemaOf(text, left).value, SchemaOf(text, right).value;
      var l', r' := SchemaOf(text, Push(text, left, a).value.0), SchemaOf(text, Push(text, right, b).value.0);
      JoinNames(l, r, DuplicateKeys(on));
      PushGrows(text, left, a);
      NamesKept(text, left, a);
      NamesKept(text, right, b);
      JoinNames(l'.value, r'.value, DuplicateKeys(on));
  }

  lemma JoinNames(l: Schema, r: Schema, hidden: set<string>)
    ensures Names(l + Without(r, hidden)) == Names(l) + (Names(r) - hidden)
    ensures Names(Without(l, hidden) + r) == (Names(l) - hidden) + Names(r)
  {
    FindFieldWithout(r, hidden, "");
    FindFieldWithout(l, hidden, "");
    assert forall a: Schema, b: Schema :: Names(a + b) == Names(a) + Names(b);
  }

  /** Push-down is idempotent: applied to its own result with the same request it
      returns that result and the same final name set, also where a join that was
      asked for nothing requests every column of both sides. */
  lemma {:induction false} PushIdempotent(text: Texts, p: Plan, names: set<string>)
    requires Plain(p) && Push(text, p, names).Ok?
    ensures Push(text, Push(text, p, names).value.0, names) == Push(text, p, names)
  {
    match p
    case TableScan(_, _, _) =>
    case Projection(input, exprs) =>
      var s := SchemaOf(text, input);
      var a := ExtractColumnsList(exprs, s, names).value;
      ExtractListAddsWanted(exprs, s, SchemaOf(text, Push(text, input, a).value.0), names);
      PushIdempotent(text, input, a);
    case Filter(input, condition) =>
      var s := SchemaOf(text, input);
      var a := ExtractColumns(condition, s, names).value;
      ExtractAddsWanted(condition, s, SchemaOf(text, Push(text, input, a).value.0), names);
      PushIdempotent(text, input, a);
    case Aggregate(input, group, aggs) =>
      var s := SchemaOf(text, input);
      var a := ExtractColumnsList(group, s, names).value;
      var b := ExtractArguments(aggs, s, a).value;
      var s' := SchemaOf(text, Push(text, input, b).value.0);
      ExtractListAddsWanted(group, s, s', names);
      ExtractArgumentsAddsWanted(aggs, s, s', a);
      PushIdempotent(text, input, b);
    case Limit(input, _) => PushIdempotent(text, input, names);
    case Join(left, right, _, on) =>
      var a := JoinRequest(text, left, right, on, names).value;
      var l := Push(text, left, a).value;
      var r := Push(text, right, l.1).value;
      PushGrows(text, left, a);
      if names == {} {
        NamesKept(text, left, a);
        NamesKept(text, right, l.1);
      }
      assert JoinRequest(text, l.0, r.0, on, names) == JoinRequest(text, left, right, on, names);
      PushIdempotent(text, left, a);
      PushIdempotent(text, right, l.1);
  }

  /** Optimizing twice is optimizing once. */
  lemma OptimizeIdempotent(text: Texts, p: Plan)
    requires Plain(p) && Optimize(text, p).Ok?
    ensures Optimize(text, Optimize(text, p).value) == Optimize(text, p)
  {
    PushIdempotent(text, p, {});
  }
}
