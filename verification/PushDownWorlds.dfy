/** Results about all databases at once. A misread column may go unnoticed on the rows at
    hand; one world in which every test passes and every column can be told from the
    others shows it. */
module PushDownWorlds {
  import Sequences
  import opened Results
  import opened Scalars
  import opened Operators
  import opened LogicalPlan
  import opened PushDown
  import opened PushDownSchemas
  import opened PushDownMeaning
  import opened PushDownExact
  import opened PushDownPositions

  // The two plans have the same meaning on every database on which the first has one.
  ghost predicate AlwaysTheSame(text: Texts, p: Plan, q: Plan) {
    forall w: World :: WellTyped(w) && w.text == text && Denote(w, p).Some? ==> Denote(w, q) == Denote(w, p)
  }

  // Filters test something that can be evaluated, and no limit is zero.
  predicate Passable(p: Plan, t: Schema) {
    match p
    case TableScan(_, _, _) => true
    case Filter(input, condition) => condition.BinaryExpr? && Bound(condition, t) && Passable(input, t)
    case Limit(input, n) => n != 0 && Passable(input, t)
    case _ => false
  }

  // ---------------------------------------------------------------- the telltale world

  ghost predicate FillsRows(rowOf: Schema -> Row) {
    forall s :: |rowOf(s)| == |s|
  }

  // A world of one given row per table, in which every test passes and an aggregate is the
  // first value of its group.
  function Telltale(text: Texts, rowOf: Schema -> Row): World {
    World(text, (t: TableSource) => [rowOf(t.schema)], (_, _, _) => Some(Boolean(true)), (v, _) => Some(v),
          (d, _, _) => Some(d), (_, values) => Some(if values == [] then Null else values[0]))
  }

  lemma TelltaleIsWellTyped(text: Texts, rowOf: Schema -> Row)
    requires FillsRows(rowOf)
    ensures WellTyped(Telltale(text, rowOf))
  {
  }

  lemma {:induction false} TelltaleEval(text: Texts, rowOf: Schema -> Row, e: Expr, t: Schema, row: Row)
    requires Bound(e, t) && |row| == |t|
    ensures Eval(Telltale(text, rowOf), e, t, row).Some?
  {
    match e
    case Column(name) => CellPosition(t, row, name);
    case DateSubtractInterval(d, i) => TelltaleEval(text, rowOf, d, t, row); TelltaleEval(text, rowOf, i, t, row);
    case DateAddInterval(d, i) => TelltaleEval(text, rowOf, d, t, row); TelltaleEval(text, rowOf, i, t, row);
    case Cast(inner, _) => TelltaleEval(text, rowOf, inner, t, row);
    case BinaryExpr(l, _, r) => TelltaleEval(text, rowOf, l, t, row); TelltaleEval(text, rowOf, r, t, row);
    case Alias(inner, _) => TelltaleEval(text, rowOf, inner, t, row);
    case _ =>
  }

  lemma OneEvalRow(w: World, es: seq<Expr>, t: Schema, row: Row)
    ensures EvalRows(w, es, Relation(t, [row])) ==
            match EvalList(w, es, t, row) case Some(v) => Some([v]) case None => None
  {
    var r := Relation(t, [row]);
    assert r.rows[1..] == [];
    assert EvalRows(w, es, r.(rows := r.rows[1..])) == Some([]);
    var v := EvalList(w, es, t, row);
    if v.Some? {
      assert [v.value] + [] == [v.value];
    }
  }

  lemma TelltaleFilter(text: Texts, rowOf: Schema -> Row, condition: Expr, t: Schema, row: Row)
    requires condition.BinaryExpr? && Bound(condition, t) && |row| == |t|
    ensures EvalRows(Telltale(text, rowOf), [condition], Relation(t, [row])) == Some([[Boolean(true)]])
    ensures Selected([row], [[Boolean(true)]]) == [row]
  {
    var w := Telltale(text, rowOf);
    TelltaleEval(text, rowOf, condition.left, t, row);
    TelltaleEval(text, rowOf, condition.right, t, row);
    assert Eval(w, condition, t, row) == Some(Boolean(true));
    assert [condition][1..] == [];
    assert EvalList(w, [condition][1..], t, row) == Some([]);
    assert [Boolean(true)] + [] == [Boolean(true)];
    assert EvalList(w, [condition], t, row) == Some([Boolean(true)]);
    OneEvalRow(w, [condition], t, row);
    assert [row][1..] == [];
    assert Selected([row][1..], [[Boolean(true)]][1..]) == [];
  }

  // The scan under filters and limits.
  predicate ChainOver(p: Plan) {
    match p
    case TableScan(_, _, _) => true
    case Filter(input, _) => ChainOver(input)
    case Limit(input, _) => ChainOver(input)
    case _ => false
  }

  // The one row that comes out of the scan.
  function ScannedRow(p: Plan, rowOf: Schema -> Row): Row
    requires ChainOver(p)
  {
    if !p.TableScan? then ScannedRow(p.input, rowOf)
    else if p.projection == [] then rowOf(p.source.schema)
    else ProjectRow(p.source.schema, rowOf(p.source.schema), p.projection)
  }

  // In that world it is the one row that comes out of the filters and limits.
  lemma {:induction false} TelltaleChain(text: Texts, rowOf: Schema -> Row, p: Plan, t: Schema)
    requires FillsRows(rowOf) && ChainOver(p) && SchemaOf(text, p) == Ok(t) && Passable(p, t)
    ensures Denote(Telltale(text, rowOf), p) == Some(Relation(t, [ScannedRow(p, rowOf)]))
    ensures |ScannedRow(p, rowOf)| == |t|
  {
    match p
    case TableScan(_, source, projection) =>
      var row := rowOf(source.schema);
      if projection != [] {
        ProjectSchemaResolves(source.schema, projection);
        ProjectSchemaFields(source.schema, projection, "");
        CellProjected(source.schema, row, projection, "");
        assert ScanRows(source.schema, [row], projection) == [ProjectRow(source.schema, row, projection)];
      }
    case Filter(input, condition) =>
      TelltaleChain(text, rowOf, input, t);
      TelltaleFilter(text, rowOf, condition, t, ScannedRow(p, rowOf));
    case Limit(input, n) =>
      TelltaleChain(text, rowOf, input, t);
  }

  // ---------------------------------------------------------------- the rewritten chain

  lemma {:induction false} PassableKept(text: Texts, p: Plan, names: set<string>, t: Schema)
    requires Chain(p) && Plain(p) && Push(text, p, names).Ok? && Passable(p, Source(p).schema)
    requires FieldsAgree(Source(p).schema, t, Push(text, p, names).value.1)
    ensures ChainOver(Push(text, p, names).value.0) && Passable(Push(text, p, names).value.0, t)
  {
    match p
    case TableScan(_, _, _) =>
    case Filter(input, condition) =>
      ExtractAddsWanted(condition, SchemaOf(text, input), SchemaOf(text, input), names);
      var a := names + Wanted(condition);
      PassableKept(text, input, a, t);
      PushGrows(text, input, a);
      BoundAgrees(condition, Source(p).schema, t, Push(text, input, a).value.1);
    case Limit(input, _) => PassableKept(text, input, names, t);
  }

  // The rewritten chain scans the requested columns.
  lemma {:induction false} PushedScan(text: Texts, p: Plan, names: set<string>, rowOf: Schema -> Row)
    requires Chain(p) && Push(text, p, names).Ok? && ChainOver(Push(text, p, names).value.0)
    ensures var s, list := Source(p).schema, ScanList(text, p, names);
            ScannedRow(Push(text, p, names).value.0, rowOf)
            == if list == [] then rowOf(s) else ProjectRow(s, rowOf(s), list)
  {
    match p
    case TableScan(_, _, _) =>
    case Filter(input, condition) =>
      PushedScan(text, input, ExtractColumns(condition, SchemaOf(text, input), names).value, rowOf);
    case Limit(input, _) => PushedScan(text, input, names, rowOf);
  }

  lemma {:induction false} BareScan(p: Plan, rowOf: Schema -> Row)
    requires Chain(p)
    ensures ChainOver(p) && ScannedRow(p, rowOf) == rowOf(Source(p).schema)
  {
    if !p.TableScan? {
      BareScan(p.input, rowOf);
    }
  }

  // What the telltale world shows of a chain and of what the rule makes of it.
  lemma TelltalePushed(text: Texts, rowOf: Schema -> Row, p: Plan, names: set<string>)
    requires FillsRows(rowOf) && Chain(p) && Plain(p) && Push(text, p, names).Ok? && Passable(p, Source(p).schema)
    ensures var s, list, q := Source(p).schema, ScanList(text, p, names), Push(text, p, names).value.0;
            && ChainOver(p) && ChainOver(q) && SchemaOf(text, p) == Ok(s)
            && Denote(Telltale(text, rowOf), p) == Some(Relation(s, [rowOf(s)]))
            && DeriveSchema(s, list).Ok? && SchemaOf(text, q) == DeriveSchema(s, list)
            && Passable(q, DeriveSchema(s, list).value)
            && var row := if list == [] then rowOf(s) else ProjectRow(s, rowOf(s), list);
            && |row| == |DeriveSchema(s, list).value|
            && Denote(Telltale(text, rowOf), q) == Some(Relation(DeriveSchema(s, list).value, [row]))
  {
    hide Denote, Passable, ProjectSchema, ProjectRow;
    var s, list := Source(p).schema, ScanList(text, p, names);
    ChainPushed(text, p, names);
    BareScan(p, rowOf);
    TelltaleChain(text, rowOf, p, s);
    ScanSchemaAgrees(s, Push(text, p, names).value.1);
    PassableKept(text, p, names, DeriveSchema(s, list).value);
    PushedScan(text, p, names, rowOf);
    TelltaleChain(text, rowOf, Push(text, p, names).value.0, DeriveSchema(s, list).value);
  }

  // ---------------------------------------------------------------- columns of one name

  function Tally(n: nat): (s: string)
    ensures |s| == n
  {
    if n == 0 then "" else Tally(n - 1) + "|"
  }

  // Every column's cell is its position, in strokes.
  function TallyRow(s: Schema): (row: Row)
    ensures |row| == |s| && forall i :: 0 <= i < |s| ==> row[i] == Utf8(Tally(i))
  {
    if s == [] then [] else TallyRow(s[..|s| - 1]) + [Utf8(Tally(|s| - 1))]
  }

  lemma {:induction false} ProjectedCell(s: Schema, row: Row, names: seq<string>, i: nat)
    requires |row| == |s| && i < |names| && forall n :: n in names ==> n in Names(s)
    ensures |ProjectRow(s, row, names)| == |names|
    ensures ProjectRow(s, row, names)[i] == row[Position(s, names[i]).value]
  {
    CellProjected(s, row, names, "");
    if i > 0 {
      ProjectedCell(s, row, names[1..], i - 1);
    }
  }

  lemma DistinctFields(s: Schema)
    requires DistinctNames(s)
    ensures FieldsByName(s, {})
  {
    forall f | f in s ensures FindField(s, f.name) == Some(f) {
      var i :| 0 <= i < |s| && s[i] == f;
      PositionDistinct(s, i);
      FindFieldPosition(s, f.name);
    }
  }

  lemma {:induction false} NameAt(s: Schema, i: nat)
    requires i < |s|
    ensures |NameList(s)| == |s| && NameList(s)[i] == s[i].name
  {
    NameListNames(s);
    if i > 0 {
      NameAt(s[1..], i - 1);
    }
  }

  // Projecting by name gives every cell back only where no name is repeated.
  lemma TallyTells(s: Schema)
    requires ProjectRow(s, TallyRow(s), NameList(s)) == TallyRow(s)
    ensures DistinctNames(s)
  {
    NameListNames(s);
    forall i | 0 <= i < |s| ensures Position(s, s[i].name) == Some(i) {
      NameAt(s, i);
      ProjectedCell(s, TallyRow(s), NameList(s), i);
      assert Tally(Position(s, s[i].name).value) == Tally(i);
    }
  }

  lemma {:induction false} ChainUntouched(text: Texts, p: Plan, names: set<string>)
    requires Chain(p) && Push(text, p, names).Ok? && ScanList(text, p, names) == []
    ensures Push(text, p, names).value.0 == p
  {
    match p
    case TableScan(_, _, _) =>
    case Filter(input, condition) =>
      ChainUntouched(text, input, ExtractColumns(condition, SchemaOf(text, input), names).value);
    case Limit(input, _) => ChainUntouched(text, input, names);
  }

  lemma {:induction false} ChainKeeps(text: Texts, p: Plan, names: set<string>)
    requires Chain(p) && Push(text, p, names).Ok? && DistinctNames(Source(p).schema)
    requires ScanList(text, p, names) == NameList(Source(p).schema)
    ensures KeepsColumns(text, p, names, {}) && DistinctSources(p)
  {
    match p
    case TableScan(_, source, _) => DistinctFields(source.schema);
    case Filter(input, condition) =>
      ChainKeeps(text, input, ExtractColumns(condition, SchemaOf(text, input), names).value);
    case Limit(input, _) => ChainKeeps(text, input, names);
  }

  /** Filters and limits over one table at the root, columns of one name or not: the
      optimized plan gives the same result on every database exactly when nothing is asked
      of the scan, or all its columns are, in sorted order and no name twice. */
  lemma ChainExact(text: Texts, p: Plan)
    requires Chain(p) && Plain(p) && Passable(p, Source(p).schema) && Optimize(text, p).Ok?
    ensures var s, list := Source(p).schema, ScanList(text, p, {});
            AlwaysTheSame(text, p, Optimize(text, p).value) <==> list == [] || (list == NameList(s) && DistinctNames(s))
  {
    var s, list, q := Source(p).schema, ScanList(text, p, {}), Optimize(text, p).value;
    if list == [] {
      ChainUntouched(text, p, {});
    } else if list == NameList(s) && DistinctNames(s) {
      ChainKeeps(text, p, {});
      forall w: World | WellTyped(w) && w.text == text && Denote(w, p).Some? ensures Denote(w, q) == Denote(w, p) {
        OptimizeIsExact(w, p);
      }
    } else if AlwaysTheSame(text, p, q) {
      TelltalePushed(text, TallyRow, p, {});
      TelltaleIsWellTyped(text, TallyRow);
      var w := Telltale(text, TallyRow);
      assert Denote(w, q) == Denote(w, p);
      NamesProjected(s, list);
      assert ProjectRow(s, TallyRow(s), list) == [ProjectRow(s, TallyRow(s), list)][0] == [TallyRow(s)][0];
      TallyTells(s);
    }
  }
}
