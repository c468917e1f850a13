/**
 What plans mean: the results a plan may produce on a database.  A plan may produce several
 results because ties in a sort are unordered, and it may fail.
 */
module PlanSemantics {
  import opened Wrappers
  import opened Names
  import opened Ir
  import opened Evaluator
  import opened Predicates
  import opened EquiKeys
  import opened KeyTypes
  import opened Tables
  import opened Sorting
  import opened ResultSets
  import opened Plans

  type Db = map<string, seq<Row>>

  /** The declared column types of each table. */
  type Catalog = map<string, seq<DataType>>

  /** How grouping and aggregation act on a table is a parameter. */
  datatype PlanEnv = PlanEnv(
    env: Env,
    aggregate: (seq<Expr>, seq<Expr>, Option<seq<seq<nat>>>, seq<Row>) -> TableResult)

  function AddTable(db: Db, name: string, rows: seq<Row>): Db {
    db[Upper(name) := rows]
  }

  function ScanTable(db: Db, name: string): TableResult {
    if Upper(name) in db then Table(db[Upper(name)]) else Failed
  }

  /** A scan gives the rows stored last under the name, in whatever case it is written, and fails where there are none. */
  lemma ScanSees(db: Db, name: string, other: string, rows: seq<Row>)
    ensures Upper(name) == Upper(other) ==> ScanTable(AddTable(db, name, rows), other) == Table(rows)
    ensures Upper(name) != Upper(other) ==> ScanTable(AddTable(db, name, rows), other) == ScanTable(db, other)
    ensures Upper(other) !in db ==> ScanTable(db, other).Failed?
  {
    hide Upper;
  }

  // ---------- Operators as functions of their inputs ----------

  function FilterStep(env: Env, condition: Expr): TableResult -> TableResult {
    t => FilterTable(env, condition, t)
  }

  function ProjectStep(env: Env, es: seq<Expr>): TableResult -> TableResult {
    t => ProjectTable(env, es, t)
  }

  function AggregateStep(pe: PlanEnv, groupBy: seq<Expr>, aggregates: seq<Expr>, sets: Option<seq<seq<nat>>>): TableResult -> TableResult {
    (t: TableResult) => if t.Failed? then Failed else pe.aggregate(groupBy, aggregates, sets, t.rows)
  }

  function LimitStep(limit: Option<nat>, offset: Option<nat>): TableResult -> TableResult {
    t => LimitTable(limit, offset, t)
  }

  function DistinctStep(): TableResult -> TableResult {
    t => DistinctTable(t)
  }

  ghost function SortStep(env: Env, keys: seq<SortExpr>): (TableResult, TableResult) -> bool {
    (t, out) => SortYields(env, keys, t, out)
  }

  ghost function TopNStep(env: Env, keys: seq<SortExpr>, count: nat): (TableResult, TableResult) -> bool {
    (t, out) => TopNYields(env, keys, count, t, out)
  }

  function JoinStep(env: Env, joinType: JoinType, on: Option<Expr>, leftWidth: nat, rightWidth: nat): (TableResult, TableResult) -> TableResult {
    (lt, rt) => JoinTable(env, joinType, on, lt, rt, leftWidth, rightWidth)
  }

  function HashJoinStep(env: Env, keys: JoinKeys): (TableResult, TableResult) -> TableResult {
    (lt, rt) => HashJoinTable(env, keys, lt, rt)
  }

  function SetOpStep(op: SetOperationType, all: bool): (TableResult, TableResult) -> TableResult {
    (lt, rt) => SetOpTable(op, all, lt, rt)
  }

  // ---------- Logical plans ----------

  /** The results a logical plan may produce. */
  ghost function ResultsOf(pe: PlanEnv, db: Db, p: LogicalPlan): Results
    decreases p
  {
    match p
    case Scan(name, _, _) => iset{ScanTable(db, name)}
    case Filter(input, condition) => Lift(ResultsOf(pe, db, input), FilterStep(pe.env, condition))
    case Project(input, es, _) => Lift(ResultsOf(pe, db, input), ProjectStep(pe.env, es))
    case Aggregate(input, groupBy, aggregates, _, sets) => Lift(ResultsOf(pe, db, input), AggregateStep(pe, groupBy, aggregates, sets))
    case Join(l, r, joinType, on, _) =>
      Lift2(ResultsOf(pe, db, l), ResultsOf(pe, db, r), JoinStep(pe.env, joinType, on, |Schema(l)|, |Schema(r)|))
    case Sort(input, keys) => LiftRel(ResultsOf(pe, db, input), SortStep(pe.env, keys))
    case Limit(input, limit, offset) => Lift(ResultsOf(pe, db, input), LimitStep(limit, offset))
    case Distinct(input) => Lift(ResultsOf(pe, db, input), DistinctStep())
    case Values(values, _) => iset{ValuesTable(pe.env, values)}
    case Empty(_) => iset{Table([])}
    case SetOperation(l, r, op, all, _) => Lift2(ResultsOf(pe, db, l), ResultsOf(pe, db, r), SetOpStep(op, all))
    case WithCte(ctes, body) =>
      iset t: TableResult | (t.Failed? && None in CteResults(pe, db, ctes)) || exists db' :: Some(db') in CteResults(pe, db, ctes) && t in ResultsOf(pe, db', body)
  }

  /** CTEs are computed in order, each seeing the ones before it; the databases they may leave. */
  ghost function CteResults(pe: PlanEnv, db: Db, ctes: seq<CteDefinition>): iset<Option<Db>>
    decreases ctes
  {
    if ctes == [] then iset{Some(db)} else
    iset out: Option<Db> |
      || (out.None? && Failed in ResultsOf(pe, db, ctes[0].query))
      || (exists rows :: Table(rows) in ResultsOf(pe, db, ctes[0].query) && out in CteResults(pe, AddTable(db, ctes[0].name, rows), ctes[1..]))
  }

  // ---------- Optimized plans ----------

  /** The results an optimized plan may produce. */
  ghost function OptResultsOf(pe: PlanEnv, db: Db, o: OptimizedPlan): Results
    decreases o
  {
    match o
    case TableScan(name, _, _) => iset{ScanTable(db, name)}
    case Filter(input, condition) => Lift(OptResultsOf(pe, db, input), FilterStep(pe.env, condition))
    case Project(input, es, _) => Lift(OptResultsOf(pe, db, input), ProjectStep(pe.env, es))
    case HashAggregate(input, groupBy, aggregates, _, sets) => Lift(OptResultsOf(pe, db, input), AggregateStep(pe, groupBy, aggregates, sets))
    case NestedLoopJoin(l, r, joinType, on, _) =>
      Lift2(OptResultsOf(pe, db, l), OptResultsOf(pe, db, r), JoinStep(pe.env, joinType, on, |OptSchema(l)|, |OptSchema(r)|))
    case CrossJoin(l, r, _) =>
      Lift2(OptResultsOf(pe, db, l), OptResultsOf(pe, db, r), JoinStep(pe.env, Cross, None, |OptSchema(l)|, |OptSchema(r)|))
    case HashJoin(l, r, _, keys, _) => Lift2(OptResultsOf(pe, db, l), OptResultsOf(pe, db, r), HashJoinStep(pe.env, keys))
    case Sort(input, keys) => LiftRel(OptResultsOf(pe, db, input), SortStep(pe.env, keys))
    case Limit(input, limit, offset) => Lift(OptResultsOf(pe, db, input), LimitStep(limit, offset))
    case TopN(input, keys, count) => LiftRel(OptResultsOf(pe, db, input), TopNStep(pe.env, keys, count))
    case Distinct(input) => Lift(OptResultsOf(pe, db, input), DistinctStep())
    case Values(values, _) => iset{ValuesTable(pe.env, values)}
    case Empty(_) => iset{Table([])}
    case Union(inputs, all, _) => iset ts | ts in InputResults(pe, db, inputs) :: UnionTable(all, ts)
    case Intersect(l, r, all, _) => Lift2(OptResultsOf(pe, db, l), OptResultsOf(pe, db, r), SetOpStep(SetOperationType.Intersect, all))
    case Except(l, r, all, _) => Lift2(OptResultsOf(pe, db, l), OptResultsOf(pe, db, r), SetOpStep(SetOperationType.Except, all))
    case WithCte(ctes, body) =>
      iset t: TableResult | (t.Failed? && None in CteResults(pe, db, ctes)) || exists db' :: Some(db') in CteResults(pe, db, ctes) && t in OptResultsOf(pe, db', body)
  }

  ghost function InputResults(pe: PlanEnv, db: Db, inputs: seq<OptimizedPlan>): iset<seq<TableResult>>
    decreases inputs, |inputs|
  {
    if inputs == [] then iset{[]}
    else
      var n := |inputs| - 1;
      assert inputs[n] in inputs;
      iset ts, t | ts in InputResults(pe, db, inputs[..n]) && t in OptResultsOf(pe, db, inputs[n]) :: ts + [t]
  }

  /** A query over one CTE that just scans it has the CTE's results. */
  lemma CteIsSeen(pe: PlanEnv, db: Db, cte: CteDefinition, schema: PlanSchema)
    ensures ResultsOf(pe, db, LogicalPlan.WithCte([cte], LogicalPlan.Scan(cte.name, schema, None))) == ResultsOf(pe, db, cte.query)
  {
    var scan := LogicalPlan.Scan(cte.name, schema, None);
    var p := LogicalPlan.WithCte([cte], scan);
    forall t: TableResult
      ensures t in ResultsOf(pe, db, p) <==> t in ResultsOf(pe, db, cte.query)
    {
      OneCte(pe, db, cte, t, scan);
    }
  }

  lemma OneCte(pe: PlanEnv, db: Db, cte: CteDefinition, t: TableResult, scan: LogicalPlan)
    requires scan.Scan? && scan.tableName == cte.name
    ensures t in ResultsOf(pe, db, LogicalPlan.WithCte([cte], scan)) <==> t in ResultsOf(pe, db, cte.query)
  {
    var results := CteResults(pe, db, [cte]);
    assert [cte][1..] == [];
    forall out: Option<Db>
      ensures out in results
              <==> (out.None? && Failed in ResultsOf(pe, db, cte.query))
                   || exists rows :: Table(rows) in ResultsOf(pe, db, cte.query) && out == Some(AddTable(db, cte.name, rows))
    {
      forall rows
        ensures out in CteResults(pe, AddTable(db, cte.name, rows), []) <==> out == Some(AddTable(db, cte.name, rows))
      {
      }
    }
    forall rows
      ensures ResultsOf(pe, AddTable(db, cte.name, rows), scan) == iset{Table(rows)}
    {
    }
    if t.Table? && t in ResultsOf(pe, db, cte.query) {
      assert Some(AddTable(db, cte.name, t.rows)) in results;
    }
  }

  // ---------- One operator at a time ----------

  lemma FilterResults(pe: PlanEnv, db: Db, p: LogicalPlan, e: Expr)
    ensures ResultsOf(pe, db, LogicalPlan.Filter(p, e))
            == Lift(ResultsOf(pe, db, p), FilterStep(pe.env, e))
  {
  }

  lemma ProjectResults(pe: PlanEnv, db: Db, p: LogicalPlan, es: seq<Expr>, schema: PlanSchema)
    ensures ResultsOf(pe, db, LogicalPlan.Project(p, es, schema))
            == Lift(ResultsOf(pe, db, p), ProjectStep(pe.env, es))
  {
  }

  lemma AggregateResults(pe: PlanEnv, db: Db, p: LogicalPlan, gs: seq<Expr>, es: seq<Expr>, schema: PlanSchema, sets: Option<seq<seq<nat>>>)
    ensures ResultsOf(pe, db, LogicalPlan.Aggregate(p, gs, es, schema, sets))
            == Lift(ResultsOf(pe, db, p), AggregateStep(pe, gs, es, sets))
  {
  }

  lemma SortResults(pe: PlanEnv, db: Db, p: LogicalPlan, keys: seq<SortExpr>)
    ensures ResultsOf(pe, db, LogicalPlan.Sort(p, keys))
            == LiftRel(ResultsOf(pe, db, p), SortStep(pe.env, keys))
  {
  }

  lemma LimitResults(pe: PlanEnv, db: Db, p: LogicalPlan, limit: Option<nat>, offset: Option<nat>)
    ensures ResultsOf(pe, db, LogicalPlan.Limit(p, limit, offset))
            == Lift(ResultsOf(pe, db, p), LimitStep(limit, offset))
  {
  }

  lemma DistinctResults(pe: PlanEnv, db: Db, p: LogicalPlan)
    ensures ResultsOf(pe, db, LogicalPlan.Distinct(p))
            == Lift(ResultsOf(pe, db, p), DistinctStep())
  {
  }

  lemma SetOpResults(pe: PlanEnv, db: Db, l: LogicalPlan, r: LogicalPlan, op: SetOperationType, all: bool, schema: PlanSchema)
    ensures ResultsOf(pe, db, LogicalPlan.SetOperation(l, r, op, all, schema))
            == Lift2(ResultsOf(pe, db, l), ResultsOf(pe, db, r), SetOpStep(op, all))
  {
  }

  lemma JoinResults(pe: PlanEnv, db: Db, l: LogicalPlan, r: LogicalPlan, joinType: JoinType, on: Option<Expr>, schema: PlanSchema)
    ensures ResultsOf(pe, db, LogicalPlan.Join(l, r, joinType, on, schema))
            == Lift2(ResultsOf(pe, db, l), ResultsOf(pe, db, r), JoinStep(pe.env, joinType, on, |Schema(l)|, |Schema(r)|))
  {
  }

  lemma OptFilterResults(pe: PlanEnv, db: Db, o: OptimizedPlan, e: Expr)
    ensures OptResultsOf(pe, db, OptimizedPlan.Filter(o, e))
            == Lift(OptResultsOf(pe, db, o), FilterStep(pe.env, e))
  {
  }

  lemma OptProjectResults(pe: PlanEnv, db: Db, o: OptimizedPlan, es: seq<Expr>, schema: PlanSchema)
    ensures OptResultsOf(pe, db, OptimizedPlan.Project(o, es, schema))
            == Lift(OptResultsOf(pe, db, o), ProjectStep(pe.env, es))
  {
  }

  lemma HashAggregateResults(pe: PlanEnv, db: Db, o: OptimizedPlan, gs: seq<Expr>, es: seq<Expr>, schema: PlanSchema, sets: Option<seq<seq<nat>>>)
    ensures OptResultsOf(pe, db, OptimizedPlan.HashAggregate(o, gs, es, schema, sets))
            == Lift(OptResultsOf(pe, db, o), AggregateStep(pe, gs, es, sets))
  {
  }

  lemma OptSortResults(pe: PlanEnv, db: Db, o: OptimizedPlan, keys: seq<SortExpr>)
    ensures OptResultsOf(pe, db, OptimizedPlan.Sort(o, keys))
            == LiftRel(OptResultsOf(pe, db, o), SortStep(pe.env, keys))
  {
  }

  lemma OptLimitResults(pe: PlanEnv, db: Db, o: OptimizedPlan, limit: Option<nat>, offset: Option<nat>)
    ensures OptResultsOf(pe, db, OptimizedPlan.Limit(o, limit, offset))
            == Lift(OptResultsOf(pe, db, o), LimitStep(limit, offset))
  {
  }

  lemma TopNResults(pe: PlanEnv, db: Db, o: OptimizedPlan, keys: seq<SortExpr>, count: nat)
    ensures OptResultsOf(pe, db, OptimizedPlan.TopN(o, keys, count))
            == LiftRel(OptResultsOf(pe, db, o), TopNStep(pe.env, keys, count))
  {
  }

  lemma OptDistinctResults(pe: PlanEnv, db: Db, o: OptimizedPlan)
    ensures OptResultsOf(pe, db, OptimizedPlan.Distinct(o))
            == Lift(OptResultsOf(pe, db, o), DistinctStep())
  {
  }

  lemma IntersectResults(pe: PlanEnv, db: Db, l: OptimizedPlan, r: OptimizedPlan, all: bool, schema: PlanSchema)
    ensures OptResultsOf(pe, db, OptimizedPlan.Intersect(l, r, all, schema))
            == Lift2(OptResultsOf(pe, db, l), OptResultsOf(pe, db, r), SetOpStep(SetOperationType.Intersect, all))
  {
  }

  lemma ExceptResults(pe: PlanEnv, db: Db, l: OptimizedPlan, r: OptimizedPlan, all: bool, schema: PlanSchema)
    ensures OptResultsOf(pe, db, OptimizedPlan.Except(l, r, all, schema))
            == Lift2(OptResultsOf(pe, db, l), OptResultsOf(pe, db, r), SetOpStep(SetOperationType.Except, all))
  {
  }

  lemma HashJoinResults(pe: PlanEnv, db: Db, l: OptimizedPlan, r: OptimizedPlan, keys: JoinKeys, schema: PlanSchema)
    ensures OptResultsOf(pe, db, OptimizedPlan.HashJoin(l, r, Inner, keys, schema))
            == Lift2(OptResultsOf(pe, db, l), OptResultsOf(pe, db, r), HashJoinStep(pe.env, keys))
  {
  }

  lemma LoopJoinResults(pe: PlanEnv, db: Db, l: OptimizedPlan, r: OptimizedPlan, joinType: JoinType, on: Option<Expr>, schema: PlanSchema)
    ensures OptResultsOf(pe, db, OptimizedPlan.NestedLoopJoin(l, r, joinType, on, schema))
            == Lift2(OptResultsOf(pe, db, l), OptResultsOf(pe, db, r), JoinStep(pe.env, joinType, on, |OptSchema(l)|, |OptSchema(r)|))
  {
  }

  lemma CrossJoinResults(pe: PlanEnv, db: Db, l: OptimizedPlan, r: OptimizedPlan, schema: PlanSchema)
    ensures OptResultsOf(pe, db, OptimizedPlan.CrossJoin(l, r, schema))
            == Lift2(OptResultsOf(pe, db, l), OptResultsOf(pe, db, r), JoinStep(pe.env, Cross, None, |OptSchema(l)|, |OptSchema(r)|))
  {
  }

  lemma StepsStrict(pe: PlanEnv, e: Expr, es: seq<Expr>, gs: seq<Expr>, sets: Option<seq<seq<nat>>>, limit: Option<nat>, offset: Option<nat>)
    ensures Strict(FilterStep(pe.env, e)) && Strict(ProjectStep(pe.env, es)) && Strict(AggregateStep(pe, gs, es, sets))
    ensures Strict(LimitStep(limit, offset)) && Strict(DistinctStep())
  {
  }

  // ---------- Well-planned ----------

  function Types(schema: PlanSchema): (ts: seq<DataType>)
    ensures |ts| == |schema|
  {
    seq(|schema|, i requires 0 <= i < |schema| => schema[i].dataType)
  }

  /** Every value of the first types is a value of the second. */
  predicate Fits(ts: seq<DataType>, us: seq<DataType>) {
    |ts| == |us| && forall i | 0 <= i < |ts| :: us[i] == ts[i] || us[i].Unknown?
  }

  ghost predicate ExprHasType(env: Env, e: Expr, types: seq<DataType>, t: DataType) {
    forall row | RowConforms(row, types) :: Eval(env, e, row).Val? ==> Conforms(Eval(env, e, row).v, t)
  }

  /** A condition that makes a hash join cannot accept a pair that mixes INT64 with FLOAT64 in a key. */
  ghost predicate EquiJoinSafe(on: Option<Expr>, lts: seq<DataType>, rts: seq<DataType>) {
    on.Some? && KeysOf(on.value, |lts|).Some? ==>
      Resolved(on.value, |lts| + |rts|) && KeyTypesSafe(KeysOf(on.value, |lts|).value, lts, rts)
  }

  /**
   What the planner that builds logical plans sees to: schemas describe the rows, and the
   predicates the optimizer takes apart have every column resolved.
   */
  ghost predicate WellPlanned(pe: PlanEnv, cat: Catalog, p: LogicalPlan)
    decreases p
  {
    match p
    case Scan(name, schema, _) => Upper(name) in cat ==> cat[Upper(name)] == Types(schema)
    case Filter(input, condition) =>
      && WellPlanned(pe, cat, input)
      && (FilterOnInnerJoin(p) ==> Resolved(condition, |Schema(input.left)| + |Schema(input.right)|))
    case Project(input, es, schema) =>
      && WellPlanned(pe, cat, input)
      && |es| == |schema|
      && forall i | 0 <= i < |es| :: ExprHasType(pe.env, es[i], Types(Schema(input)), schema[i].dataType)
    case Aggregate(input, groupBy, aggregates, schema, sets) =>
      && WellPlanned(pe, cat, input)
      && forall rows | RowsConform(rows, Types(Schema(input))) ::
          var t := pe.aggregate(groupBy, aggregates, sets, rows); t.Table? ==> RowsConform(t.rows, Types(schema))
    case Join(l, r, joinType, on, schema) =>
      && WellPlanned(pe, cat, l)
      && WellPlanned(pe, cat, r)
      && Types(schema) == Types(Schema(l)) + Types(Schema(r))
      && (joinType.Inner? ==> EquiJoinSafe(on, Types(Schema(l)), Types(Schema(r))))
    case Sort(input, _) => WellPlanned(pe, cat, input)
    case Limit(input, limit, offset) =>
      && WellPlanned(pe, cat, input)
      && (input.Sort? && limit.Some? && offset.None? ==> KeysSortable(pe.env, input.sortExprs, Types(Schema(input.input))))
    case Distinct(input) => WellPlanned(pe, cat, input)
    case Values(values, schema) =>
      forall es | es in values ::
        && |es| == |schema|
        && forall i | 0 <= i < |es| :: Eval(pe.env, es[i], []).Val? ==> Conforms(Eval(pe.env, es[i], []).v, schema[i].dataType)
    case Empty(_) => true
    case SetOperation(l, r, _, _, schema) =>
      && WellPlanned(pe, cat, l)
      && WellPlanned(pe, cat, r)
      && Fits(Types(Schema(l)), Types(schema))
      && Fits(Types(Schema(r)), Types(schema))
    case WithCte(ctes, body) => CtesWellPlanned(pe, cat, ctes) && WellPlanned(pe, CteCatalog(cat, ctes), body)
  }

  ghost predicate CtesWellPlanned(pe: PlanEnv, cat: Catalog, ctes: seq<CteDefinition>)
    decreases ctes
  {
    ctes == [] ||
    (&& !ctes[0].recursive
     && WellPlanned(pe, cat, ctes[0].query)
     && FiltersResolved(ctes[0].query)
     && CtesWellPlanned(pe, AddCte(cat, ctes[0]), ctes[1..]))
  }

  /** Every filter, wherever it sits, has its columns resolved: needed to plan a query a second time. */
  predicate FiltersResolved(p: LogicalPlan)
    decreases p
  {
    match p
    case Filter(input, condition) => FiltersResolved(input) && Resolved(condition, |Schema(input)|)
    case Project(input, _, _) => FiltersResolved(input)
    case Aggregate(input, _, _, _, _) => FiltersResolved(input)
    case Join(l, r, _, _, _) => FiltersResolved(l) && FiltersResolved(r)
    case Sort(input, _) => FiltersResolved(input)
    case Limit(input, _, _) => FiltersResolved(input)
    case Distinct(input) => FiltersResolved(input)
    case SetOperation(l, r, _, _, _) => FiltersResolved(l) && FiltersResolved(r)
    case WithCte(_, body) => FiltersResolved(body)
    case _ => true
  }

  function AddCte(cat: Catalog, cte: CteDefinition): Catalog {
    cat[Upper(cte.name) := Types(Schema(cte.query))]
  }

  function CteCatalog(cat: Catalog, ctes: seq<CteDefinition>): Catalog
    decreases |ctes|
  {
    if ctes == [] then cat else CteCatalog(AddCte(cat, ctes[0]), ctes[1..])
  }

  ghost predicate DbConforms(db: Db, cat: Catalog) {
    forall n | n in db :: n in cat && RowsConform(db[n], cat[n])
  }

  // ---------- Rows conform to the schema ----------

  lemma JoinedRowConforms(l: Row, r: Row, lts: seq<DataType>, rts: seq<DataType>)
    requires RowConforms(l, lts) && RowConforms(r, rts)
    ensures RowConforms(l + r, lts + rts)
  {
  }

  lemma {:induction false} MatchesOnLeftConform(ls: seq<Row>, r: Row, f: (Row, Row) -> bool, lts: seq<DataType>, rts: seq<DataType>)
    requires RowsConform(ls, lts) && RowConforms(r, rts)
    ensures RowsConform(MatchesOnLeft(ls, r, f), lts + rts)
  {
    if ls != [] {
      MatchesOnLeftConform(ls[1..], r, f, lts, rts);
      JoinedRowConforms(ls[0], r, lts, rts);
    }
  }

  lemma MatchesConform(l: Row, rs: seq<Row>, f: (Row, Row) -> bool, lts: seq<DataType>, rts: seq<DataType>)
    requires RowConforms(l, lts) && RowsConform(rs, rts)
    ensures RowsConform(Matches(l, rs, f), lts + rts)
  {
    hide RowConforms;
    forall x | x in Matches(l, rs, f)
      ensures RowConforms(x, lts + rts)
    {
      var q :| q in rs && f(l, q) && x == l + q;
      JoinedRowConforms(l, q, lts, rts);
    }
  }

  lemma NullsConform(types: seq<DataType>)
    ensures RowConforms(Nulls(|types|), types)
  {
  }

  lemma {:induction false} LeftJoinConforms(ls: seq<Row>, rs: seq<Row>, f: (Row, Row) -> bool, lts: seq<DataType>, rts: seq<DataType>)
    requires RowsConform(ls, lts) && RowsConform(rs, rts)
    ensures RowsConform(LeftJoinRows(ls, rs, f, |rts|), lts + rts)
  {
    hide RowConforms, Matches, Nulls;
    if ls != [] {
      LeftJoinConforms(ls[1..], rs, f, lts, rts);
      MatchesConform(ls[0], rs, f, lts, rts);
      NullsConform(rts);
      JoinedRowConforms(ls[0], Nulls(|rts|), lts, rts);
    }
  }

  lemma {:induction false} RightJoinConforms(ls: seq<Row>, rs: seq<Row>, f: (Row, Row) -> bool, lts: seq<DataType>, rts: seq<DataType>)
    requires RowsConform(ls, lts) && RowsConform(rs, rts)
    ensures RowsConform(RightJoinRows(ls, rs, f, |lts|), lts + rts)
    ensures RowsConform(UnmatchedRight(ls, rs, f, |lts|), lts + rts)
  {
    if rs != [] {
      RightJoinConforms(ls, rs[1..], f, lts, rts);
      MatchesOnLeftConform(ls, rs[0], f, lts, rts);
      JoinedRowConforms(Nulls(|lts|), rs[0], lts, rts);
    }
  }

  lemma JoinConforms(env: Env, joinType: JoinType, on: Option<Expr>, lt: TableResult, rt: TableResult, lts: seq<DataType>, rts: seq<DataType>)
    requires lt.Table? && rt.Table? && RowsConform(lt.rows, lts) && RowsConform(rt.rows, rts)
    ensures var out := JoinTable(env, joinType, on, lt, rt, |lts|, |rts|); out.Table? ==> RowsConform(out.rows, lts + rts)
  {
    var f := OnPair(env, on);
    LeftJoinConforms(lt.rows, rt.rows, f, lts, rts);
    RightJoinConforms(lt.rows, rt.rows, f, lts, rts);
    forall l, r | l in lt.rows && r in rt.rows
      ensures RowConforms(l + r, lts + rts)
    {
      JoinedRowConforms(l, r, lts, rts);
    }
  }

  lemma {:induction false} IntersectAllWithin(ls: seq<Row>, counts: multiset<Row>)
    ensures forall x | x in IntersectAll(ls, counts) :: x in ls
    ensures forall x | x in ExceptAll(ls, counts) :: x in ls
  {
    if ls != [] {
      IntersectAllWithin(ls[1..], counts);
      IntersectAllWithin(ls[1..], counts - multiset{ls[0]});
    }
  }

  lemma SetOpConforms(op: SetOperationType, all: bool, lt: TableResult, rt: TableResult, lts: seq<DataType>, rts: seq<DataType>, ts: seq<DataType>)
    requires lt.Table? && rt.Table? && RowsConform(lt.rows, lts) && RowsConform(rt.rows, rts)
    requires Fits(lts, ts) && Fits(rts, ts)
    ensures RowsConform(SetOpTable(op, all, lt, rt).rows, ts)
  {
    IntersectAllWithin(lt.rows, multiset(rt.rows));
    forall x | x in lt.rows + rt.rows
      ensures RowConforms(x, ts)
    {
      assert x in lt.rows || x in rt.rows;
    }
    assert forall x | x in SetOpTable(op, all, lt, rt).rows :: x in lt.rows + rt.rows;
  }

  lemma ValuesConform(env: Env, values: seq<seq<Expr>>, schema: PlanSchema)
    requires forall es | es in values ::
               && |es| == |schema|
               && forall i | 0 <= i < |es| :: Eval(env, es[i], []).Val? ==> Conforms(Eval(env, es[i], []).v, schema[i].dataType)
    ensures var out := ValuesTable(env, values); out.Table? ==> RowsConform(out.rows, Types(schema))
  {
    var out := ValuesTable(env, values);
    if out.Table? {
      forall x | x in out.rows
        ensures RowConforms(x, Types(schema))
      {
        var i :| 0 <= i < |values| && x == out.rows[i];
        assert values[i] in values;
        var rs := EvalAll(env, values[i], []);
        assert AllVal(rs);
        assert forall j | 0 <= j < |rs| :: rs[j] in rs;
      }
    }
  }

  lemma SortConforms(env: Env, keys: seq<SortExpr>, t: TableResult, out: TableResult, types: seq<DataType>)
    requires t.Table? && RowsConform(t.rows, types) && SortYields(env, keys, t, out)
    ensures RowsConform(out.rows, types)
  {
    forall r | r in out.rows
      ensures RowConforms(r, types)
    {
      assert r in multiset(out.rows);
      assert r in t.rows;
    }
  }

  ghost predicate ResultsConform(s: Results, types: seq<DataType>) {
    forall t: TableResult | t in s && t.Table? :: RowsConform(t.rows, types)
  }

  lemma KeptConform(s: Results, env: Env, condition: Expr, limit: Option<nat>, offset: Option<nat>, types: seq<DataType>)
    requires ResultsConform(s, types)
    ensures ResultsConform(Lift(s, FilterStep(env, condition)), types)
    ensures ResultsConform(Lift(s, LimitStep(limit, offset)), types)
    ensures ResultsConform(Lift(s, DistinctStep()), types)
  {
  }

  lemma AggregatedConform(s: Results, pe: PlanEnv, groupBy: seq<Expr>, aggregates: seq<Expr>, sets: Option<seq<seq<nat>>>, types: seq<DataType>, schema: PlanSchema)
    requires ResultsConform(s, types)
    requires forall rows | RowsConform(rows, types) ::
               var t := pe.aggregate(groupBy, aggregates, sets, rows); t.Table? ==> RowsConform(t.rows, Types(schema))
    ensures ResultsConform(Lift(s, AggregateStep(pe, groupBy, aggregates, sets)), Types(schema))
  {
    hide RowsConform;
  }

  lemma SortedConform(s: Results, env: Env, keys: seq<SortExpr>, types: seq<DataType>)
    requires ResultsConform(s, types)
    ensures ResultsConform(LiftRel(s, SortStep(env, keys)), types)
  {
    forall t, out: TableResult | t in s && t.Table? && SortYields(env, keys, t, out)
      ensures RowsConform(out.rows, types)
    {
      SortConforms(env, keys, t, out, types);
    }
  }

  lemma ProjectedConform(s: Results, env: Env, es: seq<Expr>, types: seq<DataType>, schema: PlanSchema)
    requires ResultsConform(s, types) && |es| == |schema|
    requires forall i | 0 <= i < |es| :: ExprHasType(env, es[i], types, schema[i].dataType)
    ensures ResultsConform(Lift(s, ProjectStep(env, es)), Types(schema))
  {
    forall t: TableResult | t in s && t.Table?
      ensures var out := ProjectTable(env, es, t); out.Table? ==> RowsConform(out.rows, Types(schema))
    {
    }
  }

  lemma JoinedConform(s: Results, u: Results, env: Env, joinType: JoinType, on: Option<Expr>, lts: seq<DataType>, rts: seq<DataType>)
    requires ResultsConform(s, lts) && ResultsConform(u, rts)
    ensures ResultsConform(Lift2(s, u, JoinStep(env, joinType, on, |lts|, |rts|)), lts + rts)
  {
    forall lt, rt: TableResult | lt in s && rt in u && lt.Table? && rt.Table?
      ensures var out := JoinTable(env, joinType, on, lt, rt, |lts|, |rts|); out.Table? ==> RowsConform(out.rows, lts + rts)
    {
      JoinConforms(env, joinType, on, lt, rt, lts, rts);
    }
  }

  lemma CombinedConform(s: Results, u: Results, op: SetOperationType, all: bool, lts: seq<DataType>, rts: seq<DataType>, types: seq<DataType>)
    requires ResultsConform(s, lts) && ResultsConform(u, rts) && Fits(lts, types) && Fits(rts, types)
    ensures ResultsConform(Lift2(s, u, SetOpStep(op, all)), types)
  {
    forall lt, rt: TableResult | lt in s && rt in u && lt.Table? && rt.Table?
      ensures RowsConform(SetOpTable(op, all, lt, rt).rows, types)
    {
      SetOpConforms(op, all, lt, rt, lts, rts, types);
    }
  }

  /** Every table a well-planned plan produces has rows of its schema's width and types. */
  lemma {:induction false} RowsFitSchema(pe: PlanEnv, cat: Catalog, db: Db, p: LogicalPlan)
    requires WellPlanned(pe, cat, p) && DbConforms(db, cat)
    ensures ResultsConform(ResultsOf(pe, db, p), Types(Schema(p)))
    decreases p
  {
    hide *;
    match p
    case Join(_, _, _, _, _) => JoinFits(pe, cat, db, p);
    case SetOperation(_, _, _, _, _) => SetOpFits(pe, cat, db, p);
    case WithCte(_, _) => WithCteFits(pe, cat, db, p);
    case Filter(_, _) => UnaryFits(pe, cat, db, p);
    case Project(_, _, _) => UnaryFits(pe, cat, db, p);
    case Aggregate(_, _, _, _, _) => UnaryFits(pe, cat, db, p);
    case Sort(_, _) => UnaryFits(pe, cat, db, p);
    case Limit(_, _, _) => UnaryFits(pe, cat, db, p);
    case Distinct(_) => UnaryFits(pe, cat, db, p);
    case _ => LeafFits(pe, cat, db, p);
  }

  lemma LeafFits(pe: PlanEnv, cat: Catalog, db: Db, p: LogicalPlan)
    requires p.Scan? || p.Values? || p.Empty?
    requires WellPlanned(pe, cat, p) && DbConforms(db, cat)
    ensures ResultsConform(ResultsOf(pe, db, p), Types(Schema(p)))
  {
    hide Eval, Upper;
    if p.Values? {
      ValuesConform(pe.env, p.values, p.schema);
    }
  }

  lemma {:induction false} UnaryFits(pe: PlanEnv, cat: Catalog, db: Db, p: LogicalPlan)
    requires p.Filter? || p.Project? || p.Aggregate? || p.Sort? || p.Limit? || p.Distinct?
    requires WellPlanned(pe, cat, p) && DbConforms(db, cat)
    ensures ResultsConform(ResultsOf(pe, db, p), Types(Schema(p)))
    decreases p, 0
  {
    hide ResultsConform, ExprHasType, FilterOnInnerJoin, KeysSortable, Resolved, FilterStep, ProjectStep, SortStep, LimitStep, DistinctStep, AggregateStep;
    hide Lift, LiftRel, Types, RowsConform;
    var s, types := ResultsOf(pe, db, p.input), Types(Schema(p.input));
    RowsFitSchema(pe, cat, db, p.input);
    match p
    case Filter(_, condition) => KeptConform(s, pe.env, condition, None, None, types);
    case Project(_, es, schema) => ProjectedConform(s, pe.env, es, types, schema);
    case Aggregate(_, groupBy, aggregates, schema, sets) => AggregatedConform(s, pe, groupBy, aggregates, sets, types, schema);
    case Sort(_, keys) => SortedConform(s, pe.env, keys, types);
    case Limit(_, limit, offset) => KeptConform(s, pe.env, Literal(Null), limit, offset, types);
    case Distinct(_) => KeptConform(s, pe.env, Literal(Null), None, None, types);
  }

  lemma {:induction false} JoinFits(pe: PlanEnv, cat: Catalog, db: Db, p: LogicalPlan)
    requires p.Join? && WellPlanned(pe, cat, p) && DbConforms(db, cat)
    ensures ResultsConform(ResultsOf(pe, db, p), Types(Schema(p)))
    decreases p, 0
  {
    hide ResultsConform, EquiJoinSafe;
    RowsFitSchema(pe, cat, db, p.left);
    RowsFitSchema(pe, cat, db, p.right);
    JoinedConform(ResultsOf(pe, db, p.left), ResultsOf(pe, db, p.right), pe.env, p.joinType, p.on, Types(Schema(p.left)), Types(Schema(p.right)));
  }

  lemma {:induction false} SetOpFits(pe: PlanEnv, cat: Catalog, db: Db, p: LogicalPlan)
    requires p.SetOperation? && WellPlanned(pe, cat, p) && DbConforms(db, cat)
    ensures ResultsConform(ResultsOf(pe, db, p), Types(Schema(p)))
    decreases p, 0
  {
    hide ResultsConform, Fits;
    RowsFitSchema(pe, cat, db, p.left);
    RowsFitSchema(pe, cat, db, p.right);
    CombinedConform(ResultsOf(pe, db, p.left), ResultsOf(pe, db, p.right), p.op, p.all, Types(Schema(p.left)), Types(Schema(p.right)), Types(p.schema));
  }

  lemma {:induction false} WithCteFits(pe: PlanEnv, cat: Catalog, db: Db, p: LogicalPlan)
    requires p.WithCte? && WellPlanned(pe, cat, p) && DbConforms(db, cat)
    ensures ResultsConform(ResultsOf(pe, db, p), Types(Schema(p)))
    decreases p, 0
  {
    hide DbConforms, CtesWellPlanned, CteCatalog, CteResults;
    CtesFitCatalog(pe, cat, db, p.ctes);
    forall db' | Some(db') in CteResults(pe, db, p.ctes)
      ensures ResultsConform(ResultsOf(pe, db', p.body), Types(Schema(p.body)))
    {
      RowsFitSchema(pe, CteCatalog(cat, p.ctes), db', p.body);
    }
  }

  lemma {:induction false} CtesFitCatalog(pe: PlanEnv, cat: Catalog, db: Db, ctes: seq<CteDefinition>)
    requires CtesWellPlanned(pe, cat, ctes) && DbConforms(db, cat)
    ensures forall db' | Some(db') in CteResults(pe, db, ctes) :: DbConforms(db', CteCatalog(cat, ctes))
    decreases ctes
  {
    if ctes != [] {
      RowsFitSchema(pe, cat, db, ctes[0].query);
      forall rows, db' | Table(rows) in ResultsOf(pe, db, ctes[0].query)
                         && Some(db') in CteResults(pe, AddTable(db, ctes[0].name, rows), ctes[1..])
        ensures DbConforms(db', CteCatalog(cat, ctes))
      {
        CtesFitCatalog(pe, AddCte(cat, ctes[0]), AddTable(db, ctes[0].name, rows), ctes[1..]);
      }
    }
  }
}
