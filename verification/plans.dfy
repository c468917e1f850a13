/**
 Logical plans (`crates/ir/src/plan/mod.rs`), optimized plans
 (`crates/optimizer/src/optimized_logical_plan.rs`) and the two translations of
 `crates/optimizer/src/planner.rs`: `Plan`, from logical to optimized, and `IntoLogical`, back.
 The query fragment: no DDL, DML or scripting.
 */
module Plans {
  import opened Wrappers
  import opened Ir
  import opened Predicates
  import opened EquiKeys
  import opened Tables

  datatype CteDefinition = CteDefinition(name: string, columns: Option<seq<string>>, query: LogicalPlan,
                                         recursive: bool, materialized: Option<bool>)

  datatype LogicalPlan =
    | Scan(tableName: string, schema: PlanSchema, projection: Option<seq<nat>>)
    | Filter(input: LogicalPlan, condition: Expr)
    | Project(input: LogicalPlan, expressions: seq<Expr>, schema: PlanSchema)
    | Aggregate(input: LogicalPlan, groupBy: seq<Expr>, aggregates: seq<Expr>, schema: PlanSchema,
                groupingSets: Option<seq<seq<nat>>>)
    | Join(left: LogicalPlan, right: LogicalPlan, joinType: JoinType, on: Option<Expr>, schema: PlanSchema)
    | Sort(input: LogicalPlan, sortExprs: seq<SortExpr>)
    | Limit(input: LogicalPlan, limit: Option<nat>, offset: Option<nat>)
    | Distinct(input: LogicalPlan)
    | Values(values: seq<seq<Expr>>, schema: PlanSchema)
    | Empty(schema: PlanSchema)
    | SetOperation(left: LogicalPlan, right: LogicalPlan, op: SetOperationType, all: bool, schema: PlanSchema)
    | WithCte(ctes: seq<CteDefinition>, body: LogicalPlan)

  datatype OptimizedPlan =
    | TableScan(tableName: string, schema: PlanSchema, projection: Option<seq<nat>>)
    | Filter(input: OptimizedPlan, condition: Expr)
    | Project(input: OptimizedPlan, expressions: seq<Expr>, schema: PlanSchema)
    | HashAggregate(input: OptimizedPlan, groupBy: seq<Expr>, aggregates: seq<Expr>, schema: PlanSchema,
                    groupingSets: Option<seq<seq<nat>>>)
    | NestedLoopJoin(left: OptimizedPlan, right: OptimizedPlan, joinType: JoinType, on: Option<Expr>, schema: PlanSchema)
    | CrossJoin(left: OptimizedPlan, right: OptimizedPlan, schema: PlanSchema)
    | HashJoin(left: OptimizedPlan, right: OptimizedPlan, joinType: JoinType, keys: JoinKeys, schema: PlanSchema)
    | Sort(input: OptimizedPlan, sortExprs: seq<SortExpr>)
    | Limit(input: OptimizedPlan, limit: Option<nat>, offset: Option<nat>)
    | TopN(input: OptimizedPlan, sortExprs: seq<SortExpr>, count: nat)
    | Distinct(input: OptimizedPlan)
    | Values(values: seq<seq<Expr>>, schema: PlanSchema)
    | Empty(schema: PlanSchema)
    | Union(inputs: seq<OptimizedPlan>, all: bool, schema: PlanSchema)
    | Intersect(left: OptimizedPlan, right: OptimizedPlan, all: bool, schema: PlanSchema)
    | Except(left: OptimizedPlan, right: OptimizedPlan, all: bool, schema: PlanSchema)
    | WithCte(ctes: seq<CteDefinition>, body: OptimizedPlan)

  // ---------- Schemas ----------

  function Schema(p: LogicalPlan): PlanSchema {
    match p
    case Scan(_, schema, _) => schema
    case Filter(input, _) => Schema(input)
    case Project(_, _, schema) => schema
    case Aggregate(_, _, _, schema, _) => schema
    case Join(_, _, _, _, schema) => schema
    case Sort(input, _) => Schema(input)
    case Limit(input, _, _) => Schema(input)
    case Distinct(input) => Schema(input)
    case Values(_, schema) => schema
    case Empty(schema) => schema
    case SetOperation(_, _, _, _, schema) => schema
    case WithCte(_, body) => Schema(body)
  }

  function OptSchema(o: OptimizedPlan): PlanSchema {
    match o
    case TableScan(_, schema, _) => schema
    case Filter(input, _) => OptSchema(input)
    case Project(_, _, schema) => schema
    case HashAggregate(_, _, _, schema, _) => schema
    case NestedLoopJoin(_, _, _, _, schema) => schema
    case CrossJoin(_, _, schema) => schema
    case HashJoin(_, _, _, _, schema) => schema
    case Sort(input, _) => OptSchema(input)
    case Limit(input, _, _) => OptSchema(input)
    case TopN(input, _, _) => OptSchema(input)
    case Distinct(input) => OptSchema(input)
    case Values(_, schema) => schema
    case Empty(schema) => schema
    case Union(_, _, schema) => schema
    case Intersect(_, _, _, schema) => schema
    case Except(_, _, _, schema) => schema
    case WithCte(_, body) => OptSchema(body)
  }

  // ---------- From logical to optimized ----------

  function FilterIf(o: OptimizedPlan, condition: Option<Expr>): OptimizedPlan {
    if condition.Some? then OptimizedPlan.Filter(o, condition.value) else o
  }

  /** An inner join: a hash join when the whole condition is equi-keys, a nested loop otherwise. */
  function PlanInnerJoin(l: OptimizedPlan, r: OptimizedPlan, on: Option<Expr>, schema: PlanSchema, leftWidth: nat): OptimizedPlan {
    if on.Some? && KeysOf(on.value, leftWidth).Some? then
      OptimizedPlan.HashJoin(l, r, Inner, KeysOf(on.value, leftWidth).value, schema)
    else
      OptimizedPlan.NestedLoopJoin(l, r, Inner, on, schema)
  }

  predicate FilterOnInnerJoin(p: LogicalPlan) {
    p.Filter? && p.input.Join? && p.input.joinType.Inner?
  }

  function Plan(p: LogicalPlan): OptimizedPlan
    decreases p
  {
    match p
    case Scan(tableName, schema, projection) => OptimizedPlan.TableScan(tableName, schema, projection)
    case Filter(input, condition) =>
      if FilterOnInnerJoin(p) then
        var leftWidth := |Schema(input.left)|;
        var parts := PartitionConjuncts(SplitAnd(condition), leftWidth);
        var l := FilterIf(Plan(input.left), CombinePredicates(parts.left));
        var r := FilterIf(Plan(input.right), CombinePredicates(parts.right));
        FilterIf(PlanInnerJoin(l, r, input.on, input.schema, leftWidth), CombinePredicates(parts.post))
      else
        OptimizedPlan.Filter(Plan(input), condition)
    case Project(input, expressions, schema) => OptimizedPlan.Project(Plan(input), expressions, schema)
    case Aggregate(input, groupBy, aggregates, schema, groupingSets) =>
      OptimizedPlan.HashAggregate(Plan(input), groupBy, aggregates, schema, groupingSets)
    case Join(l, r, joinType, on, schema) =>
      (match joinType
       case Cross => OptimizedPlan.CrossJoin(Plan(l), Plan(r), schema)
       case Inner => PlanInnerJoin(Plan(l), Plan(r), on, schema, |Schema(l)|)
       case _ => OptimizedPlan.NestedLoopJoin(Plan(l), Plan(r), joinType, on, schema))
    case Sort(input, sortExprs) => OptimizedPlan.Sort(Plan(input), sortExprs)
    case Limit(input, limit, offset) =>
      if input.Sort? && limit.Some? && offset.None? then
        OptimizedPlan.TopN(Plan(input.input), input.sortExprs, limit.value)
      else
        OptimizedPlan.Limit(Plan(input), limit, offset)
    case Distinct(input) => OptimizedPlan.Distinct(Plan(input))
    case Values(values, schema) => OptimizedPlan.Values(values, schema)
    case Empty(schema) => OptimizedPlan.Empty(schema)
    case SetOperation(l, r, op, all, schema) =>
      (match op
       case Union => OptimizedPlan.Union([Plan(l), Plan(r)], all, schema)
       case Intersect => OptimizedPlan.Intersect(Plan(l), Plan(r), all, schema)
       case Except => OptimizedPlan.Except(Plan(l), Plan(r), all, schema))
    case WithCte(ctes, body) => OptimizedPlan.WithCte(PlanCtes(ctes), Plan(body))
  }

  /** A CTE keeps a logical query: the optimized one, turned back. */
  function PlanCtes(ctes: seq<CteDefinition>): (r: seq<CteDefinition>)
    ensures |r| == |ctes|
    decreases ctes
  {
    if ctes == [] then []
    else [ctes[0].(query := IntoLogical(Plan(ctes[0].query)))] + PlanCtes(ctes[1..])
  }

  // ---------- And back ----------

  function IntoLogical(o: OptimizedPlan): LogicalPlan
    decreases o
  {
    match o
    case TableScan(tableName, schema, projection) => LogicalPlan.Scan(tableName, schema, projection)
    case Filter(input, condition) => LogicalPlan.Filter(IntoLogical(input), condition)
    case Project(input, expressions, schema) => LogicalPlan.Project(IntoLogical(input), expressions, schema)
    case HashAggregate(input, groupBy, aggregates, schema, groupingSets) =>
      LogicalPlan.Aggregate(IntoLogical(input), groupBy, aggregates, schema, groupingSets)
    case NestedLoopJoin(l, r, joinType, on, schema) => LogicalPlan.Join(IntoLogical(l), IntoLogical(r), joinType, on, schema)
    case CrossJoin(l, r, schema) => LogicalPlan.Join(IntoLogical(l), IntoLogical(r), Cross, None, schema)
    case HashJoin(l, r, joinType, keys, schema) =>
      var on := if |keys.left| == |keys.right| then RestoredCondition(keys, |OptSchema(l)|) else None;
      LogicalPlan.Join(IntoLogical(l), IntoLogical(r), joinType, on, schema)
    case Sort(input, sortExprs) => LogicalPlan.Sort(IntoLogical(input), sortExprs)
    case Limit(input, limit, offset) => LogicalPlan.Limit(IntoLogical(input), limit, offset)
    case TopN(input, sortExprs, count) => LogicalPlan.Limit(LogicalPlan.Sort(IntoLogical(input), sortExprs), Some(count), None)
    case Distinct(input) => LogicalPlan.Distinct(IntoLogical(input))
    case Values(values, schema) => LogicalPlan.Values(values, schema)
    case Empty(schema) => LogicalPlan.Empty(schema)
    case Union(inputs, all, schema) => if inputs == [] then LogicalPlan.Empty(schema) else FoldUnion(inputs, all, schema)
    case Intersect(l, r, all, schema) => LogicalPlan.SetOperation(IntoLogical(l), IntoLogical(r), SetOperationType.Intersect, all, schema)
    case Except(l, r, all, schema) => LogicalPlan.SetOperation(IntoLogical(l), IntoLogical(r), SetOperationType.Except, all, schema)
    case WithCte(ctes, body) => LogicalPlan.WithCte(ctes, IntoLogical(body))
  }

  function FoldUnion(inputs: seq<OptimizedPlan>, all: bool, schema: PlanSchema): LogicalPlan
    requires inputs != []
    decreases inputs, |inputs|
  {
    var n := |inputs| - 1;
    assert inputs[n] in inputs;
    if n == 0 then IntoLogical(inputs[0])
    else LogicalPlan.SetOperation(FoldUnion(inputs[..n], all, schema), IntoLogical(inputs[n]), SetOperationType.Union, all, schema)
  }

  // ---------- Schemas survive both translations ----------

  /** `plan` keeps the schema, so the left width subtracted from key indices is the one added back. */
  lemma {:induction false} PlanKeepsSchema(p: LogicalPlan)
    ensures OptSchema(Plan(p)) == Schema(p)
    decreases p
  {
    hide PartitionConjuncts, SplitAnd, CombinePredicates, KeysOf, PlanCtes;
    match p
    case Filter(_, _) => FilterKeepsSchema(p);
    case Sort(input, _) => PlanKeepsSchema(input);
    case Limit(input, limit, offset) =>
      if input.Sort? && limit.Some? && offset.None? {
        PlanKeepsSchema(input.input);
      } else {
        PlanKeepsSchema(input);
      }
    case Distinct(input) => PlanKeepsSchema(input);
    case WithCte(_, body) => PlanKeepsSchema(body);
    case _ =>
  }

  lemma {:induction false} FilterKeepsSchema(p: LogicalPlan)
    requires p.Filter?
    ensures OptSchema(Plan(p)) == Schema(p)
    decreases p, 0
  {
    if !FilterOnInnerJoin(p) {
      PlanKeepsSchema(p.input);
    }
  }
}
