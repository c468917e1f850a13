/**
 The two translations of the optimizer, whole plans at a time: `Plan` agrees with the query it
 plans, `IntoLogical` means exactly what the optimized plan means, and one after the other
 preserves the query.
 */
module Translation {
  import opened Wrappers
  import opened Names
  import opened Ir
  import opened Evaluator
  import opened Predicates
  import opened EquiKeys
  import opened KeyTypes
  import opened Tables
  import opened Sorting
  import opened ResultSets
  import opened Plans
  import opened PlanSemantics
  import opened Pushdown
  import opened PlanProof

  // ---------- Going back ----------

  /** What `into_logical` relies on: hash joins are inner joins on columns, unions have several inputs. */
  predicate Restorable(o: OptimizedPlan)
    decreases o
  {
    match o
    case Filter(input, _) => Restorable(input)
    case Project(input, _, _) => Restorable(input)
    case HashAggregate(input, _, _, _, _) => Restorable(input)
    case NestedLoopJoin(l, r, _, _, _) => Restorable(l) && Restorable(r)
    case CrossJoin(l, r, _) => Restorable(l) && Restorable(r)
    case HashJoin(l, r, joinType, keys, _) =>
      joinType.Inner? && Restorable(l) && Restorable(r) && KeysInRange(keys, |OptSchema(l)|, |OptSchema(r)|)
    case Sort(input, _) => Restorable(input)
    case Limit(input, _, _) => Restorable(input)
    case TopN(input, _, _) => Restorable(input)
    case Distinct(input) => Restorable(input)
    case Union(inputs, _, _) => |inputs| >= 2 && forall i | 0 <= i < |inputs| :: Restorable(inputs[i])
    case Intersect(l, r, _, _) => Restorable(l) && Restorable(r)
    case Except(l, r, _, _) => Restorable(l) && Restorable(r)
    case WithCte(_, body) => Restorable(body)
    case _ => true
  }

  lemma {:induction false} BackKeepsSchema(o: OptimizedPlan)
    requires Restorable(o)
    ensures Schema(IntoLogical(o)) == OptSchema(o)
    decreases o
  {
    match o
    case Filter(input, _) => BackKeepsSchema(input);
    case Sort(input, _) => BackKeepsSchema(input);
    case Limit(input, _, _) => BackKeepsSchema(input);
    case TopN(input, _, _) => BackKeepsSchema(input);
    case Distinct(input) => BackKeepsSchema(input);
    case WithCte(_, body) => BackKeepsSchema(body);
    case _ =>
  }

  lemma RestoredJoinSame(s: Results, u: Results, env: Env, keys: JoinKeys, lts: seq<DataType>, rts: seq<DataType>)
    requires ResultsConform(s, lts) && ResultsConform(u, rts) && KeysInRange(keys, |lts|, |rts|)
    requires EquiJoinSafe(RestoredCondition(keys, |lts|), lts, rts)
    ensures Lift2(s, u, JoinStep(env, Inner, RestoredCondition(keys, |lts|), |lts|, |rts|)) == Lift2(s, u, HashJoinStep(env, keys))
  {
    ExtractRestored(keys, |lts|, |rts|);
    var on := RestoredCondition(keys, |lts|);
    forall t, v: TableResult | t in s && v in u
      ensures JoinStep(env, Inner, on, |lts|, |rts|)(t, v) == HashJoinStep(env, keys)(t, v)
    {
      HashJoinExact(env, on.value, t, v, lts, rts);
    }
    Lift2Same(s, u, JoinStep(env, Inner, on, |lts|, |rts|), HashJoinStep(env, keys));
  }

  lemma HashJoinBackForm(pe: PlanEnv, cat: Catalog, o: OptimizedPlan)
    requires o.HashJoin? && Restorable(o) && WellPlanned(pe, cat, IntoLogical(o))
    ensures Restorable(o.left) && Restorable(o.right) && o.joinType.Inner? && KeysInRange(o.keys, |OptSchema(o.left)|, |OptSchema(o.right)|)
    ensures |o.keys.left| == |o.keys.right|
    ensures var l, r, on := IntoLogical(o.left), IntoLogical(o.right), RestoredCondition(o.keys, |OptSchema(o.left)|);
            && WellPlanned(pe, cat, l) && WellPlanned(pe, cat, r)
            && EquiJoinSafe(on, Types(Schema(l)), Types(Schema(r)))
            && IntoLogical(o) == LogicalPlan.Join(l, r, Inner, on, o.schema)
  {
    hide EquiJoinSafe, RestoredCondition, Schema, OptSchema;
  }

  lemma {:induction false} BackHashJoin(pe: PlanEnv, cat: Catalog, db: Db, o: OptimizedPlan)
    requires o.HashJoin? && Restorable(o) && WellPlanned(pe, cat, IntoLogical(o)) && DbConforms(db, cat)
    ensures ResultsOf(pe, db, IntoLogical(o)) == OptResultsOf(pe, db, o)
    decreases o, 0
  {
    hide *;
    HashJoinBackForm(pe, cat, o);
    var l, r := IntoLogical(o.left), IntoLogical(o.right);
    BackKeepsSchema(o.left);
    BackKeepsSchema(o.right);
    BackSame(pe, cat, db, o.left);
    BackSame(pe, cat, db, o.right);
    RowsFitSchema(pe, cat, db, l);
    RowsFitSchema(pe, cat, db, r);
    var on := RestoredCondition(o.keys, |Schema(l)|);
    RestoredJoinSame(ResultsOf(pe, db, l), ResultsOf(pe, db, r), pe.env, o.keys, Types(Schema(l)), Types(Schema(r)));
    JoinResults(pe, db, l, r, Inner, on, o.schema);
    HashJoinResults(pe, db, o.left, o.right, o.keys, o.schema);
  }

  lemma LoopJoinBackForm(pe: PlanEnv, cat: Catalog, o: OptimizedPlan)
    requires o.NestedLoopJoin? || o.CrossJoin?
    requires Restorable(o) && WellPlanned(pe, cat, IntoLogical(o))
    ensures Restorable(o.left) && Restorable(o.right) && WellPlanned(pe, cat, IntoLogical(o.left)) && WellPlanned(pe, cat, IntoLogical(o.right))
    ensures var l, r := IntoLogical(o.left), IntoLogical(o.right);
            IntoLogical(o) == if o.CrossJoin? then LogicalPlan.Join(l, r, Cross, None, o.schema) else LogicalPlan.Join(l, r, o.joinType, o.on, o.schema)
  {
    hide EquiJoinSafe, Schema;
  }

  lemma {:induction false} BackLoopJoin(pe: PlanEnv, cat: Catalog, db: Db, o: OptimizedPlan)
    requires o.NestedLoopJoin? || o.CrossJoin?
    requires Restorable(o) && WellPlanned(pe, cat, IntoLogical(o)) && DbConforms(db, cat)
    ensures ResultsOf(pe, db, IntoLogical(o)) == OptResultsOf(pe, db, o)
    decreases o, 0
  {
    hide *;
    LoopJoinBackForm(pe, cat, o);
    var l, r := IntoLogical(o.left), IntoLogical(o.right);
    BackKeepsSchema(o.left);
    BackKeepsSchema(o.right);
    BackSame(pe, cat, db, o.left);
    BackSame(pe, cat, db, o.right);
    if o.CrossJoin? {
      JoinResults(pe, db, l, r, Cross, None, o.schema);
      CrossJoinResults(pe, db, o.left, o.right, o.schema);
    } else {
      JoinResults(pe, db, l, r, o.joinType, o.on, o.schema);
      LoopJoinResults(pe, db, o.left, o.right, o.joinType, o.on, o.schema);
    }
  }

  lemma TopNBackForm(pe: PlanEnv, cat: Catalog, o: OptimizedPlan)
    requires o.TopN? && Restorable(o) && WellPlanned(pe, cat, IntoLogical(o))
    ensures Restorable(o.input) && WellPlanned(pe, cat, IntoLogical(o.input))
    ensures KeysSortable(pe.env, o.sortExprs, Types(Schema(IntoLogical(o.input))))
    ensures IntoLogical(o) == LogicalPlan.Limit(LogicalPlan.Sort(IntoLogical(o.input), o.sortExprs), Some(o.count), None)
  {
    hide KeysSortable, Schema;
  }

  lemma {:induction false} BackTopN(pe: PlanEnv, cat: Catalog, db: Db, o: OptimizedPlan)
    requires o.TopN? && Restorable(o) && WellPlanned(pe, cat, IntoLogical(o)) && DbConforms(db, cat)
    ensures ResultsOf(pe, db, IntoLogical(o)) == OptResultsOf(pe, db, o)
    decreases o, 0
  {
    hide *;
    TopNBackForm(pe, cat, o);
    var input := IntoLogical(o.input);
    BackSame(pe, cat, db, o.input);
    RowsFitSchema(pe, cat, db, input);
    SortResults(pe, db, input, o.sortExprs);
    LimitResults(pe, db, LogicalPlan.Sort(input, o.sortExprs), Some(o.count), None);
    TopNResults(pe, db, o.input, o.sortExprs, o.count);
    SortLimitResults(ResultsOf(pe, db, input), pe.env, o.sortExprs, o.count, Types(Schema(input)));
  }

  lemma UnaryBackForm(pe: PlanEnv, cat: Catalog, o: OptimizedPlan)
    requires o.Filter? || o.Project? || o.HashAggregate? || o.Sort? || o.Limit? || o.Distinct?
    requires Restorable(o) && WellPlanned(pe, cat, IntoLogical(o))
    ensures Restorable(o.input) && WellPlanned(pe, cat, IntoLogical(o.input))
    ensures var p := IntoLogical(o.input);
            IntoLogical(o) == match o
                              case Filter(_, e) => LogicalPlan.Filter(p, e)
                              case Project(_, es, schema) => LogicalPlan.Project(p, es, schema)
                              case HashAggregate(_, gs, es, schema, sets) => LogicalPlan.Aggregate(p, gs, es, schema, sets)
                              case Sort(_, keys) => LogicalPlan.Sort(p, keys)
                              case Limit(_, limit, offset) => LogicalPlan.Limit(p, limit, offset)
                              case Distinct(_) => LogicalPlan.Distinct(p)
  {
    hide ExprHasType, RowsConform, Schema, Resolved, KeysSortable;
  }

  lemma {:induction false} BackUnary(pe: PlanEnv, cat: Catalog, db: Db, o: OptimizedPlan)
    requires o.Filter? || o.Project? || o.HashAggregate? || o.Sort? || o.Limit? || o.Distinct?
    requires Restorable(o) && WellPlanned(pe, cat, IntoLogical(o)) && DbConforms(db, cat)
    ensures ResultsOf(pe, db, IntoLogical(o)) == OptResultsOf(pe, db, o)
    decreases o, 0
  {
    hide *;
    UnaryBackForm(pe, cat, o);
    BackSame(pe, cat, db, o.input);
    var p := IntoLogical(o.input);
    match o
    case Filter(input, e) => FilterResults(pe, db, p, e); OptFilterResults(pe, db, input, e);
    case Project(input, es, schema) => ProjectResults(pe, db, p, es, schema); OptProjectResults(pe, db, input, es, schema);
    case HashAggregate(input, gs, es, schema, sets) =>
      AggregateResults(pe, db, p, gs, es, schema, sets);
      HashAggregateResults(pe, db, input, gs, es, schema, sets);
    case Sort(input, keys) => SortResults(pe, db, p, keys); OptSortResults(pe, db, input, keys);
    case Limit(input, limit, offset) => LimitResults(pe, db, p, limit, offset); OptLimitResults(pe, db, input, limit, offset);
    case Distinct(input) => DistinctResults(pe, db, p); OptDistinctResults(pe, db, input);
  }

  lemma SetOpBackForm(pe: PlanEnv, cat: Catalog, o: OptimizedPlan)
    requires o.Intersect? || o.Except?
    requires Restorable(o) && WellPlanned(pe, cat, IntoLogical(o))
    ensures Restorable(o.left) && Restorable(o.right) && WellPlanned(pe, cat, IntoLogical(o.left)) && WellPlanned(pe, cat, IntoLogical(o.right))
    ensures var op := if o.Intersect? then SetOperationType.Intersect else SetOperationType.Except;
            IntoLogical(o) == LogicalPlan.SetOperation(IntoLogical(o.left), IntoLogical(o.right), op, o.all, o.schema)
  {
    hide Fits, Schema, OptSchema, FoldUnion, RestoredCondition, ExprHasType, RowsConform, CtesWellPlanned, EquiJoinSafe, KeysSortable, Resolved;
  }

  lemma {:induction false} BackSetOp(pe: PlanEnv, cat: Catalog, db: Db, o: OptimizedPlan)
    requires o.Intersect? || o.Except?
    requires Restorable(o) && WellPlanned(pe, cat, IntoLogical(o)) && DbConforms(db, cat)
    ensures ResultsOf(pe, db, IntoLogical(o)) == OptResultsOf(pe, db, o)
    decreases o, 0
  {
    hide *;
    SetOpBackForm(pe, cat, o);
    BackSame(pe, cat, db, o.left);
    BackSame(pe, cat, db, o.right);
    var op := if o.Intersect? then SetOperationType.Intersect else SetOperationType.Except;
    SetOpResults(pe, db, IntoLogical(o.left), IntoLogical(o.right), op, o.all, o.schema);
    if o.Intersect? {
      IntersectResults(pe, db, o.left, o.right, o.all, o.schema);
    } else {
      ExceptResults(pe, db, o.left, o.right, o.all, o.schema);
    }
  }

  lemma FoldForm(pe: PlanEnv, cat: Catalog, db: Db, inputs: seq<OptimizedPlan>, all: bool, schema: PlanSchema)
    requires inputs != [] && (forall i | 0 <= i < |inputs| :: Restorable(inputs[i])) && WellPlanned(pe, cat, FoldUnion(inputs, all, schema))
    ensures var n := |inputs| - 1;
            && inputs[n] in inputs && Restorable(inputs[n]) && WellPlanned(pe, cat, IntoLogical(inputs[n]))
            && if n == 0 then
                 FoldUnion(inputs, all, schema) == IntoLogical(inputs[0]) && FoldResults(pe, db, inputs, all) == OptResultsOf(pe, db, inputs[0])
               else
                 && WellPlanned(pe, cat, FoldUnion(inputs[..n], all, schema))
                 && FoldUnion(inputs, all, schema) == LogicalPlan.SetOperation(FoldUnion(inputs[..n], all, schema), IntoLogical(inputs[n]), SetOperationType.Union, all, schema)
                 && FoldResults(pe, db, inputs, all) == Lift2(FoldResults(pe, db, inputs[..n], all), OptResultsOf(pe, db, inputs[n]), SetOpStep(SetOperationType.Union, all))
  {
    hide Fits, Schema, OptResultsOf, Restorable, SetOpStep, IntoLogical;
  }

  lemma {:induction false} BackUnion(pe: PlanEnv, cat: Catalog, db: Db, inputs: seq<OptimizedPlan>, all: bool, schema: PlanSchema)
    requires inputs != [] && forall i | 0 <= i < |inputs| :: Restorable(inputs[i])
    requires WellPlanned(pe, cat, FoldUnion(inputs, all, schema)) && DbConforms(db, cat)
    ensures ResultsOf(pe, db, FoldUnion(inputs, all, schema)) == FoldResults(pe, db, inputs, all)
    decreases inputs, |inputs|
  {
    hide *;
    FoldForm(pe, cat, db, inputs, all, schema);
    var n := |inputs| - 1;
    BackSame(pe, cat, db, inputs[n]);
    if n > 0 {
      BackUnion(pe, cat, db, inputs[..n], all, schema);
      SetOpResults(pe, db, FoldUnion(inputs[..n], all, schema), IntoLogical(inputs[n]), SetOperationType.Union, all, schema);
    }
  }

  /** `into_logical` is exact: the logical plan it gives may produce just what the optimized plan may, failure included. */
  lemma {:induction false} BackSame(pe: PlanEnv, cat: Catalog, db: Db, o: OptimizedPlan)
    requires Restorable(o) && WellPlanned(pe, cat, IntoLogical(o)) && DbConforms(db, cat)
    ensures ResultsOf(pe, db, IntoLogical(o)) == OptResultsOf(pe, db, o)
    decreases o
  {
    hide *;
    match o
    case HashJoin(_, _, _, _, _) => BackHashJoin(pe, cat, db, o);
    case NestedLoopJoin(_, _, _, _, _) => BackLoopJoin(pe, cat, db, o);
    case CrossJoin(_, _, _) => BackLoopJoin(pe, cat, db, o);
    case TopN(_, _, _) => BackTopN(pe, cat, db, o);
    case Filter(_, _) => BackUnary(pe, cat, db, o);
    case Project(_, _, _) => BackUnary(pe, cat, db, o);
    case HashAggregate(_, _, _, _, _) => BackUnary(pe, cat, db, o);
    case Sort(_, _) => BackUnary(pe, cat, db, o);
    case Limit(_, _, _) => BackUnary(pe, cat, db, o);
    case Distinct(_) => BackUnary(pe, cat, db, o);
    case Union(_, _, _) => BackUnionPlan(pe, cat, db, o);
    case Intersect(_, _, _, _) => BackSetOp(pe, cat, db, o);
    case Except(_, _, _, _) => BackSetOp(pe, cat, db, o);
    case WithCte(_, _) => BackWithCte(pe, cat, db, o);
    case _ => BackLeaf(pe, db, o);
  }

  lemma BackLeaf(pe: PlanEnv, db: Db, o: OptimizedPlan)
    requires o.TableScan? || o.Values? || o.Empty?
    ensures ResultsOf(pe, db, IntoLogical(o)) == OptResultsOf(pe, db, o)
  {
  }

  lemma {:induction false} BackUnionPlan(pe: PlanEnv, cat: Catalog, db: Db, o: OptimizedPlan)
    requires o.Union? && Restorable(o) && WellPlanned(pe, cat, IntoLogical(o)) && DbConforms(db, cat)
    ensures ResultsOf(pe, db, IntoLogical(o)) == OptResultsOf(pe, db, o)
    decreases o, 0
  {
    hide *;
    UnionBackForm(o);
    BackUnion(pe, cat, db, o.inputs, o.all, o.schema);
    UnionResults(pe, db, o.inputs, o.all, o.schema);
  }

  lemma UnionBackForm(o: OptimizedPlan)
    requires o.Union? && Restorable(o)
    ensures |o.inputs| >= 2 && forall i | 0 <= i < |o.inputs| :: Restorable(o.inputs[i])
    ensures IntoLogical(o) == FoldUnion(o.inputs, o.all, o.schema)
  {
    hide FoldUnion;
  }

  lemma {:induction false} BackWithCte(pe: PlanEnv, cat: Catalog, db: Db, o: OptimizedPlan)
    requires o.WithCte? && Restorable(o) && WellPlanned(pe, cat, IntoLogical(o)) && DbConforms(db, cat)
    ensures ResultsOf(pe, db, IntoLogical(o)) == OptResultsOf(pe, db, o)
    decreases o, 0
  {
    hide *;
    WithCteBackForm(pe, cat, o);
    CtesFitCatalog(pe, cat, db, o.ctes);
    forall d | Some(d) in CteResults(pe, db, o.ctes)
      ensures ResultsOf(pe, d, IntoLogical(o.body)) == OptResultsOf(pe, d, o.body)
    {
      BackSame(pe, CteCatalog(cat, o.ctes), d, o.body);
    }
    SameBody(pe, db, o.ctes, o.ctes, IntoLogical(o.body), o.body);
  }

  lemma WithCteBackForm(pe: PlanEnv, cat: Catalog, o: OptimizedPlan)
    requires o.WithCte? && Restorable(o) && WellPlanned(pe, cat, IntoLogical(o))
    ensures Restorable(o.body) && CtesWellPlanned(pe, cat, o.ctes) && WellPlanned(pe, CteCatalog(cat, o.ctes), IntoLogical(o.body))
    ensures IntoLogical(o) == LogicalPlan.WithCte(o.ctes, IntoLogical(o.body))
  {
    hide CtesWellPlanned, CteCatalog, FoldUnion, RestoredCondition;
  }

  lemma SameBody(pe: PlanEnv, db: Db, ctes: seq<CteDefinition>, ctes': seq<CteDefinition>, body: LogicalPlan, o: OptimizedPlan)
    requires CteResults(pe, db, ctes) == CteResults(pe, db, ctes')
    requires forall d | Some(d) in CteResults(pe, db, ctes) :: ResultsOf(pe, d, body) == OptResultsOf(pe, d, o)
    ensures ResultsOf(pe, db, LogicalPlan.WithCte(ctes, body)) == OptResultsOf(pe, db, OptimizedPlan.WithCte(ctes', o))
  {
    hide *;
    WithCteMembers(pe, db, ctes, body);
    OptWithCteMembers(pe, db, ctes', o);
    forall t: TableResult
      ensures t in ResultsOf(pe, db, LogicalPlan.WithCte(ctes, body)) <==> t in OptResultsOf(pe, db, OptimizedPlan.WithCte(ctes', o))
    {
    }
  }

  // ---------- What each form of query is planned as ----------

  lemma FilteredJoinForm(pe: PlanEnv, cat: Catalog, p: LogicalPlan)
    requires FilterOnInnerJoin(p) && WellPlanned(pe, cat, p)
    ensures var j := p.input;
            && WellPlanned(pe, cat, j.left) && WellPlanned(pe, cat, j.right)
            && EquiJoinSafe(j.on, Types(Schema(j.left)), Types(Schema(j.right)))
            && Resolved(p.condition, |Schema(j.left)| + |Schema(j.right)|)
            && Plan(p) == PushedPlan(Plan(j.left), Plan(j.right), j.on, j.schema, p.condition, |Schema(j.left)|)
  {
    hide EquiJoinSafe, Resolved, PartitionConjuncts, SplitAnd, CombinePredicates, PlanInnerJoin;
  }

  lemma JoinForm(pe: PlanEnv, cat: Catalog, p: LogicalPlan)
    requires p.Join? && WellPlanned(pe, cat, p)
    ensures WellPlanned(pe, cat, p.left) && WellPlanned(pe, cat, p.right)
    ensures p.joinType.Inner? ==> EquiJoinSafe(p.on, Types(Schema(p.left)), Types(Schema(p.right)))
    ensures p.joinType.Inner? ==> Plan(p) == PlanInnerJoin(Plan(p.left), Plan(p.right), p.on, p.schema, |Schema(p.left)|)
    ensures p.joinType.Cross? ==> Plan(p) == OptimizedPlan.CrossJoin(Plan(p.left), Plan(p.right), p.schema)
    ensures !p.joinType.Inner? && !p.joinType.Cross? ==> Plan(p) == OptimizedPlan.NestedLoopJoin(Plan(p.left), Plan(p.right), p.joinType, p.on, p.schema)
  {
    hide EquiJoinSafe, PlanInnerJoin;
  }

  lemma LimitForm(pe: PlanEnv, cat: Catalog, p: LogicalPlan)
    requires p.Limit? && WellPlanned(pe, cat, p)
    ensures WellPlanned(pe, cat, p.input)
    ensures if p.input.Sort? && p.limit.Some? && p.offset.None? then
              var input := p.input.input;
              && WellPlanned(pe, cat, input)
              && KeysSortable(pe.env, p.input.sortExprs, Types(Schema(input)))
              && Plan(p) == OptimizedPlan.TopN(Plan(input), p.input.sortExprs, p.limit.value)
            else Plan(p) == OptimizedPlan.Limit(Plan(p.input), p.limit, p.offset)
  {
    hide KeysSortable;
  }

  lemma SetOpForm(pe: PlanEnv, cat: Catalog, p: LogicalPlan)
    requires p.SetOperation? && WellPlanned(pe, cat, p)
    ensures WellPlanned(pe, cat, p.left) && WellPlanned(pe, cat, p.right)
    ensures p.op.Union? ==> Plan(p) == OptimizedPlan.Union([Plan(p.left), Plan(p.right)], p.all, p.schema)
    ensures p.op.Intersect? ==> Plan(p) == OptimizedPlan.Intersect(Plan(p.left), Plan(p.right), p.all, p.schema)
    ensures p.op.Except? ==> Plan(p) == OptimizedPlan.Except(Plan(p.left), Plan(p.right), p.all, p.schema)
  {
    hide Fits;
  }

  lemma UnaryForm(pe: PlanEnv, cat: Catalog, p: LogicalPlan)
    requires (p.Filter? && !FilterOnInnerJoin(p)) || p.Project? || p.Aggregate? || p.Sort? || p.Distinct?
    requires WellPlanned(pe, cat, p)
    ensures WellPlanned(pe, cat, p.input)
    ensures var o := Plan(p.input);
            Plan(p) == match p
                       case Filter(_, e) => OptimizedPlan.Filter(o, e)
                       case Project(_, es, schema) => OptimizedPlan.Project(o, es, schema)
                       case Aggregate(_, gs, es, schema, sets) => OptimizedPlan.HashAggregate(o, gs, es, schema, sets)
                       case Sort(_, keys) => OptimizedPlan.Sort(o, keys)
                       case Distinct(_) => OptimizedPlan.Distinct(o)
  {
    hide ExprHasType, RowsConform;
  }

  lemma WithCteForm(pe: PlanEnv, cat: Catalog, p: LogicalPlan)
    requires p.WithCte? && WellPlanned(pe, cat, p)
    ensures CtesWellPlanned(pe, cat, p.ctes) && WellPlanned(pe, CteCatalog(cat, p.ctes), p.body)
    ensures Plan(p) == OptimizedPlan.WithCte(PlanCtes(p.ctes), Plan(p.body))
  {
    hide CtesWellPlanned, PlanCtes, CteCatalog;
  }

  lemma InnerJoinBelow(p: LogicalPlan)
    ensures FilterOnInnerJoin(p) ==> p.Filter? && p.input.Join?
  {
  }

  // ---------- Planning ----------

  /** Two sets of databases a chain of CTEs may leave agree where the chains do not fail. */
  ghost predicate DbsAgree(s: iset<Option<Db>>, u: iset<Option<Db>>) {
    forall db: Db ::
      && (Some(db) in u && None !in s ==> Some(db) in s)
      && (Some(db) in s && None !in u ==> Some(db) in u)
  }

  lemma WithCteMember(pe: PlanEnv, db: Db, ctes: seq<CteDefinition>, body: LogicalPlan, t: TableResult)
    ensures t in ResultsOf(pe, db, LogicalPlan.WithCte(ctes, body)) <==>
              (t.Failed? && None in CteResults(pe, db, ctes)) || exists d :: Some(d) in CteResults(pe, db, ctes) && t in ResultsOf(pe, d, body)
  {
    hide CteResults, Schema;
  }

  lemma OptWithCteMember(pe: PlanEnv, db: Db, ctes: seq<CteDefinition>, o: OptimizedPlan, t: TableResult)
    ensures t in OptResultsOf(pe, db, OptimizedPlan.WithCte(ctes, o)) <==>
              (t.Failed? && None in CteResults(pe, db, ctes)) || exists d :: Some(d) in CteResults(pe, db, ctes) && t in OptResultsOf(pe, d, o)
  {
    hide CteResults, OptSchema, InputResults;
  }

  lemma WithCteMembers(pe: PlanEnv, db: Db, ctes: seq<CteDefinition>, body: LogicalPlan)
    ensures forall t: TableResult :: t in ResultsOf(pe, db, LogicalPlan.WithCte(ctes, body)) <==>
              (t.Failed? && None in CteResults(pe, db, ctes)) || exists d :: Some(d) in CteResults(pe, db, ctes) && t in ResultsOf(pe, d, body)
  {
    hide *;
    forall t: TableResult
      ensures t in ResultsOf(pe, db, LogicalPlan.WithCte(ctes, body)) <==>
                (t.Failed? && None in CteResults(pe, db, ctes)) || exists d :: Some(d) in CteResults(pe, db, ctes) && t in ResultsOf(pe, d, body)
    {
      WithCteMember(pe, db, ctes, body, t);
    }
  }

  lemma OptWithCteMembers(pe: PlanEnv, db: Db, ctes: seq<CteDefinition>, o: OptimizedPlan)
    ensures forall t: TableResult :: t in OptResultsOf(pe, db, OptimizedPlan.WithCte(ctes, o)) <==>
              (t.Failed? && None in CteResults(pe, db, ctes)) || exists d :: Some(d) in CteResults(pe, db, ctes) && t in OptResultsOf(pe, d, o)
  {
    hide *;
    forall t: TableResult
      ensures t in OptResultsOf(pe, db, OptimizedPlan.WithCte(ctes, o)) <==>
                (t.Failed? && None in CteResults(pe, db, ctes)) || exists d :: Some(d) in CteResults(pe, db, ctes) && t in OptResultsOf(pe, d, o)
    {
      OptWithCteMember(pe, db, ctes, o, t);
    }
  }

  lemma AgreeWithCte(pe: PlanEnv, db: Db, ctes: seq<CteDefinition>, body: LogicalPlan, ctes': seq<CteDefinition>, o: OptimizedPlan, cat: Catalog)
    requires DbsAgree(CteResults(pe, db, ctes), CteResults(pe, db, ctes'))
    requires forall d | Some(d) in CteResults(pe, db, ctes) :: DbConforms(d, cat)
    requires forall d | DbConforms(d, cat) :: Agree(ResultsOf(pe, d, body), OptResultsOf(pe, d, o))
    ensures Agree(ResultsOf(pe, db, LogicalPlan.WithCte(ctes, body)), OptResultsOf(pe, db, OptimizedPlan.WithCte(ctes', o)))
  {
    var s, u := ResultsOf(pe, db, LogicalPlan.WithCte(ctes, body)), OptResultsOf(pe, db, OptimizedPlan.WithCte(ctes', o));
    WithCteMembers(pe, db, ctes, body);
    OptWithCteMembers(pe, db, ctes', o);
    hide ResultsOf, OptResultsOf, CteResults, DbConforms;
    forall out: TableResult | out.Table? && out in u && Failed !in s
      ensures out in s
    {
      var d :| Some(d) in CteResults(pe, db, ctes') && out in OptResultsOf(pe, d, o);
      assert Some(d) in CteResults(pe, db, ctes);
    }
    forall out: TableResult | out.Table? && out in s && Failed !in u
      ensures out in u
    {
      var d :| Some(d) in CteResults(pe, db, ctes) && out in ResultsOf(pe, d, body);
      assert Some(d) in CteResults(pe, db, ctes');
    }
  }

  /**
   The optimizer preserves meaning: for every well-planned query and every database, a table the
   optimized plan may produce is one the query may produce, and the other way round, unless the
   other may fail.
   */
  lemma {:induction false} PlanAgrees(pe: PlanEnv, cat: Catalog, db: Db, p: LogicalPlan)
    requires WellPlanned(pe, cat, p) && DbConforms(db, cat)
    ensures Agree(ResultsOf(pe, db, p), OptResultsOf(pe, db, Plan(p)))
    decreases p
  {
    hide *;
    match p
    case Filter(_, _) => PlanAgreesFilter(pe, cat, db, p);
    case Join(_, _, _, _, _) => PlanAgreesJoin(pe, cat, db, p);
    case Limit(_, _, _) => PlanAgreesLimit(pe, cat, db, p);
    case SetOperation(_, _, _, _, _) => PlanAgreesSetOp(pe, cat, db, p);
    case WithCte(_, _) => PlanAgreesWithCte(pe, cat, db, p);
    case Project(_, _, _) => PlanAgreesUnary(pe, cat, db, p);
    case Aggregate(_, _, _, _, _) => PlanAgreesUnary(pe, cat, db, p);
    case Sort(_, _) => PlanAgreesUnary(pe, cat, db, p);
    case Distinct(_) => PlanAgreesUnary(pe, cat, db, p);
    case _ => LeafAgrees(pe, db, p);
  }

  lemma LeafAgrees(pe: PlanEnv, db: Db, p: LogicalPlan)
    requires p.Scan? || p.Values? || p.Empty?
    ensures Agree(ResultsOf(pe, db, p), OptResultsOf(pe, db, Plan(p)))
  {
  }

  lemma {:induction false} PlanAgreesUnary(pe: PlanEnv, cat: Catalog, db: Db, p: LogicalPlan)
    requires p.Project? || p.Aggregate? || p.Sort? || p.Distinct?
    requires WellPlanned(pe, cat, p) && DbConforms(db, cat)
    ensures Agree(ResultsOf(pe, db, p), OptResultsOf(pe, db, Plan(p)))
    decreases p, 0
  {
    hide *;
    UnaryForm(pe, cat, p);
    PlanAgrees(pe, cat, db, p.input);
    match p
    case Project(input, es, schema) => ProjectAgrees(pe, db, input, Plan(input), es, schema);
    case Aggregate(input, groupBy, aggregates, schema, sets) => AggregateAgrees(pe, db, input, Plan(input), groupBy, aggregates, schema, sets);
    case Sort(input, keys) => SortAgrees(pe, db, input, Plan(input), keys);
    case Distinct(input) => DistinctAgrees(pe, db, input, Plan(input));
  }

  lemma FilterAgrees(pe: PlanEnv, db: Db, p: LogicalPlan, o: OptimizedPlan, e: Expr)
    requires Agree(ResultsOf(pe, db, p), OptResultsOf(pe, db, o))
    ensures Agree(ResultsOf(pe, db, LogicalPlan.Filter(p, e)), OptResultsOf(pe, db, OptimizedPlan.Filter(o, e)))
  {
    hide *;
    FilterResults(pe, db, p, e);
    OptFilterResults(pe, db, o, e);
    StepsStrict(pe, e, [], [], None, None, None);
    LiftAgrees(ResultsOf(pe, db, p), OptResultsOf(pe, db, o), FilterStep(pe.env, e));
  }

  lemma ProjectAgrees(pe: PlanEnv, db: Db, p: LogicalPlan, o: OptimizedPlan, es: seq<Expr>, schema: PlanSchema)
    requires Agree(ResultsOf(pe, db, p), OptResultsOf(pe, db, o))
    ensures Agree(ResultsOf(pe, db, LogicalPlan.Project(p, es, schema)), OptResultsOf(pe, db, OptimizedPlan.Project(o, es, schema)))
  {
    hide *;
    ProjectResults(pe, db, p, es, schema);
    OptProjectResults(pe, db, o, es, schema);
    StepsStrict(pe, Literal(Null), es, [], None, None, None);
    LiftAgrees(ResultsOf(pe, db, p), OptResultsOf(pe, db, o), ProjectStep(pe.env, es));
  }

  lemma AggregateAgrees(pe: PlanEnv, db: Db, p: LogicalPlan, o: OptimizedPlan, gs: seq<Expr>, es: seq<Expr>, schema: PlanSchema, sets: Option<seq<seq<nat>>>)
    requires Agree(ResultsOf(pe, db, p), OptResultsOf(pe, db, o))
    ensures Agree(ResultsOf(pe, db, LogicalPlan.Aggregate(p, gs, es, schema, sets)), OptResultsOf(pe, db, OptimizedPlan.HashAggregate(o, gs, es, schema, sets)))
  {
    hide *;
    AggregateResults(pe, db, p, gs, es, schema, sets);
    HashAggregateResults(pe, db, o, gs, es, schema, sets);
    StepsStrict(pe, Literal(Null), es, gs, sets, None, None);
    LiftAgrees(ResultsOf(pe, db, p), OptResultsOf(pe, db, o), AggregateStep(pe, gs, es, sets));
  }

  lemma LimitAgrees(pe: PlanEnv, db: Db, p: LogicalPlan, o: OptimizedPlan, limit: Option<nat>, offset: Option<nat>)
    requires Agree(ResultsOf(pe, db, p), OptResultsOf(pe, db, o))
    ensures Agree(ResultsOf(pe, db, LogicalPlan.Limit(p, limit, offset)), OptResultsOf(pe, db, OptimizedPlan.Limit(o, limit, offset)))
  {
    hide *;
    LimitResults(pe, db, p, limit, offset);
    OptLimitResults(pe, db, o, limit, offset);
    StepsStrict(pe, Literal(Null), [], [], None, limit, offset);
    LiftAgrees(ResultsOf(pe, db, p), OptResultsOf(pe, db, o), LimitStep(limit, offset));
  }

  lemma DistinctAgrees(pe: PlanEnv, db: Db, p: LogicalPlan, o: OptimizedPlan)
    requires Agree(ResultsOf(pe, db, p), OptResultsOf(pe, db, o))
    ensures Agree(ResultsOf(pe, db, LogicalPlan.Distinct(p)), OptResultsOf(pe, db, OptimizedPlan.Distinct(o)))
  {
    hide *;
    DistinctResults(pe, db, p);
    OptDistinctResults(pe, db, o);
    StepsStrict(pe, Literal(Null), [], [], None, None, None);
    LiftAgrees(ResultsOf(pe, db, p), OptResultsOf(pe, db, o), DistinctStep());
  }

  lemma SortAgrees(pe: PlanEnv, db: Db, p: LogicalPlan, o: OptimizedPlan, keys: seq<SortExpr>)
    requires Agree(ResultsOf(pe, db, p), OptResultsOf(pe, db, o))
    ensures Agree(ResultsOf(pe, db, LogicalPlan.Sort(p, keys)), OptResultsOf(pe, db, OptimizedPlan.Sort(o, keys)))
  {
    hide *;
    SortResults(pe, db, p, keys);
    OptSortResults(pe, db, o, keys);
    AgreeSort(ResultsOf(pe, db, p), OptResultsOf(pe, db, o), pe.env, keys);
  }

  lemma TopNAgrees(pe: PlanEnv, cat: Catalog, db: Db, p: LogicalPlan, o: OptimizedPlan, keys: seq<SortExpr>, count: nat)
    requires WellPlanned(pe, cat, p) && DbConforms(db, cat) && KeysSortable(pe.env, keys, Types(Schema(p)))
    requires Agree(ResultsOf(pe, db, p), OptResultsOf(pe, db, o))
    ensures Agree(ResultsOf(pe, db, LogicalPlan.Limit(LogicalPlan.Sort(p, keys), Some(count), None)),
                  OptResultsOf(pe, db, OptimizedPlan.TopN(o, keys, count)))
  {
    hide *;
    RowsFitSchema(pe, cat, db, p);
    SortResults(pe, db, p, keys);
    LimitResults(pe, db, LogicalPlan.Sort(p, keys), Some(count), None);
    TopNResults(pe, db, o, keys, count);
    AgreeTopN(ResultsOf(pe, db, p), OptResultsOf(pe, db, o), pe.env, keys, count, Types(Schema(p)));
  }

  lemma UnionAgrees(pe: PlanEnv, db: Db, l: LogicalPlan, r: LogicalPlan, ol: OptimizedPlan, or: OptimizedPlan, all: bool, schema: PlanSchema)
    requires Agree(ResultsOf(pe, db, l), OptResultsOf(pe, db, ol)) && Agree(ResultsOf(pe, db, r), OptResultsOf(pe, db, or))
    ensures Agree(ResultsOf(pe, db, LogicalPlan.SetOperation(l, r, SetOperationType.Union, all, schema)), OptResultsOf(pe, db, OptimizedPlan.Union([ol, or], all, schema)))
  {
    hide *;
    SetOpResults(pe, db, l, r, SetOperationType.Union, all, schema);
    UnionOfTwoResults(pe, db, ol, or, all, schema);
    AgreeSetOp(ResultsOf(pe, db, l), ResultsOf(pe, db, r), OptResultsOf(pe, db, ol), OptResultsOf(pe, db, or), SetOperationType.Union, all);
  }

  lemma IntersectAgrees(pe: PlanEnv, db: Db, l: LogicalPlan, r: LogicalPlan, ol: OptimizedPlan, or: OptimizedPlan, all: bool, schema: PlanSchema)
    requires Agree(ResultsOf(pe, db, l), OptResultsOf(pe, db, ol)) && Agree(ResultsOf(pe, db, r), OptResultsOf(pe, db, or))
    ensures Agree(ResultsOf(pe, db, LogicalPlan.SetOperation(l, r, SetOperationType.Intersect, all, schema)), OptResultsOf(pe, db, OptimizedPlan.Intersect(ol, or, all, schema)))
  {
    hide *;
    SetOpResults(pe, db, l, r, SetOperationType.Intersect, all, schema);
    IntersectResults(pe, db, ol, or, all, schema);
    AgreeSetOp(ResultsOf(pe, db, l), ResultsOf(pe, db, r), OptResultsOf(pe, db, ol), OptResultsOf(pe, db, or), SetOperationType.Intersect, all);
  }

  lemma ExceptAgrees(pe: PlanEnv, db: Db, l: LogicalPlan, r: LogicalPlan, ol: OptimizedPlan, or: OptimizedPlan, all: bool, schema: PlanSchema)
    requires Agree(ResultsOf(pe, db, l), OptResultsOf(pe, db, ol)) && Agree(ResultsOf(pe, db, r), OptResultsOf(pe, db, or))
    ensures Agree(ResultsOf(pe, db, LogicalPlan.SetOperation(l, r, SetOperationType.Except, all, schema)), OptResultsOf(pe, db, OptimizedPlan.Except(ol, or, all, schema)))
  {
    hide *;
    SetOpResults(pe, db, l, r, SetOperationType.Except, all, schema);
    ExceptResults(pe, db, ol, or, all, schema);
    AgreeSetOp(ResultsOf(pe, db, l), ResultsOf(pe, db, r), OptResultsOf(pe, db, ol), OptResultsOf(pe, db, or), SetOperationType.Except, all);
  }

  lemma {:induction false} PlanAgreesFilter(pe: PlanEnv, cat: Catalog, db: Db, p: LogicalPlan)
    requires p.Filter? && WellPlanned(pe, cat, p) && DbConforms(db, cat)
    ensures Agree(ResultsOf(pe, db, p), OptResultsOf(pe, db, Plan(p)))
    decreases p, 0
  {
    hide *;
    if FilterOnInnerJoin(p) {
      InnerJoinBelow(p);
      FilteredJoinForm(pe, cat, p);
      var j := p.input;
      var l, r := j.left, j.right;
      PlanAgrees(pe, cat, db, l);
      PlanAgrees(pe, cat, db, r);
      RowsFitSchema(pe, cat, db, l);
      RowsFitSchema(pe, cat, db, r);
      PlanKeepsSchema(l);
      PlanKeepsSchema(r);
      AgreePushed(ResultsOf(pe, db, l), ResultsOf(pe, db, r), OptResultsOf(pe, db, Plan(l)), OptResultsOf(pe, db, Plan(r)),
                  pe.env, p.condition, j.on, Types(Schema(l)), Types(Schema(r)));
      FilteredJoinResults(pe, db, p);
      PushedResults(pe, db, Plan(l), Plan(r), j.on, j.schema, p.condition);
    } else {
      UnaryForm(pe, cat, p);
      PlanAgrees(pe, cat, db, p.input);
      FilterAgrees(pe, db, p.input, Plan(p.input), p.condition);
    }
  }

  lemma {:induction false} PlanAgreesJoin(pe: PlanEnv, cat: Catalog, db: Db, p: LogicalPlan)
    requires p.Join? && WellPlanned(pe, cat, p) && DbConforms(db, cat)
    ensures Agree(ResultsOf(pe, db, p), OptResultsOf(pe, db, Plan(p)))
    decreases p, 0
  {
    hide *;
    var l, r, lw, rw := p.left, p.right, |Schema(p.left)|, |Schema(p.right)|;
    JoinForm(pe, cat, p);
    PlanAgrees(pe, cat, db, l);
    PlanAgrees(pe, cat, db, r);
    PlanKeepsSchema(l);
    PlanKeepsSchema(r);
    var s, u := ResultsOf(pe, db, l), ResultsOf(pe, db, r);
    var s', u' := OptResultsOf(pe, db, Plan(l)), OptResultsOf(pe, db, Plan(r));
    JoinResults(pe, db, l, r, p.joinType, p.on, p.schema);
    if p.joinType.Inner? {
      RowsFitSchema(pe, cat, db, l);
      RowsFitSchema(pe, cat, db, r);
      AgreeInnerJoin(s, u, s', u', pe.env, p.on, Types(Schema(l)), Types(Schema(r)));
      InnerJoinResults(pe, db, Plan(l), Plan(r), p.on, p.schema, lw, Plan(p));
    } else if p.joinType.Cross? {
      AgreeLoopJoin(s, u, s', u', pe.env, Cross, p.on, None, lw, rw);
      CrossJoinResults(pe, db, Plan(l), Plan(r), p.schema);
    } else {
      AgreeLoopJoin(s, u, s', u', pe.env, p.joinType, p.on, p.on, lw, rw);
      LoopJoinResults(pe, db, Plan(l), Plan(r), p.joinType, p.on, p.schema);
    }
  }

  lemma {:induction false} PlanAgreesLimit(pe: PlanEnv, cat: Catalog, db: Db, p: LogicalPlan)
    requires p.Limit? && WellPlanned(pe, cat, p) && DbConforms(db, cat)
    ensures Agree(ResultsOf(pe, db, p), OptResultsOf(pe, db, Plan(p)))
    decreases p, 0
  {
    hide *;
    LimitForm(pe, cat, p);
    if p.input.Sort? && p.limit.Some? && p.offset.None? {
      var input := p.input.input;
      PlanAgrees(pe, cat, db, input);
      TopNAgrees(pe, cat, db, input, Plan(input), p.input.sortExprs, p.limit.value);
    } else {
      PlanAgrees(pe, cat, db, p.input);
      LimitAgrees(pe, db, p.input, Plan(p.input), p.limit, p.offset);
    }
  }

  lemma {:induction false} PlanAgreesSetOp(pe: PlanEnv, cat: Catalog, db: Db, p: LogicalPlan)
    requires p.SetOperation? && WellPlanned(pe, cat, p) && DbConforms(db, cat)
    ensures Agree(ResultsOf(pe, db, p), OptResultsOf(pe, db, Plan(p)))
    decreases p, 0
  {
    hide *;
    SetOpForm(pe, cat, p);
    PlanAgrees(pe, cat, db, p.left);
    PlanAgrees(pe, cat, db, p.right);
    match p.op
    case Union => UnionAgrees(pe, db, p.left, p.right, Plan(p.left), Plan(p.right), p.all, p.schema);
    case Intersect => IntersectAgrees(pe, db, p.left, p.right, Plan(p.left), Plan(p.right), p.all, p.schema);
    case Except => ExceptAgrees(pe, db, p.left, p.right, Plan(p.left), Plan(p.right), p.all, p.schema);
  }

  lemma {:induction false} PlanAgreesWithCte(pe: PlanEnv, cat: Catalog, db: Db, p: LogicalPlan)
    requires p.WithCte? && WellPlanned(pe, cat, p) && DbConforms(db, cat)
    ensures Agree(ResultsOf(pe, db, p), OptResultsOf(pe, db, Plan(p)))
    decreases p, 0
  {
    hide *;
    WithCteForm(pe, cat, p);
    var cat' := CteCatalog(cat, p.ctes);
    CtesAgree(pe, cat, db, p.ctes);
    CtesFitCatalog(pe, cat, db, p.ctes);
    forall d | DbConforms(d, cat')
      ensures Agree(ResultsOf(pe, d, p.body), OptResultsOf(pe, d, Plan(p.body)))
    {
      PlanAgrees(pe, cat', d, p.body);
    }
    AgreeWithCte(pe, db, p.ctes, p.body, PlanCtes(p.ctes), Plan(p.body), cat');
  }

  /** A CTE's query, planned and turned back. */
  lemma {:induction false} CtesAgree(pe: PlanEnv, cat: Catalog, db: Db, ctes: seq<CteDefinition>)
    requires CtesWellPlanned(pe, cat, ctes) && DbConforms(db, cat)
    ensures DbsAgree(CteResults(pe, db, ctes), CteResults(pe, db, PlanCtes(ctes)))
    decreases ctes
  {
    hide *;
    if ctes == [] {
      NoCtes(pe, db);
    } else {
      FirstCte(pe, cat, ctes);
      var q := ctes[0].query;
      PlanAgrees(pe, cat, db, q);
      ReplannableQuery(pe, cat, q);
      ReplannableRestorable(pe, cat, Plan(q), Schema(q));
      BackSame(pe, cat, db, Plan(q));
      RowsFitSchema(pe, cat, db, q);
      var cat' := AddCte(cat, ctes[0]);
      forall rows | DbConforms(AddTable(db, ctes[0].name, rows), cat')
        ensures var d := AddTable(db, ctes[0].name, rows); DbsAgree(CteResults(pe, d, ctes[1..]), CteResults(pe, d, PlanCtes(ctes[1..])))
      {
        CtesAgree(pe, cat', AddTable(db, ctes[0].name, rows), ctes[1..]);
      }
      ChainAgrees(pe, cat, db, ctes, PlanCtes(ctes));
    }
  }

  lemma NoCtes(pe: PlanEnv, db: Db)
    ensures PlanCtes([]) == [] && DbsAgree(CteResults(pe, db, []), CteResults(pe, db, []))
  {
  }

  lemma FirstCte(pe: PlanEnv, cat: Catalog, ctes: seq<CteDefinition>)
    requires ctes != [] && CtesWellPlanned(pe, cat, ctes)
    ensures WellPlanned(pe, cat, ctes[0].query) && FiltersResolved(ctes[0].query) && CtesWellPlanned(pe, AddCte(cat, ctes[0]), ctes[1..])
    ensures PlanCtes(ctes) != [] && PlanCtes(ctes)[0] == ctes[0].(query := IntoLogical(Plan(ctes[0].query))) && PlanCtes(ctes)[1..] == PlanCtes(ctes[1..])
  {
    hide WellPlanned, FiltersResolved, AddCte, IntoLogical, Plan;
    assert PlanCtes(ctes)[1..] == PlanCtes(ctes[1..]);
  }

  lemma ChainAgrees(pe: PlanEnv, cat: Catalog, db: Db, ctes: seq<CteDefinition>, ctes': seq<CteDefinition>)
    requires ctes != [] && ctes' != [] && ctes[0].name == ctes'[0].name && DbConforms(db, cat)
    requires Agree(ResultsOf(pe, db, ctes[0].query), ResultsOf(pe, db, ctes'[0].query))
    requires ResultsConform(ResultsOf(pe, db, ctes[0].query), Types(Schema(ctes[0].query)))
    requires forall rows | DbConforms(AddTable(db, ctes[0].name, rows), AddCte(cat, ctes[0])) ::
               var d := AddTable(db, ctes[0].name, rows); DbsAgree(CteResults(pe, d, ctes[1..]), CteResults(pe, d, ctes'[1..]))
    ensures DbsAgree(CteResults(pe, db, ctes), CteResults(pe, db, ctes'))
  {
    var s, u := CteResults(pe, db, ctes), CteResults(pe, db, ctes');
    var name := ctes[0].name;
    forall d: Db | Some(d) in u && None !in s
      ensures Some(d) in s
    {
      var rows :| Table(rows) in ResultsOf(pe, db, ctes'[0].query) && Some(d) in CteResults(pe, AddTable(db, name, rows), ctes'[1..]);
      assert Table(rows) in ResultsOf(pe, db, ctes[0].query);
      assert DbConforms(AddTable(db, name, rows), AddCte(cat, ctes[0]));
      assert None !in CteResults(pe, AddTable(db, name, rows), ctes[1..]);
    }
    forall d: Db | Some(d) in s && None !in u
      ensures Some(d) in u
    {
      var rows :| Table(rows) in ResultsOf(pe, db, ctes[0].query) && Some(d) in CteResults(pe, AddTable(db, name, rows), ctes[1..]);
      assert Table(rows) in ResultsOf(pe, db, ctes'[0].query);
      assert DbConforms(AddTable(db, name, rows), AddCte(cat, ctes[0]));
      assert None !in CteResults(pe, AddTable(db, name, rows), ctes'[1..]);
    }
  }

  // ---------- Planned and turned back, a query is still well-planned ----------

  ghost predicate Replannable(pe: PlanEnv, cat: Catalog, o: OptimizedPlan, schema: PlanSchema) {
    && Restorable(o)
    && WellPlanned(pe, cat, IntoLogical(o))
    && FiltersResolved(IntoLogical(o))
    && OptSchema(o) == Schema(IntoLogical(o)) == schema
  }

  lemma {:induction false} CombinedResolved(ps: seq<Expr>, width: nat)
    requires ps != [] && forall c | c in ps :: Resolved(c, width)
    ensures Resolved(CombinePredicates(ps).value, width)
    decreases |ps|
  {
    if |ps| > 1 {
      CombinedResolved(ps[..|ps| - 1], width);
    }
  }

  lemma {:induction false} InRangeResolved(e: Expr, lo: nat, hi: nat)
    requires ColumnsIn(e, lo, hi)
    ensures Resolved(e, hi)
    decreases e
  {
    if !e.Column? {
      forall c | c in Children(e)
        ensures Resolved(c, hi)
      {
        InRangeResolved(c, lo, hi);
      }
    }
  }

  lemma {:induction false} ShiftedResolved(e: Expr, leftWidth: nat, rightWidth: nat)
    requires ColumnsIn(e, leftWidth, leftWidth + rightWidth)
    ensures Resolved(AdjustPredicateIndices(e, leftWidth), rightWidth)
    decreases e
  {
    if !e.Column? {
      var cs := AdjustAll(Children(e), leftWidth);
      ChildrenOfWithChildren(e, cs);
      forall c | c in cs
        ensures Resolved(c, rightWidth)
      {
        var i :| 0 <= i < |cs| && c == cs[i];
        assert Children(e)[i] in Children(e);
        ShiftedResolved(Children(e)[i], leftWidth, rightWidth);
      }
    }
  }

  predicate AllResolved(ps: seq<Expr>, width: nat) {
    forall c | c in ps :: Resolved(c, width)
  }

  lemma {:induction false} PartitionResolved(ps: seq<Expr>, leftWidth: nat, rightWidth: nat, width: nat)
    requires width == leftWidth + rightWidth && AllResolved(ps, width)
    ensures var parts := PartitionConjuncts(ps, leftWidth);
            AllResolved(parts.left, leftWidth) && AllResolved(parts.right, rightWidth) && AllResolved(parts.post, width)
    decreases |ps|
  {
    if ps != [] {
      var front, c := ps[..|ps| - 1], ps[|ps| - 1];
      assert c in ps && forall x | x in front :: x in ps;
      PartitionResolved(front, leftWidth, rightWidth, width);
      ClassifierSound(c, leftWidth, width);
      match ClassifyPredicateSide(c, leftWidth) {
        case Some(Left) => InRangeResolved(c, 0, leftWidth);
        case Some(Right) => ShiftedResolved(c, leftWidth, rightWidth);
        case _ =>
      }
    }
  }

  lemma FilterShape(o: OptimizedPlan, e: Expr)
    requires Restorable(o)
    ensures Restorable(OptimizedPlan.Filter(o, e)) && IntoLogical(OptimizedPlan.Filter(o, e)) == LogicalPlan.Filter(IntoLogical(o), e)
    ensures OptSchema(OptimizedPlan.Filter(o, e)) == OptSchema(o) && Schema(LogicalPlan.Filter(IntoLogical(o), e)) == Schema(IntoLogical(o))
  {
    hide FoldUnion, RestoredCondition, KeysInRange;
  }

  lemma FilterWellPlanned(pe: PlanEnv, cat: Catalog, p: LogicalPlan, e: Expr)
    requires WellPlanned(pe, cat, p) && FiltersResolved(p) && Resolved(e, |Schema(p)|)
    ensures WellPlanned(pe, cat, LogicalPlan.Filter(p, e)) && FiltersResolved(LogicalPlan.Filter(p, e))
  {
    hide Resolved, EquiJoinSafe, KeysSortable, RowsConform, ExprHasType, CtesWellPlanned;
    if p.Join? {
      assert |Types(p.schema)| == |Schema(p.left)| + |Schema(p.right)|;
    }
  }

  lemma FilterReplannable(pe: PlanEnv, cat: Catalog, o: OptimizedPlan, condition: Option<Expr>, schema: PlanSchema)
    requires Replannable(pe, cat, o, schema)
    requires condition.Some? ==> Resolved(condition.value, |schema|)
    ensures Replannable(pe, cat, FilterIf(o, condition), schema)
  {
    hide IntoLogical, Restorable, WellPlanned, FiltersResolved, Resolved, OptSchema, Schema;
    if condition.Some? {
      FilterShape(o, condition.value);
      FilterWellPlanned(pe, cat, IntoLogical(o), condition.value);
    }
  }

  lemma JoinWellPlanned(pe: PlanEnv, cat: Catalog, l: LogicalPlan, r: LogicalPlan, joinType: JoinType, on: Option<Expr>, schema: PlanSchema)
    requires WellPlanned(pe, cat, l) && WellPlanned(pe, cat, r) && FiltersResolved(l) && FiltersResolved(r)
    requires Types(schema) == Types(Schema(l)) + Types(Schema(r))
    requires joinType.Inner? ==> EquiJoinSafe(on, Types(Schema(l)), Types(Schema(r)))
    ensures var p := LogicalPlan.Join(l, r, joinType, on, schema); WellPlanned(pe, cat, p) && FiltersResolved(p)
  {
  }

  lemma SameKeysSafe(e: Expr, e': Expr, lts: seq<DataType>, rts: seq<DataType>)
    requires EquiJoinSafe(Some(e), lts, rts) && KeysOf(e, |lts|).Some? && KeysOf(e', |lts|) == KeysOf(e, |lts|)
    requires Resolved(e', |lts| + |rts|)
    ensures EquiJoinSafe(Some(e'), lts, rts)
  {
    hide KeysOf, Resolved, KeyTypesSafe;
  }

  lemma SafeInRange(k: JoinKeys, lts: seq<DataType>, rts: seq<DataType>)
    requires KeyTypesSafe(k, lts, rts)
    ensures KeysInRange(k, |lts|, |rts|)
  {
    hide KeysInRange, Assigns, KeysMeet, KeysMix;
  }

  lemma RestoredSafe(e: Expr, lts: seq<DataType>, rts: seq<DataType>, on: Option<Expr>)
    requires EquiJoinSafe(Some(e), lts, rts) && KeysOf(e, |lts|).Some? && on == RestoredCondition(KeysOf(e, |lts|).value, |lts|)
    ensures EquiJoinSafe(on, lts, rts)
  {
    hide *;
    var keys := KeysOf(e, |lts|).value;
    KeysSafe(e, lts, rts);
    SafeInRange(keys, lts, rts);
    ExtractRestored(keys, |lts|, |rts|);
    RestoredResolved(keys, |lts|, |rts|);
    SameKeysSafe(e, on.value, lts, rts);
  }

  lemma HashJoinShape(ol: OptimizedPlan, or: OptimizedPlan, keys: JoinKeys, schema: PlanSchema, leftWidth: nat, rightWidth: nat)
    requires Restorable(ol) && Restorable(or) && leftWidth == |OptSchema(ol)| && rightWidth == |OptSchema(or)|
    requires KeysInRange(keys, leftWidth, rightWidth)
    ensures var o := OptimizedPlan.HashJoin(ol, or, Inner, keys, schema);
            && Restorable(o)
            && OptSchema(o) == schema
            && IntoLogical(o) == LogicalPlan.Join(IntoLogical(ol), IntoLogical(or), Inner, RestoredCondition(keys, leftWidth), schema)
            && Schema(IntoLogical(o)) == schema
  {
  }

  lemma HashJoinReplannable(pe: PlanEnv, cat: Catalog, ol: OptimizedPlan, or: OptimizedPlan, e: Expr, schema: PlanSchema,
                            ls: PlanSchema, rs: PlanSchema)
    requires Replannable(pe, cat, ol, ls) && Replannable(pe, cat, or, rs)
    requires Types(schema) == Types(ls) + Types(rs) && EquiJoinSafe(Some(e), Types(ls), Types(rs)) && KeysOf(e, |ls|).Some?
    ensures Replannable(pe, cat, OptimizedPlan.HashJoin(ol, or, Inner, KeysOf(e, |ls|).value, schema), schema)
  {
    hide IntoLogical, Restorable, WellPlanned, FiltersResolved, OptSchema, Schema, EquiJoinSafe, KeysOf, RestoredCondition, KeysInRange, KeyTypesSafe, Types;
    var keys := KeysOf(e, |ls|).value;
    KeysSafe(e, Types(ls), Types(rs));
    SafeInRange(keys, Types(ls), Types(rs));
    var on := RestoredCondition(keys, |ls|);
    HashJoinShape(ol, or, keys, schema, |ls|, |rs|);
    RestoredSafe(e, Types(ls), Types(rs), on);
    JoinWellPlanned(pe, cat, IntoLogical(ol), IntoLogical(or), Inner, on, schema);
  }

  lemma LoopJoinReplannable(pe: PlanEnv, cat: Catalog, ol: OptimizedPlan, or: OptimizedPlan, joinType: JoinType, on: Option<Expr>,
                            schema: PlanSchema, ls: PlanSchema, rs: PlanSchema)
    requires Replannable(pe, cat, ol, ls) && Replannable(pe, cat, or, rs)
    requires Types(schema) == Types(ls) + Types(rs) && (joinType.Inner? ==> EquiJoinSafe(on, Types(ls), Types(rs)))
    ensures Replannable(pe, cat, OptimizedPlan.NestedLoopJoin(ol, or, joinType, on, schema), schema)
  {
    hide IntoLogical, Restorable, WellPlanned, FiltersResolved, OptSchema, Schema, EquiJoinSafe, Types;
    LoopJoinShape(ol, or, joinType, on, schema);
    JoinWellPlanned(pe, cat, IntoLogical(ol), IntoLogical(or), joinType, on, schema);
  }

  lemma LoopJoinShape(ol: OptimizedPlan, or: OptimizedPlan, joinType: JoinType, on: Option<Expr>, schema: PlanSchema)
    requires Restorable(ol) && Restorable(or)
    ensures var o, c := OptimizedPlan.NestedLoopJoin(ol, or, joinType, on, schema), OptimizedPlan.CrossJoin(ol, or, schema);
            && Restorable(o) && Restorable(c) && OptSchema(o) == OptSchema(c) == schema
            && IntoLogical(o) == LogicalPlan.Join(IntoLogical(ol), IntoLogical(or), joinType, on, schema) && Schema(IntoLogical(o)) == schema
            && IntoLogical(c) == LogicalPlan.Join(IntoLogical(ol), IntoLogical(or), Cross, None, schema) && Schema(IntoLogical(c)) == schema
  {
    hide FoldUnion, RestoredCondition, KeysInRange;
  }

  lemma CrossJoinReplannable(pe: PlanEnv, cat: Catalog, ol: OptimizedPlan, or: OptimizedPlan, schema: PlanSchema, ls: PlanSchema, rs: PlanSchema)
    requires Replannable(pe, cat, ol, ls) && Replannable(pe, cat, or, rs) && Types(schema) == Types(ls) + Types(rs)
    ensures Replannable(pe, cat, OptimizedPlan.CrossJoin(ol, or, schema), schema)
  {
    hide IntoLogical, Restorable, WellPlanned, FiltersResolved, OptSchema, Schema, EquiJoinSafe, Types;
    LoopJoinShape(ol, or, Cross, None, schema);
    JoinWellPlanned(pe, cat, IntoLogical(ol), IntoLogical(or), Cross, None, schema);
  }

  lemma InnerJoinReplannable(pe: PlanEnv, cat: Catalog, ol: OptimizedPlan, or: OptimizedPlan, on: Option<Expr>, schema: PlanSchema,
                             ls: PlanSchema, rs: PlanSchema, o: OptimizedPlan)
    requires Replannable(pe, cat, ol, ls) && Replannable(pe, cat, or, rs)
    requires Types(schema) == Types(ls) + Types(rs) && EquiJoinSafe(on, Types(ls), Types(rs))
    requires o == PlanInnerJoin(ol, or, on, schema, |ls|)
    ensures Replannable(pe, cat, o, schema)
  {
    hide *;
    InnerPlanForms(ol, or, on, schema, |ls|);
    if on.Some? && KeysOf(on.value, |ls|).Some? {
      HashJoinReplannable(pe, cat, ol, or, on.value, schema, ls, rs);
    } else {
      LoopJoinReplannable(pe, cat, ol, or, Inner, on, schema, ls, rs);
    }
  }

  lemma PartsResolved(e: Expr, leftWidth: nat, rightWidth: nat, parts: Partition)
    requires Resolved(e, leftWidth + rightWidth) && parts == PartitionConjuncts(SplitAnd(e), leftWidth)
    ensures CombinePredicates(parts.left).Some? ==> Resolved(CombinePredicates(parts.left).value, leftWidth)
    ensures CombinePredicates(parts.right).Some? ==> Resolved(CombinePredicates(parts.right).value, rightWidth)
    ensures CombinePredicates(parts.post).Some? ==> Resolved(CombinePredicates(parts.post).value, leftWidth + rightWidth)
  {
    hide *;
    ResolvedConjuncts(e, leftWidth + rightWidth);
    PartitionResolved(SplitAnd(e), leftWidth, rightWidth, leftWidth + rightWidth);
    OptionalResolved(parts.left, leftWidth);
    OptionalResolved(parts.right, rightWidth);
    OptionalResolved(parts.post, leftWidth + rightWidth);
  }

  lemma PushedReplannable(pe: PlanEnv, cat: Catalog, ol: OptimizedPlan, or: OptimizedPlan, on: Option<Expr>, schema: PlanSchema,
                          lp: Option<Expr>, rp: Option<Expr>, pp: Option<Expr>, ls: PlanSchema, rs: PlanSchema)
    requires Replannable(pe, cat, ol, ls) && Replannable(pe, cat, or, rs)
    requires Types(schema) == Types(ls) + Types(rs) && EquiJoinSafe(on, Types(ls), Types(rs))
    requires lp.Some? ==> Resolved(lp.value, |ls|)
    requires rp.Some? ==> Resolved(rp.value, |rs|)
    requires pp.Some? ==> Resolved(pp.value, |ls| + |rs|)
    ensures Replannable(pe, cat, FilterIf(PlanInnerJoin(FilterIf(ol, lp), FilterIf(or, rp), on, schema, |ls|), pp), schema)
  {
    hide Replannable, FilterIf, PlanInnerJoin, EquiJoinSafe;
    var l, r := FilterIf(ol, lp), FilterIf(or, rp);
    FilterReplannable(pe, cat, ol, lp, ls);
    FilterReplannable(pe, cat, or, rp, rs);
    var o := PlanInnerJoin(l, r, on, schema, |ls|);
    InnerJoinReplannable(pe, cat, l, r, on, schema, ls, rs, o);
    assert |Types(schema)| == |ls| + |rs|;
    FilterReplannable(pe, cat, o, pp, schema);
  }

  lemma {:induction false} FilterBack(pe: PlanEnv, cat: Catalog, p: LogicalPlan)
    requires p.Filter? && WellPlanned(pe, cat, p) && FiltersResolved(p)
    ensures Replannable(pe, cat, Plan(p), Schema(p))
    decreases p, 1
  {
    if FilterOnInnerJoin(p) {
      FilteredJoinBack(pe, cat, p);
    } else {
      ReplannableQuery(pe, cat, p.input);
      hide Replannable;
      FilterReplannable(pe, cat, Plan(p.input), Some(p.condition), Schema(p.input));
    }
  }

  lemma FilteredJoinFacts(pe: PlanEnv, cat: Catalog, p: LogicalPlan, parts: Partition)
    requires FilterOnInnerJoin(p) && WellPlanned(pe, cat, p) && FiltersResolved(p)
    requires parts == PartitionConjuncts(SplitAnd(p.condition), |Schema(p.input.left)|)
    ensures var j := p.input;
            && WellPlanned(pe, cat, j.left) && FiltersResolved(j.left) && WellPlanned(pe, cat, j.right) && FiltersResolved(j.right)
            && Types(j.schema) == Types(Schema(j.left)) + Types(Schema(j.right))
            && EquiJoinSafe(j.on, Types(Schema(j.left)), Types(Schema(j.right)))
            && Resolved(p.condition, |Schema(j.left)| + |Schema(j.right)|)
            && Schema(p) == j.schema
            && Plan(p) == FilterIf(PlanInnerJoin(FilterIf(Plan(j.left), CombinePredicates(parts.left)),
                                                 FilterIf(Plan(j.right), CombinePredicates(parts.right)), j.on, j.schema, |Schema(j.left)|),
                                   CombinePredicates(parts.post))
  {
  }

  lemma {:induction false} FilteredJoinBack(pe: PlanEnv, cat: Catalog, p: LogicalPlan)
    requires FilterOnInnerJoin(p) && p.Filter? && p.input.Join? && WellPlanned(pe, cat, p) && FiltersResolved(p)
    ensures Replannable(pe, cat, Plan(p), Schema(p))
    decreases p, 0
  {
    hide *;
    var j := p.input;
    var parts := PartitionConjuncts(SplitAnd(p.condition), |Schema(j.left)|);
    FilteredJoinFacts(pe, cat, p, parts);
    ReplannableQuery(pe, cat, j.left);
    ReplannableQuery(pe, cat, j.right);
    PartsResolved(p.condition, |Schema(j.left)|, |Schema(j.right)|, parts);
    PushedReplannable(pe, cat, Plan(j.left), Plan(j.right), j.on, j.schema, CombinePredicates(parts.left), CombinePredicates(parts.right),
                      CombinePredicates(parts.post), Schema(j.left), Schema(j.right));
  }

  lemma OptionalResolved(ps: seq<Expr>, width: nat)
    requires AllResolved(ps, width)
    ensures CombinePredicates(ps).Some? ==> Resolved(CombinePredicates(ps).value, width)
  {
    if ps != [] {
      CombinedResolved(ps, width);
    }
  }

  lemma {:induction false} JoinBack(pe: PlanEnv, cat: Catalog, p: LogicalPlan)
    requires p.Join? && WellPlanned(pe, cat, p) && FiltersResolved(p)
    ensures Replannable(pe, cat, Plan(p), Schema(p))
    decreases p, 0
  {
    hide *;
    JoinForm(pe, cat, p);
    JoinFacts(pe, cat, p);
    ReplannableQuery(pe, cat, p.left);
    ReplannableQuery(pe, cat, p.right);
    if p.joinType.Inner? {
      InnerJoinReplannable(pe, cat, Plan(p.left), Plan(p.right), p.on, p.schema, Schema(p.left), Schema(p.right), Plan(p));
    } else if p.joinType.Cross? {
      CrossJoinReplannable(pe, cat, Plan(p.left), Plan(p.right), p.schema, Schema(p.left), Schema(p.right));
    } else {
      LoopJoinReplannable(pe, cat, Plan(p.left), Plan(p.right), p.joinType, p.on, p.schema, Schema(p.left), Schema(p.right));
    }
  }

  lemma JoinFacts(pe: PlanEnv, cat: Catalog, p: LogicalPlan)
    requires p.Join? && WellPlanned(pe, cat, p) && FiltersResolved(p)
    ensures FiltersResolved(p.left) && FiltersResolved(p.right) && Schema(p) == p.schema
    ensures Types(p.schema) == Types(Schema(p.left)) + Types(Schema(p.right))
  {
    hide EquiJoinSafe, Types;
  }

  lemma {:induction false} SetOpBack(pe: PlanEnv, cat: Catalog, p: LogicalPlan)
    requires p.SetOperation? && WellPlanned(pe, cat, p) && FiltersResolved(p)
    ensures Replannable(pe, cat, Plan(p), Schema(p))
    decreases p, 0
  {
    hide *;
    SetOpForm(pe, cat, p);
    SetOpFacts(pe, cat, p);
    ReplannableQuery(pe, cat, p.left);
    ReplannableQuery(pe, cat, p.right);
    var ol, or := Plan(p.left), Plan(p.right);
    ReplannableRestorable(pe, cat, ol, Schema(p.left));
    ReplannableRestorable(pe, cat, or, Schema(p.right));
    SetOpShapes(ol, or, p.all, p.schema);
    SetOpReplannable(pe, cat, Plan(p), ol, or, p.op, p.all, p.schema, Schema(p.left), Schema(p.right));
  }

  lemma ReplannableRestorable(pe: PlanEnv, cat: Catalog, o: OptimizedPlan, schema: PlanSchema)
    requires Replannable(pe, cat, o, schema)
    ensures Restorable(o) && WellPlanned(pe, cat, IntoLogical(o)) && FiltersResolved(IntoLogical(o)) && Schema(IntoLogical(o)) == schema
  {
  }

  lemma SetOpFacts(pe: PlanEnv, cat: Catalog, p: LogicalPlan)
    requires p.SetOperation? && WellPlanned(pe, cat, p) && FiltersResolved(p)
    ensures FiltersResolved(p.left) && FiltersResolved(p.right) && Schema(p) == p.schema
    ensures Fits(Types(Schema(p.left)), Types(p.schema)) && Fits(Types(Schema(p.right)), Types(p.schema))
  {
    hide Fits;
  }

  lemma SetOpWellPlanned(pe: PlanEnv, cat: Catalog, l: LogicalPlan, r: LogicalPlan, op: SetOperationType, all: bool, schema: PlanSchema)
    requires WellPlanned(pe, cat, l) && WellPlanned(pe, cat, r) && FiltersResolved(l) && FiltersResolved(r)
    requires Fits(Types(Schema(l)), Types(schema)) && Fits(Types(Schema(r)), Types(schema))
    ensures var p := LogicalPlan.SetOperation(l, r, op, all, schema); WellPlanned(pe, cat, p) && FiltersResolved(p)
  {
  }

  /** A set operation of two plans turns back into the set operation of theirs. */
  lemma SetOpShapes(ol: OptimizedPlan, or: OptimizedPlan, all: bool, schema: PlanSchema)
    requires Restorable(ol) && Restorable(or)
    ensures SetOpShape(OptimizedPlan.Union([ol, or], all, schema), ol, or, SetOperationType.Union, all, schema)
    ensures SetOpShape(OptimizedPlan.Intersect(ol, or, all, schema), ol, or, SetOperationType.Intersect, all, schema)
    ensures SetOpShape(OptimizedPlan.Except(ol, or, all, schema), ol, or, SetOperationType.Except, all, schema)
  {
    hide *;
    UnionShape(ol, or, all, schema);
    IntersectShape(ol, or, all, schema);
    ExceptShape(ol, or, all, schema);
  }

  lemma UnionShape(ol: OptimizedPlan, or: OptimizedPlan, all: bool, schema: PlanSchema)
    requires Restorable(ol) && Restorable(or)
    ensures SetOpShape(OptimizedPlan.Union([ol, or], all, schema), ol, or, SetOperationType.Union, all, schema)
  {
    FoldOfTwo(ol, or, all, schema);
    hide IntoLogical;
  }

  lemma IntersectShape(ol: OptimizedPlan, or: OptimizedPlan, all: bool, schema: PlanSchema)
    requires Restorable(ol) && Restorable(or)
    ensures SetOpShape(OptimizedPlan.Intersect(ol, or, all, schema), ol, or, SetOperationType.Intersect, all, schema)
  {
    hide FoldUnion, RestoredCondition;
  }

  lemma ExceptShape(ol: OptimizedPlan, or: OptimizedPlan, all: bool, schema: PlanSchema)
    requires Restorable(ol) && Restorable(or)
    ensures SetOpShape(OptimizedPlan.Except(ol, or, all, schema), ol, or, SetOperationType.Except, all, schema)
  {
    hide FoldUnion, RestoredCondition;
  }

  predicate SetOpShape(o: OptimizedPlan, ol: OptimizedPlan, or: OptimizedPlan, op: SetOperationType, all: bool, schema: PlanSchema) {
    && Restorable(o)
    && OptSchema(o) == schema
    && IntoLogical(o) == LogicalPlan.SetOperation(IntoLogical(ol), IntoLogical(or), op, all, schema)
    && Schema(IntoLogical(o)) == schema
  }

  lemma SetOpReplannable(pe: PlanEnv, cat: Catalog, o: OptimizedPlan, ol: OptimizedPlan, or: OptimizedPlan, op: SetOperationType, all: bool,
                         schema: PlanSchema, ls: PlanSchema, rs: PlanSchema)
    requires Replannable(pe, cat, ol, ls) && Replannable(pe, cat, or, rs) && Fits(Types(ls), Types(schema)) && Fits(Types(rs), Types(schema))
    requires SetOpShape(o, ol, or, op, all, schema)
    ensures Replannable(pe, cat, o, schema)
  {
    hide IntoLogical, Restorable, WellPlanned, FiltersResolved, OptSchema, Schema, Types, Fits;
    SetOpWellPlanned(pe, cat, IntoLogical(ol), IntoLogical(or), op, all, schema);
  }

  lemma FoldOfTwo(l: OptimizedPlan, r: OptimizedPlan, all: bool, schema: PlanSchema)
    ensures IntoLogical(OptimizedPlan.Union([l, r], all, schema))
            == LogicalPlan.SetOperation(IntoLogical(l), IntoLogical(r), SetOperationType.Union, all, schema)
  {
    assert [l, r][..1] == [l];
    assert FoldUnion([l], all, schema) == IntoLogical(l);
  }

  lemma {:induction false} UnaryBack(pe: PlanEnv, cat: Catalog, p: LogicalPlan)
    requires p.Project? || p.Aggregate? || p.Sort? || p.Distinct?
    requires WellPlanned(pe, cat, p) && FiltersResolved(p)
    ensures Replannable(pe, cat, Plan(p), Schema(p))
    decreases p, 0
  {
    hide *;
    UnaryForm(pe, cat, p);
    UnaryFacts(p);
    ReplannableQuery(pe, cat, p.input);
    UnaryIsPlanned(p, Plan(p.input), Plan(p));
    UnaryReplannable(pe, cat, p, Plan(p.input));
  }

  lemma UnaryFacts(p: LogicalPlan)
    requires (p.Project? || p.Aggregate? || p.Sort? || p.Distinct? || p.Limit?) && FiltersResolved(p)
    ensures FiltersResolved(p.input)
  {
  }

  /** The same operator on another input. */
  function OnInput(p: LogicalPlan, input: LogicalPlan): LogicalPlan
    requires p.Project? || p.Aggregate? || p.Sort? || p.Distinct?
  {
    match p
    case Project(_, es, schema) => LogicalPlan.Project(input, es, schema)
    case Aggregate(_, gs, es, schema, sets) => LogicalPlan.Aggregate(input, gs, es, schema, sets)
    case Sort(_, keys) => LogicalPlan.Sort(input, keys)
    case Distinct(_) => LogicalPlan.Distinct(input)
  }

  lemma OnInputWellPlanned(pe: PlanEnv, cat: Catalog, p: LogicalPlan, input: LogicalPlan)
    requires (p.Project? || p.Aggregate? || p.Sort? || p.Distinct?) && WellPlanned(pe, cat, p)
    requires WellPlanned(pe, cat, input) && FiltersResolved(input) && Schema(input) == Schema(p.input)
    ensures WellPlanned(pe, cat, OnInput(p, input)) && FiltersResolved(OnInput(p, input)) && Schema(OnInput(p, input)) == Schema(p)
  {
    hide ExprHasType, RowsConform, Types, CtesWellPlanned, EquiJoinSafe, KeysSortable, Resolved;
  }

  function PlannedUnary(p: LogicalPlan, o: OptimizedPlan): OptimizedPlan
    requires p.Project? || p.Aggregate? || p.Sort? || p.Distinct?
  {
    match p
    case Project(_, es, schema) => OptimizedPlan.Project(o, es, schema)
    case Aggregate(_, gs, es, schema, sets) => OptimizedPlan.HashAggregate(o, gs, es, schema, sets)
    case Sort(_, keys) => OptimizedPlan.Sort(o, keys)
    case Distinct(_) => OptimizedPlan.Distinct(o)
  }

  lemma UnaryIsPlanned(p: LogicalPlan, o: OptimizedPlan, planned: OptimizedPlan)
    requires p.Project? || p.Aggregate? || p.Sort? || p.Distinct?
    requires planned == match p
                        case Project(_, es, schema) => OptimizedPlan.Project(o, es, schema)
                        case Aggregate(_, gs, es, schema, sets) => OptimizedPlan.HashAggregate(o, gs, es, schema, sets)
                        case Sort(_, keys) => OptimizedPlan.Sort(o, keys)
                        case Distinct(_) => OptimizedPlan.Distinct(o)
    ensures planned == PlannedUnary(p, o)
  {
  }

  lemma UnaryShape(p: LogicalPlan, o: OptimizedPlan)
    requires (p.Project? || p.Aggregate? || p.Sort? || p.Distinct?) && Restorable(o) && OptSchema(o) == Schema(p.input)
    ensures var planned := PlannedUnary(p, o);
            Restorable(planned) && OptSchema(planned) == Schema(p) && IntoLogical(planned) == OnInput(p, IntoLogical(o))
  {
    hide RestoredCondition, FoldUnion, KeysInRange;
  }

  lemma UnaryReplannable(pe: PlanEnv, cat: Catalog, p: LogicalPlan, o: OptimizedPlan)
    requires (p.Project? || p.Aggregate? || p.Sort? || p.Distinct?) && WellPlanned(pe, cat, p) && Replannable(pe, cat, o, Schema(p.input))
    ensures Replannable(pe, cat, PlannedUnary(p, o), Schema(p))
  {
    hide IntoLogical, Restorable, WellPlanned, FiltersResolved, OptSchema, Schema, PlannedUnary, OnInput;
    UnaryShape(p, o);
    OnInputWellPlanned(pe, cat, p, IntoLogical(o));
  }

  /** Planning and turning back makes no sort out of another operator. */
  lemma PlannedSort(p: LogicalPlan)
    ensures Plan(p).Sort? ==> p.Sort? && Plan(p) == OptimizedPlan.Sort(Plan(p.input), p.sortExprs)
    ensures Plan(p).Union? ==> p.SetOperation? && Plan(p) == OptimizedPlan.Union([Plan(p.left), Plan(p.right)], p.all, p.schema)
  {
    hide PartitionConjuncts, SplitAnd, CombinePredicates, KeysOf, PlanCtes, Schema;
  }

  lemma SortOfSort(o: OptimizedPlan)
    requires !o.Union?
    ensures IntoLogical(o).Sort? ==> o.Sort? && IntoLogical(o) == LogicalPlan.Sort(IntoLogical(o.input), o.sortExprs)
  {
    hide RestoredCondition, OptSchema, FoldUnion;
  }

  lemma SortComesBack(p: LogicalPlan)
    ensures IntoLogical(Plan(p)).Sort? ==> p.Sort? && IntoLogical(Plan(p)) == LogicalPlan.Sort(IntoLogical(Plan(p.input)), p.sortExprs)
  {
    hide *;
    PlannedSort(p);
    if Plan(p).Union? {
      FoldOfTwo(Plan(p.left), Plan(p.right), p.all, p.schema);
    } else {
      SortOfSort(Plan(p));
    }
  }

  lemma {:induction false} LimitBack(pe: PlanEnv, cat: Catalog, p: LogicalPlan)
    requires p.Limit? && WellPlanned(pe, cat, p) && FiltersResolved(p)
    ensures Replannable(pe, cat, Plan(p), Schema(p))
    decreases p, 0
  {
    hide *;
    LimitForm(pe, cat, p);
    UnaryFacts(p);
    LimitSchema(p);
    if p.input.Sort? && p.limit.Some? && p.offset.None? {
      UnaryFacts(p.input);
      var input := p.input.input;
      ReplannableQuery(pe, cat, input);
      TopNReplannable(pe, cat, Plan(input), p.input.sortExprs, p.limit.value, Schema(input));
    } else {
      ReplannableQuery(pe, cat, p.input);
      SortComesBack(p.input);
      LimitReplannable(pe, cat, Plan(p.input), p.limit, p.offset, Schema(p.input));
    }
  }

  lemma LimitSchema(p: LogicalPlan)
    requires p.Limit?
    ensures Schema(p) == Schema(p.input) && (p.input.Sort? ==> Schema(p) == Schema(p.input.input))
  {
  }

  lemma TopNReplannable(pe: PlanEnv, cat: Catalog, o: OptimizedPlan, keys: seq<SortExpr>, count: nat, schema: PlanSchema)
    requires Replannable(pe, cat, o, schema) && KeysSortable(pe.env, keys, Types(schema))
    ensures Replannable(pe, cat, OptimizedPlan.TopN(o, keys, count), schema)
  {
    hide Types, KeysSortable, RestoredCondition, FoldUnion;
    var sorted := LogicalPlan.Sort(IntoLogical(o), keys);
    assert WellPlanned(pe, cat, sorted) && FiltersResolved(sorted) && Schema(sorted) == schema;
  }

  /** A limit over what is no sort, or on which nothing was folded, stays a limit. */
  lemma LimitReplannable(pe: PlanEnv, cat: Catalog, o: OptimizedPlan, limit: Option<nat>, offset: Option<nat>, schema: PlanSchema)
    requires Replannable(pe, cat, o, schema) && !(IntoLogical(o).Sort? && limit.Some? && offset.None?)
    ensures Replannable(pe, cat, OptimizedPlan.Limit(o, limit, offset), schema)
  {
    hide Types, KeysSortable, RestoredCondition, FoldUnion;
  }

  lemma {:induction false} CtesBack(pe: PlanEnv, cat: Catalog, ctes: seq<CteDefinition>)
    requires CtesWellPlanned(pe, cat, ctes)
    ensures CtesWellPlanned(pe, cat, PlanCtes(ctes))
    ensures CteCatalog(cat, PlanCtes(ctes)) == CteCatalog(cat, ctes)
    decreases ctes
  {
    if ctes != [] {
      ReplannableQuery(pe, cat, ctes[0].query);
      CtesBack(pe, AddCte(cat, ctes[0]), ctes[1..]);
      assert AddCte(cat, PlanCtes(ctes)[0]) == AddCte(cat, ctes[0]);
      assert PlanCtes(ctes)[1..] == PlanCtes(ctes[1..]);
    }
  }

  /** The optimized plan of a well-planned query turns back into a well-planned query. */
  lemma {:induction false} ReplannableQuery(pe: PlanEnv, cat: Catalog, p: LogicalPlan)
    requires WellPlanned(pe, cat, p) && FiltersResolved(p)
    ensures Replannable(pe, cat, Plan(p), Schema(p))
    decreases p
  {
    hide *;
    match p
    case Filter(_, _) => FilterBack(pe, cat, p);
    case Join(_, _, _, _, _) => JoinBack(pe, cat, p);
    case SetOperation(_, _, _, _, _) => SetOpBack(pe, cat, p);
    case Limit(_, _, _) => LimitBack(pe, cat, p);
    case WithCte(_, _) => WithCteBack(pe, cat, p);
    case Project(_, _, _) => UnaryBack(pe, cat, p);
    case Aggregate(_, _, _, _, _) => UnaryBack(pe, cat, p);
    case Sort(_, _) => UnaryBack(pe, cat, p);
    case Distinct(_) => UnaryBack(pe, cat, p);
    case _ => LeafBack(pe, cat, p);
  }

  lemma LeafBack(pe: PlanEnv, cat: Catalog, p: LogicalPlan)
    requires p.Scan? || p.Values? || p.Empty?
    requires WellPlanned(pe, cat, p)
    ensures Replannable(pe, cat, Plan(p), Schema(p))
  {
  }

  lemma {:induction false} WithCteBack(pe: PlanEnv, cat: Catalog, p: LogicalPlan)
    requires p.WithCte? && WellPlanned(pe, cat, p) && FiltersResolved(p)
    ensures Replannable(pe, cat, Plan(p), Schema(p))
    decreases p, 0
  {
    hide *;
    WithCteForm(pe, cat, p);
    WithCteFacts(p);
    CtesBack(pe, cat, p.ctes);
    ReplannableQuery(pe, CteCatalog(cat, p.ctes), p.body);
    WithCteReplannable(pe, cat, PlanCtes(p.ctes), Plan(p.body), Schema(p.body));
  }

  lemma WithCteFacts(p: LogicalPlan)
    requires p.WithCte? && FiltersResolved(p)
    ensures FiltersResolved(p.body) && Schema(p) == Schema(p.body)
  {
  }

  lemma WithCteReplannable(pe: PlanEnv, cat: Catalog, ctes: seq<CteDefinition>, o: OptimizedPlan, schema: PlanSchema)
    requires CtesWellPlanned(pe, cat, ctes) && Replannable(pe, CteCatalog(cat, ctes), o, schema)
    ensures Replannable(pe, cat, OptimizedPlan.WithCte(ctes, o), schema)
  {
    hide CtesWellPlanned, CteCatalog;
  }

  // ---------- The whole way round ----------

  /** A query planned and turned back agrees with the query. */
  lemma RoundTripAgrees(pe: PlanEnv, cat: Catalog, db: Db, p: LogicalPlan)
    requires WellPlanned(pe, cat, p) && FiltersResolved(p) && DbConforms(db, cat)
    ensures Agree(ResultsOf(pe, db, p), ResultsOf(pe, db, IntoLogical(Plan(p))))
  {
    hide *;
    PlanAgrees(pe, cat, db, p);
    ReplannableQuery(pe, cat, p);
    ReplannableRestorable(pe, cat, Plan(p), Schema(p));
    BackSame(pe, cat, db, Plan(p));
  }
}
