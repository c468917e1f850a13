/**
 Failures and the optimizer.  Pushing a predicate below a join can hide a failure or bring one
 about; where every pushed filter is pushed exactly, the optimized plan may produce exactly what
 the query may, failure included.
 */
module ExactPlans {
  import opened Wrappers
  import opened Names
  import opened Ir
  import opened Evaluator
  import opened Predicates
  import opened EquiKeys
  import opened Tables
  import opened Sorting
  import opened ResultSets
  import opened Plans
  import opened PlanSemantics
  import opened Pushdown
  import opened ExactPushdown
  import opened PlanProof
  import opened Translation

  // ---------- Predicates that cannot fail ----------

  /** TRUE, FALSE or NULL on every row of these types. */
  ghost predicate TruthOn(env: Env, e: Expr, types: seq<DataType>) {
    forall row | RowConforms(row, types) :: IsTruth(Eval(env, e, row))
  }

  ghost predicate AllTruths(env: Env, ps: seq<Expr>, types: seq<DataType>) {
    forall c | c in ps :: TruthOn(env, c, types)
  }

  ghost predicate OptionalTruth(env: Env, e: Option<Expr>, types: seq<DataType>) {
    e.Some? ==> TruthOn(env, e.value, types)
  }

  lemma {:induction false} CombinedTruth(env: Env, ps: seq<Expr>, types: seq<DataType>)
    requires AllTruths(env, ps, types)
    ensures OptionalTruth(env, CombinePredicates(ps), types)
    decreases |ps|
  {
    if |ps| > 1 {
      var n := |ps| - 1;
      CombinedTruth(env, ps[..n], types);
      var e := CombinePredicates(ps).value;
      assert ps[n] in ps && e.right == ps[n] && e.left == CombinePredicates(ps[..n]).value;
      assert TruthOn(env, e.left, types) && TruthOn(env, e.right, types);
      forall row | RowConforms(row, types)
        ensures IsTruth(Eval(env, e, row))
      {
        AndOfTruths(env, e, row);
      }
    }
  }

  lemma {:induction false} SplitTruth(env: Env, e: Expr, types: seq<DataType>)
    requires AllTruths(env, SplitAnd(e), types)
    ensures TruthOn(env, e, types)
  {
    if IsAnd(e) {
      SplitTruth(env, e.left, types);
      SplitTruth(env, e.right, types);
      forall row | RowConforms(row, types)
        ensures IsTruth(Eval(env, e, row))
      {
        AndOfTruths(env, e, row);
      }
    }
  }

  lemma MovedLeftTruth(env: Env, c: Expr, lts: seq<DataType>, rts: seq<DataType>)
    requires TruthOn(env, c, lts + rts) && ColumnsIn(c, 0, |lts|)
    ensures TruthOn(env, c, lts)
  {
    forall l | RowConforms(l, lts)
      ensures IsTruth(Eval(env, c, l))
    {
      JoinedRowConforms(l, Nulls(|rts|), lts, rts);
      LeftReadsLeft(env, c, l, Nulls(|rts|));
    }
  }

  lemma MovedRightTruth(env: Env, c: Expr, lts: seq<DataType>, rts: seq<DataType>)
    requires TruthOn(env, c, lts + rts) && ColumnsIn(c, |lts|, |lts| + |rts|)
    ensures TruthOn(env, AdjustPredicateIndices(c, |lts|), rts)
  {
    forall r | RowConforms(r, rts)
      ensures IsTruth(Eval(env, AdjustPredicateIndices(c, |lts|), r))
    {
      JoinedRowConforms(Nulls(|lts|), r, lts, rts);
      ShiftReadsRight(env, c, Nulls(|lts|), r);
    }
  }

  /** Conjuncts that cannot fail on joined rows cannot fail where they are moved. */
  lemma {:induction false} PartsTruth(env: Env, ps: seq<Expr>, lts: seq<DataType>, rts: seq<DataType>)
    requires AllTruths(env, ps, lts + rts) && forall c | c in ps :: Resolved(c, |lts| + |rts|)
    ensures var p := PartitionConjuncts(ps, |lts|);
            AllTruths(env, p.left, lts) && AllTruths(env, p.right, rts) && AllTruths(env, p.post, lts + rts)
    decreases |ps|
  {
    hide TruthOn, ClassifyPredicateSide, AdjustPredicateIndices, Resolved;
    if ps != [] {
      var front, c := ps[..|ps| - 1], ps[|ps| - 1];
      assert ps == front + [c] && c in ps;
      assert forall x | x in front :: x in ps;
      PartsTruth(env, front, lts, rts);
      ClassifierSound(c, |lts|, |lts| + |rts|);
      match ClassifyPredicateSide(c, |lts|) {
        case Some(Left) => MovedLeftTruth(env, c, lts, rts);
        case Some(Right) => MovedRightTruth(env, c, lts, rts);
        case _ =>
      }
    }
  }

  /** The join condition evaluates on every pair of rows. */
  ghost predicate JoinsTotally(env: Env, on: Option<Expr>, types: seq<DataType>) {
    on.Some? ==> forall row | RowConforms(row, types) :: Eval(env, on.value, row).Val?
  }

  /** Where neither the filter's conjuncts nor the join condition can fail, pushing is exact. */
  lemma TotalIsExact(env: Env, e: Expr, on: Option<Expr>, lts: seq<DataType>, rts: seq<DataType>)
    requires Resolved(e, |lts| + |rts|) && JoinsTotally(env, on, lts + rts) && AllTruths(env, SplitAnd(e), lts + rts)
    ensures PushesExactly(env, e, on, lts, rts)
  {
    hide Eval, PartitionConjuncts, SplitAnd, CombinePredicates, RowConforms, Resolved, AllTruths;
    var parts := PartitionConjuncts(SplitAnd(e), |lts|);
    ResolvedConjuncts(e, |lts| + |rts|);
    PartsTruth(env, SplitAnd(e), lts, rts);
    CombinedTruth(env, parts.left, lts);
    CombinedTruth(env, parts.right, rts);
    CombinedTruth(env, parts.post, lts + rts);
    SplitTruth(env, e, lts + rts);
    forall l, r | RowConforms(l, lts) && RowConforms(r, rts)
      ensures !PairFails(env, on, Some(e), l + r) && !PairFails(env, on, CombinePredicates(parts.post), l + r)
    {
      JoinedRowConforms(l, r, lts, rts);
    }
  }

  // ---------- Exactness on plans ----------

  /** Wherever a filter sits on an inner join, pushing it down there is exact. */
  ghost predicate ExactFilters(pe: PlanEnv, p: LogicalPlan)
    decreases p
  {
    match p
    case Filter(input, condition) =>
      && ExactFilters(pe, input)
      && (FilterOnInnerJoin(p) ==> PushesExactly(pe.env, condition, input.on, Types(Schema(input.left)), Types(Schema(input.right))))
    case Project(input, _, _) => ExactFilters(pe, input)
    case Aggregate(input, _, _, _, _) => ExactFilters(pe, input)
    case Join(l, r, _, _, _) => ExactFilters(pe, l) && ExactFilters(pe, r)
    case Sort(input, _) => ExactFilters(pe, input)
    case Limit(input, _, _) => ExactFilters(pe, input)
    case Distinct(input) => ExactFilters(pe, input)
    case SetOperation(l, r, _, _, _) => ExactFilters(pe, l) && ExactFilters(pe, r)
    case WithCte(ctes, body) => ExactCtes(pe, ctes) && ExactFilters(pe, body)
    case _ => true
  }

  ghost predicate ExactCtes(pe: PlanEnv, ctes: seq<CteDefinition>)
    decreases ctes
  {
    ctes == [] || (ExactFilters(pe, ctes[0].query) && ExactCtes(pe, ctes[1..]))
  }

  lemma SamePushed(s: Results, u: Results, env: Env, e: Expr, on: Option<Expr>, lts: seq<DataType>, rts: seq<DataType>)
    requires ResultsConform(s, lts) && ResultsConform(u, rts) && EquiJoinSafe(on, lts, rts) && Resolved(e, |lts| + |rts|)
    requires PushesExactly(env, e, on, lts, rts)
    ensures Lift2(s, u, FilteredJoinStep(env, e, on, |lts|, |rts|)) == Lift2(s, u, PushedStep(env, e, on, |lts|, |rts|))
  {
    hide FilterTable, JoinTable, PushedTable, Resolved, EquiJoinSafe, PushesExactly;
    forall t, v: TableResult | t in s && v in u
      ensures FilteredJoinStep(env, e, on, |lts|, |rts|)(t, v) == PushedStep(env, e, on, |lts|, |rts|)(t, v)
    {
      PushdownSame(env, e, on, t, v, lts, rts);
    }
    Lift2Same(s, u, FilteredJoinStep(env, e, on, |lts|, |rts|), PushedStep(env, e, on, |lts|, |rts|));
  }

  lemma SameInnerJoin(s: Results, u: Results, env: Env, on: Option<Expr>, lts: seq<DataType>, rts: seq<DataType>)
    requires ResultsConform(s, lts) && ResultsConform(u, rts) && EquiJoinSafe(on, lts, rts)
    ensures Lift2(s, u, JoinStep(env, Inner, on, |lts|, |rts|)) == Lift2(s, u, InnerJoinStep(env, on, |lts|, |rts|))
  {
    hide JoinTable, InnerJoinTable, EquiJoinSafe;
    forall t, v: TableResult | t in s && v in u
      ensures JoinStep(env, Inner, on, |lts|, |rts|)(t, v) == InnerJoinStep(env, on, |lts|, |rts|)(t, v)
    {
      InnerJoinExact(env, on, t, v, lts, rts);
    }
    Lift2Same(s, u, JoinStep(env, Inner, on, |lts|, |rts|), InnerJoinStep(env, on, |lts|, |rts|));
  }

  /** Filters are pushed exactly in every part of a query. */
  lemma ExactParts(pe: PlanEnv, p: LogicalPlan)
    requires ExactFilters(pe, p)
    ensures p.Filter? || p.Project? || p.Aggregate? || p.Sort? || p.Limit? || p.Distinct? ==> ExactFilters(pe, p.input)
    ensures p.Join? || p.SetOperation? ==> ExactFilters(pe, p.left) && ExactFilters(pe, p.right)
    ensures p.WithCte? ==> ExactCtes(pe, p.ctes) && ExactFilters(pe, p.body)
  {
    hide ExactCtes, PushesExactly, Schema;
  }

  lemma ExactHere(pe: PlanEnv, p: LogicalPlan)
    requires ExactFilters(pe, p) && FilterOnInnerJoin(p)
    ensures PushesExactly(pe.env, p.condition, p.input.on, Types(Schema(p.input.left)), Types(Schema(p.input.right)))
  {
    hide PushesExactly, Types, Schema;
  }

  lemma {:induction false} SameFilteredJoin(pe: PlanEnv, cat: Catalog, db: Db, p: LogicalPlan)
    requires p.Filter? && p.input.Join? && FilterOnInnerJoin(p) && WellPlanned(pe, cat, p) && ExactFilters(pe, p) && DbConforms(db, cat)
    ensures ResultsOf(pe, db, p) == OptResultsOf(pe, db, Plan(p))
    decreases p, 0
  {
    hide *;
    var j := p.input;
    FilteredJoinForm(pe, cat, p);
    ExactHere(pe, p);
    ExactParts(pe, p);
    ExactParts(pe, j);
    PlanExact(pe, cat, db, j.left);
    PlanExact(pe, cat, db, j.right);
    RowsFitSchema(pe, cat, db, j.left);
    RowsFitSchema(pe, cat, db, j.right);
    PlanKeepsSchema(j.left);
    PlanKeepsSchema(j.right);
    SamePushed(ResultsOf(pe, db, j.left), ResultsOf(pe, db, j.right), pe.env, p.condition, j.on, Types(Schema(j.left)), Types(Schema(j.right)));
    FilteredJoinResults(pe, db, p);
    PushedResults(pe, db, Plan(j.left), Plan(j.right), j.on, j.schema, p.condition);
  }

  lemma SameCross(s: Results, u: Results, env: Env, on: Option<Expr>, leftWidth: nat, rightWidth: nat)
    ensures Lift2(s, u, JoinStep(env, Cross, on, leftWidth, rightWidth)) == Lift2(s, u, JoinStep(env, Cross, None, leftWidth, rightWidth))
  {
    Lift2Same(s, u, JoinStep(env, Cross, on, leftWidth, rightWidth), JoinStep(env, Cross, None, leftWidth, rightWidth));
  }

  lemma {:induction false} SameJoin(pe: PlanEnv, cat: Catalog, db: Db, p: LogicalPlan)
    requires p.Join? && WellPlanned(pe, cat, p) && ExactFilters(pe, p) && DbConforms(db, cat)
    ensures ResultsOf(pe, db, p) == OptResultsOf(pe, db, Plan(p))
    decreases p, 0
  {
    hide *;
    var l, r, lw, rw := p.left, p.right, |Schema(p.left)|, |Schema(p.right)|;
    JoinForm(pe, cat, p);
    ExactParts(pe, p);
    PlanExact(pe, cat, db, l);
    PlanExact(pe, cat, db, r);
    PlanKeepsSchema(l);
    PlanKeepsSchema(r);
    JoinResults(pe, db, l, r, p.joinType, p.on, p.schema);
    if p.joinType.Inner? {
      RowsFitSchema(pe, cat, db, l);
      RowsFitSchema(pe, cat, db, r);
      SameInnerJoin(ResultsOf(pe, db, l), ResultsOf(pe, db, r), pe.env, p.on, Types(Schema(l)), Types(Schema(r)));
      InnerJoinResults(pe, db, Plan(l), Plan(r), p.on, p.schema, lw, Plan(p));
    } else if p.joinType.Cross? {
      SameCross(ResultsOf(pe, db, l), ResultsOf(pe, db, r), pe.env, p.on, lw, rw);
      CrossJoinResults(pe, db, Plan(l), Plan(r), p.schema);
    } else {
      LoopJoinResults(pe, db, Plan(l), Plan(r), p.joinType, p.on, p.schema);
    }
  }

  lemma {:induction false} SameLimit(pe: PlanEnv, cat: Catalog, db: Db, p: LogicalPlan)
    requires p.Limit? && WellPlanned(pe, cat, p) && ExactFilters(pe, p) && DbConforms(db, cat)
    ensures ResultsOf(pe, db, p) == OptResultsOf(pe, db, Plan(p))
    decreases p, 0
  {
    hide *;
    LimitForm(pe, cat, p);
    ExactParts(pe, p);
    LimitResults(pe, db, p.input, p.limit, p.offset);
    if p.input.Sort? && p.limit.Some? && p.offset.None? {
      var input, keys, n := p.input.input, p.input.sortExprs, p.limit.value;
      ExactParts(pe, p.input);
      PlanExact(pe, cat, db, input);
      RowsFitSchema(pe, cat, db, input);
      SortResults(pe, db, input, keys);
      SortLimitResults(ResultsOf(pe, db, input), pe.env, keys, n, Types(Schema(input)));
      TopNResults(pe, db, Plan(input), keys, n);
    } else {
      PlanExact(pe, cat, db, p.input);
      OptLimitResults(pe, db, Plan(p.input), p.limit, p.offset);
    }
  }

  lemma {:induction false} SameSetOp(pe: PlanEnv, cat: Catalog, db: Db, p: LogicalPlan)
    requires p.SetOperation? && WellPlanned(pe, cat, p) && ExactFilters(pe, p) && DbConforms(db, cat)
    ensures ResultsOf(pe, db, p) == OptResultsOf(pe, db, Plan(p))
    decreases p, 0
  {
    hide *;
    SetOpForm(pe, cat, p);
    ExactParts(pe, p);
    PlanExact(pe, cat, db, p.left);
    PlanExact(pe, cat, db, p.right);
    SetOpResults(pe, db, p.left, p.right, p.op, p.all, p.schema);
    match p.op
    case Union => UnionOfTwoResults(pe, db, Plan(p.left), Plan(p.right), p.all, p.schema);
    case Intersect => IntersectResults(pe, db, Plan(p.left), Plan(p.right), p.all, p.schema);
    case Except => ExceptResults(pe, db, Plan(p.left), Plan(p.right), p.all, p.schema);
  }

  lemma {:induction false} SameUnary(pe: PlanEnv, cat: Catalog, db: Db, p: LogicalPlan)
    requires (p.Filter? && !FilterOnInnerJoin(p)) || p.Project? || p.Aggregate? || p.Sort? || p.Distinct?
    requires WellPlanned(pe, cat, p) && ExactFilters(pe, p) && DbConforms(db, cat)
    ensures ResultsOf(pe, db, p) == OptResultsOf(pe, db, Plan(p))
    decreases p, 0
  {
    hide *;
    UnaryForm(pe, cat, p);
    ExactParts(pe, p);
    PlanExact(pe, cat, db, p.input);
    var o := Plan(p.input);
    match p
    case Filter(input, e) =>
      FilterResults(pe, db, input, e);
      OptFilterResults(pe, db, o, e);
    case Project(input, es, schema) =>
      ProjectResults(pe, db, input, es, schema);
      OptProjectResults(pe, db, o, es, schema);
    case Aggregate(input, gs, es, schema, sets) =>
      AggregateResults(pe, db, input, gs, es, schema, sets);
      HashAggregateResults(pe, db, o, gs, es, schema, sets);
    case Sort(input, keys) =>
      SortResults(pe, db, input, keys);
      OptSortResults(pe, db, o, keys);
    case Distinct(input) =>
      DistinctResults(pe, db, input);
      OptDistinctResults(pe, db, o);
  }

  /** A chain of CTEs, each query planned and turned back, may leave the same databases. */
  lemma {:induction false} SameCtes(pe: PlanEnv, cat: Catalog, db: Db, ctes: seq<CteDefinition>)
    requires CtesWellPlanned(pe, cat, ctes) && ExactCtes(pe, ctes) && DbConforms(db, cat)
    ensures CteResults(pe, db, PlanCtes(ctes)) == CteResults(pe, db, ctes)
    decreases ctes
  {
    hide *;
    if ctes == [] {
      NoCtes(pe, db);
    } else {
      FirstCte(pe, cat, ctes);
      FirstExact(pe, ctes);
      var q := ctes[0].query;
      PlanExact(pe, cat, db, q);
      ReplannableQuery(pe, cat, q);
      ReplannableRestorable(pe, cat, Plan(q), Schema(q));
      BackSame(pe, cat, db, Plan(q));
      RowsFitSchema(pe, cat, db, q);
      forall rows | Table(rows) in ResultsOf(pe, db, q)
        ensures var d := AddTable(db, ctes[0].name, rows); CteResults(pe, d, PlanCtes(ctes[1..])) == CteResults(pe, d, ctes[1..])
      {
        CteTableConforms(cat, db, ctes[0], ResultsOf(pe, db, q), rows);
        SameCtes(pe, AddCte(cat, ctes[0]), AddTable(db, ctes[0].name, rows), ctes[1..]);
      }
      SameChains(pe, db, PlanCtes(ctes), ctes);
    }
  }

  lemma FirstExact(pe: PlanEnv, ctes: seq<CteDefinition>)
    requires ctes != [] && ExactCtes(pe, ctes)
    ensures ExactFilters(pe, ctes[0].query) && ExactCtes(pe, ctes[1..])
  {
    hide ExactFilters;
  }

  lemma CteTableConforms(cat: Catalog, db: Db, cte: CteDefinition, s: Results, rows: seq<Row>)
    requires DbConforms(db, cat) && ResultsConform(s, Types(Schema(cte.query))) && Table(rows) in s
    ensures DbConforms(AddTable(db, cte.name, rows), AddCte(cat, cte))
  {
    hide Schema, Types, RowsConform;
  }

  lemma SameChains(pe: PlanEnv, db: Db, ctes: seq<CteDefinition>, ctes': seq<CteDefinition>)
    requires ctes != [] && ctes' != [] && ctes[0].name == ctes'[0].name
    requires ResultsOf(pe, db, ctes[0].query) == ResultsOf(pe, db, ctes'[0].query)
    requires forall rows | Table(rows) in ResultsOf(pe, db, ctes[0].query) ::
               var d := AddTable(db, ctes[0].name, rows); CteResults(pe, d, ctes[1..]) == CteResults(pe, d, ctes'[1..])
    ensures CteResults(pe, db, ctes) == CteResults(pe, db, ctes')
  {
    hide ResultsOf, AddTable;
  }

  lemma {:induction false} SameWithCte(pe: PlanEnv, cat: Catalog, db: Db, p: LogicalPlan)
    requires p.WithCte? && WellPlanned(pe, cat, p) && ExactFilters(pe, p) && DbConforms(db, cat)
    ensures ResultsOf(pe, db, p) == OptResultsOf(pe, db, Plan(p))
    decreases p, 0
  {
    hide *;
    WithCteForm(pe, cat, p);
    ExactParts(pe, p);
    SameCtes(pe, cat, db, p.ctes);
    CtesFitCatalog(pe, cat, db, p.ctes);
    forall d | Some(d) in CteResults(pe, db, p.ctes)
      ensures ResultsOf(pe, d, p.body) == OptResultsOf(pe, d, Plan(p.body))
    {
      PlanExact(pe, CteCatalog(cat, p.ctes), d, p.body);
    }
    SameBody(pe, db, p.ctes, PlanCtes(p.ctes), p.body, Plan(p.body));
  }

  lemma SameLeaf(pe: PlanEnv, db: Db, p: LogicalPlan)
    requires p.Scan? || p.Values? || p.Empty?
    ensures ResultsOf(pe, db, p) == OptResultsOf(pe, db, Plan(p))
  {
  }

  /**
   The optimizer is exact: where every filter sitting on an inner join is pushed exactly, the
   optimized plan may produce just the results the query may, failures included.
   */
  lemma {:induction false} PlanExact(pe: PlanEnv, cat: Catalog, db: Db, p: LogicalPlan)
    requires WellPlanned(pe, cat, p) && ExactFilters(pe, p) && DbConforms(db, cat)
    ensures ResultsOf(pe, db, p) == OptResultsOf(pe, db, Plan(p))
    decreases p
  {
    hide *;
    match p
    case Filter(_, _) =>
      if FilterOnInnerJoin(p) {
        InnerJoinBelow(p);
        SameFilteredJoin(pe, cat, db, p);
      } else {
        SameUnary(pe, cat, db, p);
      }
    case Join(_, _, _, _, _) => SameJoin(pe, cat, db, p);
    case Limit(_, _, _) => SameLimit(pe, cat, db, p);
    case SetOperation(_, _, _, _, _) => SameSetOp(pe, cat, db, p);
    case WithCte(_, _) => SameWithCte(pe, cat, db, p);
    case Project(_, _, _) => SameUnary(pe, cat, db, p);
    case Aggregate(_, _, _, _, _) => SameUnary(pe, cat, db, p);
    case Sort(_, _) => SameUnary(pe, cat, db, p);
    case Distinct(_) => SameUnary(pe, cat, db, p);
    case _ => SameLeaf(pe, db, p);
  }

  // ---------- And only where pushing is exact ----------

  lemma OneResult(t: TableResult, v: TableResult, f: (TableResult, TableResult) -> TableResult)
    ensures Lift2(iset{t}, iset{v}, f) == iset{f(t, v)}
  {
  }

  lemma OneScan(pe: PlanEnv, db: Db, p: LogicalPlan, rows: seq<Row>)
    requires p.Scan? && Upper(p.tableName) in db && db[Upper(p.tableName)] == rows
    ensures ResultsOf(pe, db, p) == iset{Table(rows)} && OptResultsOf(pe, db, Plan(p)) == iset{Table(rows)}
  {
    hide Upper;
  }

  lemma StepsApplied(env: Env, e: Expr, on: Option<Expr>, t: TableResult, v: TableResult, leftWidth: nat, rightWidth: nat)
    ensures FilteredJoinStep(env, e, on, leftWidth, rightWidth)(t, v) == FilterTable(env, e, JoinTable(env, Inner, on, t, v, leftWidth, rightWidth))
    ensures PushedStep(env, e, on, leftWidth, rightWidth)(t, v) == PushedTable(env, e, on, t, v, leftWidth, rightWidth)
  {
    hide FilterTable, JoinTable, PushedTable;
  }

  /** A filter on an inner join of two different stored tables. */
  predicate ScansFiltered(cat: Catalog, p: LogicalPlan) {
    && FilterOnInnerJoin(p) && p.input.left.Scan? && p.input.right.Scan?
    && Upper(p.input.left.tableName) in cat && Upper(p.input.right.tableName) in cat
    && Upper(p.input.left.tableName) != Upper(p.input.right.tableName)
  }

  /** Query and plan may produce the same, failures included, on every database. */
  ghost predicate AlwaysSamePlan(pe: PlanEnv, cat: Catalog, p: LogicalPlan) {
    forall db | DbConforms(db, cat) :: ResultsOf(pe, db, p) == OptResultsOf(pe, db, Plan(p))
  }

  /** A filtered join of two stored tables, before and after planning, on a database of just these. */
  lemma ScanResults(pe: PlanEnv, cat: Catalog, p: LogicalPlan, ls: seq<Row>, rs: seq<Row>)
    requires ScansFiltered(cat, p) && WellPlanned(pe, cat, p)
    ensures var j := p.input;
            var db: Db := map[Upper(j.left.tableName) := ls, Upper(j.right.tableName) := rs];
            var lw, rw := |Schema(j.left)|, |Schema(j.right)|;
            && ResultsOf(pe, db, p) == iset{FilterTable(pe.env, p.condition, JoinTable(pe.env, Inner, j.on, Table(ls), Table(rs), lw, rw))}
            && OptResultsOf(pe, db, Plan(p)) == iset{PushedTable(pe.env, p.condition, j.on, Table(ls), Table(rs), lw, rw)}
  {
    var j := p.input;
    var db: Db := map[Upper(j.left.tableName) := ls, Upper(j.right.tableName) := rs];
    assert p.Filter? && j.Join? && FilterOnInnerJoin(p) && j.left.Scan? && j.right.Scan? && Upper(j.left.tableName) != Upper(j.right.tableName);
    hide *;
    var l, r := Plan(j.left), Plan(j.right);
    var lw, rw := |Schema(j.left)|, |Schema(j.right)|;
    OneScan(pe, db, j.left, ls);
    OneScan(pe, db, j.right, rs);
    PlanKeepsSchema(j.left);
    PlanKeepsSchema(j.right);
    FilteredJoinForm(pe, cat, p);
    StepsApplied(pe.env, p.condition, j.on, Table(ls), Table(rs), lw, rw);
    FilteredJoinResults(pe, db, p);
    PushedResults(pe, db, l, r, j.on, j.schema, p.condition);
    OneResult(Table(ls), Table(rs), FilteredJoinStep(pe.env, p.condition, j.on, lw, rw));
    OneResult(Table(ls), Table(rs), PushedStep(pe.env, p.condition, j.on, lw, rw));
  }

  lemma SamePlansSameTables(pe: PlanEnv, cat: Catalog, p: LogicalPlan, ls: seq<Row>, rs: seq<Row>)
    requires ScansFiltered(cat, p) && WellPlanned(pe, cat, p) && AlwaysSamePlan(pe, cat, p)
    requires RowsConform(ls, Types(Schema(p.input.left))) && RowsConform(rs, Types(Schema(p.input.right)))
    ensures SameTable(pe.env, p.condition, p.input.on, Table(ls), Table(rs), |Types(Schema(p.input.left))|, |Types(Schema(p.input.right))|)
  {
    assert p.Filter? && p.input.Join? && FilterOnInnerJoin(p) && p.input.left.Scan? && p.input.right.Scan?;
    hide *;
    var j := p.input;
    var lw, rw := |Schema(j.left)|, |Schema(j.right)|;
    ScanFacts(pe, cat, p);
    TypesLength(Schema(j.left));
    TypesLength(Schema(j.right));
    TwoTables(pe, cat, p, ls, rs);
    ScanResults(pe, cat, p, ls, rs);
    SameTableIs(pe.env, p.condition, j.on, Table(ls), Table(rs), lw, rw);
    SameFromResults(FilterTable(pe.env, p.condition, JoinTable(pe.env, Inner, j.on, Table(ls), Table(rs), lw, rw)),
                    PushedTable(pe.env, p.condition, j.on, Table(ls), Table(rs), lw, rw));
  }

  /** For a filter on a join of two stored tables: query and plan agree on every database, failures included, exactly when pushing is exact. */
  lemma ScanPlanIff(pe: PlanEnv, cat: Catalog, p: LogicalPlan)
    requires ScansFiltered(cat, p) && WellPlanned(pe, cat, p)
    ensures AlwaysSamePlan(pe, cat, p)
            <==> PushesExactly(pe.env, p.condition, p.input.on, Types(Schema(p.input.left)), Types(Schema(p.input.right)))
  {
    assert p.Filter? && p.input.Join?;
    hide *;
    var j := p.input;
    if PushesExactly(pe.env, p.condition, j.on, Types(Schema(j.left)), Types(Schema(j.right))) {
      ScanPlanSame(pe, cat, p);
    }
    if AlwaysSamePlan(pe, cat, p) {
      ScanPlanPushes(pe, cat, p);
    }
  }

  lemma ScanPlanSame(pe: PlanEnv, cat: Catalog, p: LogicalPlan)
    requires ScansFiltered(cat, p) && WellPlanned(pe, cat, p)
    requires PushesExactly(pe.env, p.condition, p.input.on, Types(Schema(p.input.left)), Types(Schema(p.input.right)))
    ensures AlwaysSamePlan(pe, cat, p)
  {
    hide WellPlanned, ResultsOf, OptResultsOf, Plan, DbConforms, PushesExactly, ExactFilters, Schema, Types;
    ScanFacts(pe, cat, p);
    forall db | DbConforms(db, cat)
      ensures ResultsOf(pe, db, p) == OptResultsOf(pe, db, Plan(p))
    {
      PlanExact(pe, cat, db, p);
    }
  }

  lemma ScanPlanPushes(pe: PlanEnv, cat: Catalog, p: LogicalPlan)
    requires ScansFiltered(cat, p) && WellPlanned(pe, cat, p) && AlwaysSamePlan(pe, cat, p)
    ensures PushesExactly(pe.env, p.condition, p.input.on, Types(Schema(p.input.left)), Types(Schema(p.input.right)))
  {
    assert p.Filter? && p.input.Join? && FilterOnInnerJoin(p);
    hide *;
    var j := p.input;
    var lts, rts := Types(Schema(j.left)), Types(Schema(j.right));
    ScanCondition(pe, cat, p, lts, rts);
    PushdownExactIff(pe.env, p.condition, j.on, lts, rts);
    SamePlansAllTables(pe, cat, p, lts, rts);
  }

  lemma ScanCondition(pe: PlanEnv, cat: Catalog, p: LogicalPlan, lts: seq<DataType>, rts: seq<DataType>)
    requires FilterOnInnerJoin(p) && WellPlanned(pe, cat, p) && lts == Types(Schema(p.input.left)) && rts == Types(Schema(p.input.right))
    ensures EquiJoinSafe(p.input.on, lts, rts) && Resolved(p.condition, |lts| + |rts|)
  {
    hide EquiJoinSafe, Resolved, Schema, Types;
    assert WellPlanned(pe, cat, p.input);
  }

  lemma SamePlansAllTables(pe: PlanEnv, cat: Catalog, p: LogicalPlan, lts: seq<DataType>, rts: seq<DataType>)
    requires ScansFiltered(cat, p) && WellPlanned(pe, cat, p) && AlwaysSamePlan(pe, cat, p)
    requires lts == Types(Schema(p.input.left)) && rts == Types(Schema(p.input.right))
    ensures SameOnAllTables(pe.env, p.condition, p.input.on, lts, rts)
  {
    assert p.Filter? && p.input.Join?;
    hide ScansFiltered, WellPlanned, AlwaysSamePlan, Types, Schema, SameTable, RowsConform;
    forall ls, rs | RowsConform(ls, lts) && RowsConform(rs, rts)
      ensures SameTable(pe.env, p.condition, p.input.on, Table(ls), Table(rs), |lts|, |rts|)
    {
      SamePlansSameTables(pe, cat, p, ls, rs);
    }
  }

  lemma SameTableIs(env: Env, e: Expr, on: Option<Expr>, lt: TableResult, rt: TableResult, leftWidth: nat, rightWidth: nat)
    ensures SameTable(env, e, on, lt, rt, leftWidth, rightWidth)
            <==> FilterTable(env, e, JoinTable(env, Inner, on, lt, rt, leftWidth, rightWidth)) == PushedTable(env, e, on, lt, rt, leftWidth, rightWidth)
  {
  }

  lemma TypesLength(schema: PlanSchema)
    ensures |Types(schema)| == |schema|
  {
  }

  /** The database of just these two tables. */
  lemma TwoTables(pe: PlanEnv, cat: Catalog, p: LogicalPlan, ls: seq<Row>, rs: seq<Row>)
    requires ScansFiltered(cat, p) && AlwaysSamePlan(pe, cat, p)
    requires RowsConform(ls, cat[Upper(p.input.left.tableName)]) && RowsConform(rs, cat[Upper(p.input.right.tableName)])
    ensures var db: Db := map[Upper(p.input.left.tableName) := ls, Upper(p.input.right.tableName) := rs];
            ResultsOf(pe, db, p) == OptResultsOf(pe, db, Plan(p))
  {
    hide ResultsOf, OptResultsOf, Plan, RowsConform, Upper;
    var db: Db := map[Upper(p.input.left.tableName) := ls, Upper(p.input.right.tableName) := rs];
    assert DbConforms(db, cat);
  }

  lemma ScanFacts(pe: PlanEnv, cat: Catalog, p: LogicalPlan)
    requires ScansFiltered(cat, p) && WellPlanned(pe, cat, p)
    ensures var j := p.input;
            && (ExactFilters(pe, p) <==> PushesExactly(pe.env, p.condition, j.on, Types(Schema(j.left)), Types(Schema(j.right))))
            && cat[Upper(j.left.tableName)] == Types(Schema(j.left)) && cat[Upper(j.right.tableName)] == Types(Schema(j.right))
  {
    hide PushesExactly, Upper, EquiJoinSafe, Resolved;
    var j := p.input;
    assert WellPlanned(pe, cat, j) && WellPlanned(pe, cat, j.left) && WellPlanned(pe, cat, j.right);
    assert ExactFilters(pe, j.left) && ExactFilters(pe, j.right) && ExactFilters(pe, j);
  }

  lemma SameFromResults(t: TableResult, v: TableResult)
    ensures iset{t} == iset{v} ==> t == v
  {
    assert t in iset{t};
  }

  // ---------- Why the condition is needed ----------

  function Col(i: nat): Expr {
    Column(None, "c", Some(i))
  }

  lemma ColumnValue(env: Env, i: nat, row: Row)
    requires i < |row|
    ensures Eval(env, Col(i), row) == Val(row[i])
  {
  }

  lemma BinaryOfColumns(env: Env, i: nat, op: BinaryOp, b: Expr, row: Row, v: Value)
    requires i < |row| && Eval(env, b, row) == Val(v)
    ensures Eval(env, Binary(Col(i), op, b), row) == BinaryValues(env.prims, op, row[i], v)
  {
    var e := Binary(Col(i), op, b);
    ColumnValue(env, i, row);
    EvalByChildren(env, e, row);
    var rs := EvalAll(env, Children(e), row);
    assert rs == [Val(row[i]), Val(v)];
    assert AllVal(rs) && ValuesOf(rs) == [row[i], v];
  }

  lemma LiteralValue(env: Env, v: Value, row: Row)
    ensures Eval(env, Literal(v), row) == Val(v)
  {
    EvalByChildren(env, Literal(v), row);
  }

  lemma FailingAnd(env: Env, a: Expr, b: Expr, row: Row)
    requires Eval(env, b, row).Fail?
    ensures Eval(env, Binary(a, And, b), row).Fail?
  {
    var e := Binary(a, And, b);
    EvalByChildren(env, e, row);
    var rs := EvalAll(env, Children(e), row);
    assert rs[1] == Eval(env, b, row) && rs[1] in rs;
  }

  lemma CombineFew(c: Expr)
    ensures CombinePredicates([]) == None && CombinePredicates([c]) == Some(c)
  {
  }

  lemma KeepOne(row: Row, f: Row -> bool)
    ensures Keep([row], f) == if f(row) then [row] else []
    ensures Keep([], f) == []
  {
    assert [row][1..] == [];
  }

  /** The filter of the examples, on a table of one row. */
  lemma FilterOne(env: Env, e: Expr, row: Row)
    ensures FilterTable(env, e, Table([row]))
            == if Eval(env, e, row).Fail? then Failed else if IsTrue(Eval(env, e, row)) then Table([row]) else Table([])
    ensures FilterTable(env, e, Table([])) == Table([])
  {
    hide Eval, IsTrue, Keep;
    assert row in [row] && forall r :: r in [row] <==> r == row;
    KeepOne(row, r => IsTrue(Eval(env, e, r)));
  }

  /** The unconditional join of the examples, of at most one row with one row. */
  lemma CrossOne(env: Env, l: Row, r: Row)
    ensures JoinTable(env, Inner, None, Table([l]), Table([r]), 1, 1) == Table([l + r])
    ensures JoinTable(env, Inner, None, Table([]), Table([r]), 1, 1) == Table([])
  {
    assert Matches(l, [r], OnPair(env, None)) == [l + r];
    assert Pairs([l], [r], OnPair(env, None)) == [l + r];
  }

  lemma SidesOfHidden(c: Expr, d: Expr)
    requires c == Binary(Col(0), Eq, Literal(Int64(1))) && d == Binary(Col(0), Or, Col(1))
    ensures ClassifyPredicateSide(c, 1) == Some(Left) && ClassifyPredicateSide(d, 1) == Some(Both)
    ensures !IsAnd(c) && !IsAnd(d)
  {
  }

  lemma PartsOfHidden(c: Expr, d: Expr)
    requires c == Binary(Col(0), Eq, Literal(Int64(1))) && d == Binary(Col(0), Or, Col(1))
    ensures SplitAnd(Binary(c, And, d)) == [c, d]
    ensures PartitionConjuncts([c, d], 1) == Partition([c], [], [d])
  {
    hide *;
    SidesOfHidden(c, d);
    SplitOfHidden(c, d);
    PartitionTwo(c, d, 1);
  }

  lemma SplitOfHidden(c: Expr, d: Expr)
    requires !IsAnd(c) && !IsAnd(d)
    ensures SplitAnd(Binary(c, And, d)) == [c, d]
  {
    assert SplitAnd(c) == [c] && SplitAnd(d) == [d];
  }

  lemma PartitionTwo(c: Expr, d: Expr, leftWidth: nat)
    requires ClassifyPredicateSide(c, leftWidth) == Some(Left) && ClassifyPredicateSide(d, leftWidth) == Some(Both)
    ensures PartitionConjuncts([c, d], leftWidth) == Partition([c], [], [d])
  {
    hide ClassifyPredicateSide, AdjustPredicateIndices;
    assert PartitionConjuncts([], leftWidth) == Partition([], [], []);
    hide PartitionConjuncts;
    PartitionAppend([], c, leftWidth);
    PartitionAppend([c], d, leftWidth);
    assert [] + [c] == [c] && [c] + [d] == [c, d];
  }

  lemma ValuesOfHidden(env: Env, c: Expr, d: Expr)
    requires c == Binary(Col(0), Eq, Literal(Int64(1))) && d == Binary(Col(0), Or, Col(1))
    ensures Eval(env, Binary(c, And, d), [Int64(2)] + [Int64(5)]).Fail?
    ensures Eval(env, c, [Int64(2)]) == Val(Bool(false))
  {
    hide Eval;
    var l, r := [Int64(2)], [Int64(5)];
    assert l + r == [Int64(2), Int64(5)];
    ColumnValue(env, 1, l + r);
    BinaryOfColumns(env, 0, Or, Col(1), l + r, Int64(5));
    FailingAnd(env, c, d, l + r);
    LiteralValue(env, Int64(1), l);
    BinaryOfColumns(env, 0, Eq, Literal(Int64(1)), l, Int64(1));
  }

  /** `WHERE a = 1 AND (a OR b)` over a pair of integers (2, 5): the query fails, the pushed plan gives no rows. */
  lemma FailureHidden(env: Env)
    ensures var e := Binary(Binary(Col(0), Eq, Literal(Int64(1))), And, Binary(Col(0), Or, Col(1)));
            var lt, rt := Table([[Int64(2)]]), Table([[Int64(5)]]);
            && FilterTable(env, e, JoinTable(env, Inner, None, lt, rt, 1, 1)).Failed?
            && PushedTable(env, e, None, lt, rt, 1, 1) == Table([])
  {
    hide Eval, FilterTable, JoinTable, PartitionConjuncts, SplitAnd, CombinePredicates;
    var c, d := Binary(Col(0), Eq, Literal(Int64(1))), Binary(Col(0), Or, Col(1));
    var l, r := [Int64(2)], [Int64(5)];
    ValuesOfHidden(env, c, d);
    CrossOne(env, l, r);
    FilterOne(env, Binary(c, And, d), l + r);
    PartsOfHidden(c, d);
    CombineFew(c);
    CombineFew(d);
    FilterOne(env, c, l);
    FilterOne(env, d, []);
  }

  lemma SideOfExposed(e: Expr)
    requires e == Unary(Not, Col(1))
    ensures ClassifyPredicateSide(e, 1) == Some(Right) && SplitAnd(e) == [e]
  {
  }

  lemma PartsOfExposed(e: Expr, e': Expr)
    requires e == Unary(Not, Col(1)) && e' == Unary(Not, Col(0))
    ensures SplitAnd(e) == [e] && PartitionConjuncts([e], 1) == Partition([], [e'], [])
  {
    hide ClassifyPredicateSide, AdjustPredicateIndices, SplitAnd;
    ShiftedNot(e, e');
    SideOfExposed(e);
    assert PartitionConjuncts([], 1) == Partition([], [], []);
    hide PartitionConjuncts;
    PartitionAppend([], e, 1);
    assert [] + [e] == [e] && [] + [e'] == [e'];
  }

  lemma ShiftedNot(e: Expr, e': Expr)
    requires e == Unary(Not, Col(1)) && e' == Unary(Not, Col(0))
    ensures AdjustPredicateIndices(e, 1) == e'
  {
    assert AdjustPredicateIndices(Col(1), 1) == Col(0);
    hide AdjustPredicateIndices;
    assert AdjustAll(Children(e), 1) == [Col(0)];
  }

  lemma NotOfInteger(env: Env, e: Expr, row: Row)
    requires e == Unary(Not, Col(0)) && row == [Int64(5)]
    ensures Eval(env, e, row).Fail?
  {
    hide Eval;
    ColumnValue(env, 0, row);
    EvalByChildren(env, e, row);
    assert EvalAll(env, Children(e), row) == [Val(Int64(5))];
  }

  /** `WHERE NOT b` over no left rows and the right row (5): the query gives no rows, the pushed plan fails. */
  lemma FailureExposed(env: Env)
    ensures var e := Unary(Not, Col(1));
            var lt, rt := Table([]), Table([[Int64(5)]]);
            && FilterTable(env, e, JoinTable(env, Inner, None, lt, rt, 1, 1)) == Table([])
            && PushedTable(env, e, None, lt, rt, 1, 1).Failed?
  {
    hide Eval, FilterTable, PartitionConjuncts, SplitAnd, CombinePredicates;
    var e, e' := Unary(Not, Col(1)), Unary(Not, Col(0));
    var r := [Int64(5)];
    PartsOfExposed(e, e');
    CombineFew(e');
    NotOfInteger(env, e', r);
    FilterOne(env, e', r);
    FilterOne(env, e, r);
    CrossOne(env, r, r);
  }
}
