/**
 The optimizer preserves meaning: a well-planned query and its optimized plan may produce the
 same tables, pushdown, hash joins, TopN and common table expressions included.
 */
module PlanProof {
  import opened Wrappers
  import opened Names
  import opened Ir
  import opened Evaluator
  import opened Predicates
  import opened EquiKeys
  import opened Tables
  import opened Sorting
  import opened ResultSets
  import opened Plans
  import opened PlanSemantics
  import opened Pushdown

  // ---------- Results of the plans the optimizer builds ----------

  function FilterIfStep(env: Env, condition: Option<Expr>): TableResult -> TableResult {
    t => FilterTableIf(env, condition, t)
  }

  function InnerJoinStep(env: Env, on: Option<Expr>, leftWidth: nat, rightWidth: nat): (TableResult, TableResult) -> TableResult {
    (lt, rt) => InnerJoinTable(env, on, lt, rt, leftWidth, rightWidth)
  }

  function PushedStep(env: Env, e: Expr, on: Option<Expr>, leftWidth: nat, rightWidth: nat): (TableResult, TableResult) -> TableResult {
    (lt, rt) => PushedTable(env, e, on, lt, rt, leftWidth, rightWidth)
  }

  function FilteredJoinStep(env: Env, e: Expr, on: Option<Expr>, leftWidth: nat, rightWidth: nat): (TableResult, TableResult) -> TableResult {
    (lt, rt) => FilterTable(env, e, JoinTable(env, Inner, on, lt, rt, leftWidth, rightWidth))
  }

  lemma FilterIfResults(pe: PlanEnv, db: Db, o: OptimizedPlan, condition: Option<Expr>)
    ensures OptResultsOf(pe, db, FilterIf(o, condition)) == Lift(OptResultsOf(pe, db, o), FilterIfStep(pe.env, condition))
  {
    hide OptResultsOf;
    var s := OptResultsOf(pe, db, o);
    if condition.Some? {
      OptFilterResults(pe, db, o, condition.value);
      var f, g := FilterStep(pe.env, condition.value), FilterIfStep(pe.env, condition);
      assert forall t :: f(t) == g(t);
      assert Lift(s, f) == Lift(s, g);
    }
  }

  lemma InnerJoinLift(env: Env, on: Option<Expr>, s: Results, u: Results, leftWidth: nat, rightWidth: nat)
    ensures on.Some? && KeysOf(on.value, leftWidth).Some? ==>
              Lift2(s, u, InnerJoinStep(env, on, leftWidth, rightWidth)) == Lift2(s, u, HashJoinStep(env, KeysOf(on.value, leftWidth).value))
    ensures !(on.Some? && KeysOf(on.value, leftWidth).Some?) ==>
              Lift2(s, u, InnerJoinStep(env, on, leftWidth, rightWidth)) == Lift2(s, u, JoinStep(env, Inner, on, leftWidth, rightWidth))
  {
    var f := InnerJoinStep(env, on, leftWidth, rightWidth);
    if on.Some? && KeysOf(on.value, leftWidth).Some? {
      Lift2Same(s, u, f, HashJoinStep(env, KeysOf(on.value, leftWidth).value));
    } else {
      Lift2Same(s, u, f, JoinStep(env, Inner, on, leftWidth, rightWidth));
    }
  }

  lemma InnerJoinResults(pe: PlanEnv, db: Db, ol: OptimizedPlan, or: OptimizedPlan, on: Option<Expr>, schema: PlanSchema, leftWidth: nat, o: OptimizedPlan)
    requires leftWidth == |OptSchema(ol)| && o == PlanInnerJoin(ol, or, on, schema, leftWidth)
    ensures OptResultsOf(pe, db, o)
            == Lift2(OptResultsOf(pe, db, ol), OptResultsOf(pe, db, or), InnerJoinStep(pe.env, on, leftWidth, |OptSchema(or)|))
  {
    hide *;
    InnerJoinLift(pe.env, on, OptResultsOf(pe, db, ol), OptResultsOf(pe, db, or), leftWidth, |OptSchema(or)|);
    InnerPlanForms(ol, or, on, schema, leftWidth);
    if on.Some? && KeysOf(on.value, leftWidth).Some? {
      HashJoinResults(pe, db, ol, or, KeysOf(on.value, leftWidth).value, schema);
    } else {
      LoopJoinResults(pe, db, ol, or, Inner, on, schema);
    }
  }

  lemma InnerPlanForms(l: OptimizedPlan, r: OptimizedPlan, on: Option<Expr>, schema: PlanSchema, leftWidth: nat)
    ensures on.Some? && KeysOf(on.value, leftWidth).Some? ==>
              PlanInnerJoin(l, r, on, schema, leftWidth) == OptimizedPlan.HashJoin(l, r, Inner, KeysOf(on.value, leftWidth).value, schema)
    ensures on.None? || KeysOf(on.value, leftWidth).None? ==>
              PlanInnerJoin(l, r, on, schema, leftWidth) == OptimizedPlan.NestedLoopJoin(l, r, Inner, on, schema)
  {
  }

  /** The plan of a filter directly on an inner join. */
  function PushedPlan(ol: OptimizedPlan, or: OptimizedPlan, on: Option<Expr>, schema: PlanSchema, condition: Expr, leftWidth: nat): OptimizedPlan {
    var parts := PartitionConjuncts(SplitAnd(condition), leftWidth);
    FilterIf(PlanInnerJoin(FilterIf(ol, CombinePredicates(parts.left)), FilterIf(or, CombinePredicates(parts.right)), on, schema, leftWidth),
             CombinePredicates(parts.post))
  }

  lemma PushedResults(pe: PlanEnv, db: Db, ol: OptimizedPlan, or: OptimizedPlan, on: Option<Expr>, schema: PlanSchema, e: Expr)
    ensures OptResultsOf(pe, db, PushedPlan(ol, or, on, schema, e, |OptSchema(ol)|))
            == Lift2(OptResultsOf(pe, db, ol), OptResultsOf(pe, db, or), PushedStep(pe.env, e, on, |OptSchema(ol)|, |OptSchema(or)|))
  {
    hide OptResultsOf, Lift, Lift2;
    var lw, rw := |OptSchema(ol)|, |OptSchema(or)|;
    var parts := PartitionConjuncts(SplitAnd(e), lw);
    var lp, rp, pp := CombinePredicates(parts.left), CombinePredicates(parts.right), CombinePredicates(parts.post);
    var l, r := FilterIf(ol, lp), FilterIf(or, rp);
    var s, u := OptResultsOf(pe, db, ol), OptResultsOf(pe, db, or);
    var f, g := FilterIfStep(pe.env, lp), FilterIfStep(pe.env, rp);
    FilterIfResults(pe, db, ol, lp);
    FilterIfResults(pe, db, or, rp);
    InnerJoinResults(pe, db, l, r, on, schema, lw, PlanInnerJoin(l, r, on, schema, lw));
    FilterIfResults(pe, db, PlanInnerJoin(l, r, on, schema, lw), pp);
    var j := InnerJoinStep(pe.env, on, lw, rw);
    var fj := (lt, rt) => j(f(lt), g(rt));
    Lift2AfterLift(s, u, f, g, j, fj);
    LiftAfterLift2(s, u, fj, FilterIfStep(pe.env, pp), PushedStep(pe.env, e, on, lw, rw));
  }

  lemma FilteredJoinResults(pe: PlanEnv, db: Db, p: LogicalPlan)
    requires FilterOnInnerJoin(p)
    ensures var j := p.input;
            ResultsOf(pe, db, p)
            == Lift2(ResultsOf(pe, db, j.left), ResultsOf(pe, db, j.right),
                     FilteredJoinStep(pe.env, p.condition, j.on, |Schema(j.left)|, |Schema(j.right)|))
  {
    var j := p.input;
    LiftAfterLift2(ResultsOf(pe, db, j.left), ResultsOf(pe, db, j.right),
                   JoinStep(pe.env, Inner, j.on, |Schema(j.left)|, |Schema(j.right)|), FilterStep(pe.env, p.condition),
                   FilteredJoinStep(pe.env, p.condition, j.on, |Schema(j.left)|, |Schema(j.right)|));
  }

  // ---------- Agreement, operator by operator ----------

  /** A nested loop or cross join of agreeing sides agrees with the logical join. */
  lemma AgreeLoopJoin(s: Results, u: Results, s': Results, u': Results, env: Env, joinType: JoinType,
                      on: Option<Expr>, on': Option<Expr>, leftWidth: nat, rightWidth: nat)
    requires Agree(s, s') && Agree(u, u') && (joinType.Cross? || on == on')
    ensures Agree(Lift2(s, u, JoinStep(env, joinType, on, leftWidth, rightWidth)),
                  Lift2(s', u', JoinStep(env, joinType, on', leftWidth, rightWidth)))
  {
    var f, g := JoinStep(env, joinType, on, leftWidth, rightWidth), JoinStep(env, joinType, on', leftWidth, rightWidth);
    assert Strict2(f) && Strict2(g);
    Lift2Agrees(s, u, s', u', f, g);
  }

  lemma AgreeSetOp(s: Results, u: Results, s': Results, u': Results, op: SetOperationType, all: bool)
    requires Agree(s, s') && Agree(u, u')
    ensures Agree(Lift2(s, u, SetOpStep(op, all)), Lift2(s', u', SetOpStep(op, all)))
  {
    assert Strict2(SetOpStep(op, all));
    Lift2Agrees(s, u, s', u', SetOpStep(op, all), SetOpStep(op, all));
  }

  lemma AgreeInnerJoin(s: Results, u: Results, s': Results, u': Results, env: Env, on: Option<Expr>, lts: seq<DataType>, rts: seq<DataType>)
    requires Agree(s, s') && Agree(u, u') && ResultsConform(s, lts) && ResultsConform(u, rts) && EquiJoinSafe(on, lts, rts)
    ensures Agree(Lift2(s, u, JoinStep(env, Inner, on, |lts|, |rts|)), Lift2(s', u', InnerJoinStep(env, on, |lts|, |rts|)))
  {
    var f, g := JoinStep(env, Inner, on, |lts|, |rts|), InnerJoinStep(env, on, |lts|, |rts|);
    forall t, v: TableResult | t in s && v in u && f(t, v).Table? && g(t, v).Table?
      ensures f(t, v) == g(t, v)
    {
      InnerJoinExact(env, on, t, v, lts, rts);
    }
    assert Strict2(f) && Strict2(g);
    Lift2Agrees(s, u, s', u', f, g);
  }

  lemma AgreePushed(s: Results, u: Results, s': Results, u': Results, env: Env, e: Expr, on: Option<Expr>, lts: seq<DataType>, rts: seq<DataType>)
    requires Agree(s, s') && Agree(u, u') && ResultsConform(s, lts) && ResultsConform(u, rts)
    requires EquiJoinSafe(on, lts, rts) && Resolved(e, |lts| + |rts|)
    ensures Agree(Lift2(s, u, FilteredJoinStep(env, e, on, |lts|, |rts|)), Lift2(s', u', PushedStep(env, e, on, |lts|, |rts|)))
  {
    var f, g := FilteredJoinStep(env, e, on, |lts|, |rts|), PushedStep(env, e, on, |lts|, |rts|);
    forall t, v: TableResult | t in s && v in u && f(t, v).Table? && g(t, v).Table?
      ensures f(t, v) == g(t, v)
    {
      PushdownExact(env, e, on, t, v, lts, rts);
    }
    forall t: TableResult
      ensures f(Failed, t) == Failed && f(t, Failed) == Failed && g(Failed, t) == Failed && g(t, Failed) == Failed
    {
      PushedFails(env, e, on, Failed, t, |lts|, |rts|);
      PushedFails(env, e, on, t, Failed, |lts|, |rts|);
    }
    Lift2Agrees(s, u, s', u', f, g);
  }

  /** Sort then Limit, as one relation, is TopN. */
  lemma SortLimitResults(s: Results, env: Env, keys: seq<SortExpr>, count: nat, types: seq<DataType>)
    requires ResultsConform(s, types) && KeysSortable(env, keys, types)
    ensures Lift(LiftRel(s, SortStep(env, keys)), LimitStep(Some(count), None)) == LiftRel(s, TopNStep(env, keys, count))
  {
    forall t, out: TableResult | t in s
      ensures TopNStep(env, keys, count)(t, out) <==> exists m: TableResult :: SortStep(env, keys)(t, m) && out == LimitStep(Some(count), None)(m)
    {
      TopNExact(env, keys, types, count, t, out);
      if TopNYields(env, keys, count, t, out) {
        var m :| SortYields(env, keys, t, m) && out == LimitTable(Some(count), None, m);
        assert SortStep(env, keys)(t, m) && out == LimitStep(Some(count), None)(m);
      }
    }
    LiftAfterRel(s, SortStep(env, keys), LimitStep(Some(count), None), TopNStep(env, keys, count));
  }

  lemma AgreeTopN(s: Results, s': Results, env: Env, keys: seq<SortExpr>, count: nat, types: seq<DataType>)
    requires Agree(s, s') && ResultsConform(s, types) && KeysSortable(env, keys, types)
    ensures Agree(Lift(LiftRel(s, SortStep(env, keys)), LimitStep(Some(count), None)), LiftRel(s', TopNStep(env, keys, count)))
  {
    SortLimitResults(s, env, keys, count, types);
    var f := TopNStep(env, keys, count);
    assert StrictRel(f);
  }

  lemma AgreeSort(s: Results, s': Results, env: Env, keys: seq<SortExpr>)
    requires Agree(s, s')
    ensures Agree(LiftRel(s, SortStep(env, keys)), LiftRel(s', SortStep(env, keys)))
  {
    assert StrictRel(SortStep(env, keys));
  }

  // ---------- Unions of several inputs ----------

  /** The nested binary unions `into_logical` builds. */
  function FoldTable(all: bool, ts: seq<TableResult>): TableResult
    requires ts != []
    decreases |ts|
  {
    var n := |ts| - 1;
    if n == 0 then ts[0] else SetOpTable(SetOperationType.Union, all, FoldTable(all, ts[..n]), ts[n])
  }

  lemma ConcatAppend(front: seq<TableResult>, t: TableResult)
    requires t.Table? && forall x | x in front :: x.Table?
    ensures (forall x | x in front + [t] :: x.Table?) && ConcatRows(front + [t]) == ConcatRows(front) + t.rows
  {
    assert (front + [t])[..|front|] == front;
  }

  lemma ConcatTwo(a: TableResult, b: TableResult)
    requires a.Table? && b.Table?
    ensures ConcatRows([a, b]) == a.rows + b.rows
  {
    ConcatAppend([], a);
    ConcatAppend([a], b);
    assert [] + [a] == [a] && [a] + [b] == [a, b];
    assert ConcatRows([]) == [] && [] + a.rows == a.rows;
  }

  /** The union of some inputs and then one more. */
  lemma UnionAppend(all: bool, front: seq<TableResult>, t: TableResult)
    ensures SetOpTable(SetOperationType.Union, all, UnionTable(all, front), t) == UnionTable(all, front + [t])
  {
    hide Dedup, ConcatRows;
    assert forall x :: x in front + [t] <==> x in front || x == t;
    if t.Table? && forall x | x in front :: x.Table? {
      ConcatAppend(front, t);
      DedupAbsorbs(ConcatRows(front), t.rows);
    }
  }

  lemma UnionOfTwo(all: bool, a: TableResult, b: TableResult)
    ensures SetOpTable(SetOperationType.Union, all, a, b) == UnionTable(all, [a, b])
  {
    hide Dedup, ConcatRows;
    assert forall x :: x in [a, b] <==> x == a || x == b;
    if a.Table? && b.Table? {
      ConcatTwo(a, b);
    }
  }

  /** Two or more inputs: nesting binary unions, each dropping repeats, is one union of all of them. */
  lemma {:induction false} FoldIsUnion(all: bool, ts: seq<TableResult>)
    requires |ts| >= 2
    ensures FoldTable(all, ts) == UnionTable(all, ts)
    decreases |ts|
  {
    hide SetOpTable, UnionTable;
    var front, last := ts[..|ts| - 1], ts[|ts| - 1];
    assert ts == front + [last];
    if |ts| == 2 {
      assert front == [ts[0]] && FoldTable(all, front) == ts[0] && ts == [ts[0], last];
      UnionOfTwo(all, ts[0], last);
    } else {
      FoldIsUnion(all, front);
      UnionAppend(all, front, last);
    }
  }

  ghost function FoldResults(pe: PlanEnv, db: Db, inputs: seq<OptimizedPlan>, all: bool): Results
    requires inputs != []
    decreases |inputs|
  {
    var n := |inputs| - 1;
    if n == 0 then OptResultsOf(pe, db, inputs[0])
    else Lift2(FoldResults(pe, db, inputs[..n], all), OptResultsOf(pe, db, inputs[n]), SetOpStep(SetOperationType.Union, all))
  }

  lemma InputLengths(pe: PlanEnv, db: Db, inputs: seq<OptimizedPlan>)
    ensures forall ts | ts in InputResults(pe, db, inputs) :: |ts| == |inputs|
    decreases |inputs|
  {
    if inputs != [] {
      InputLengths(pe, db, inputs[..|inputs| - 1]);
    }
  }

  ghost function FoldSet(pe: PlanEnv, db: Db, inputs: seq<OptimizedPlan>, all: bool): Results
  {
    iset ts | ts in InputResults(pe, db, inputs) :: FoldOf(all)(ts)
  }

  function FoldOf(all: bool): seq<TableResult> -> TableResult {
    (ts: seq<TableResult>) => if ts == [] then Failed else FoldTable(all, ts)
  }

  /** Folding lists whose fronts come from `fronts` and whose last tables come from `u`. */
  lemma FoldExtended(fold: seq<TableResult> -> TableResult, f: (TableResult, TableResult) -> TableResult,
                     fronts: iset<seq<TableResult>>, u: Results, whole: iset<seq<TableResult>>)
    requires forall ts, t | ts in fronts && t in u :: fold(ts + [t]) == f(fold(ts), t)
    requires forall us :: us in whole <==> exists ts, t :: ts in fronts && t in u && us == ts + [t]
    ensures (iset us | us in whole :: fold(us)) == Lift2(iset ts | ts in fronts :: fold(ts), u, f)
  {
    var a := iset ts | ts in fronts :: fold(ts);
    var b := iset us | us in whole :: fold(us);
    forall out | out in b
      ensures out in Lift2(a, u, f)
    {
      var us :| us in whole && out == fold(us);
      var ts, t :| ts in fronts && t in u && us == ts + [t];
      assert fold(ts) in a && out == f(fold(ts), t);
    }
    forall out | out in Lift2(a, u, f)
      ensures out in b
    {
      var m, t :| m in a && t in u && out == f(m, t);
      var ts :| ts in fronts && m == fold(ts);
      assert ts + [t] in whole;
    }
  }

  lemma FoldSetStep(pe: PlanEnv, db: Db, inputs: seq<OptimizedPlan>, all: bool)
    requires |inputs| > 1
    ensures var n := |inputs| - 1;
            FoldSet(pe, db, inputs, all)
            == Lift2(FoldSet(pe, db, inputs[..n], all), OptResultsOf(pe, db, inputs[n]), SetOpStep(SetOperationType.Union, all))
  {
    var n := |inputs| - 1;
    var fold := FoldOf(all);
    InputLengths(pe, db, inputs[..n]);
    forall ts, t | ts in InputResults(pe, db, inputs[..n]) && t in OptResultsOf(pe, db, inputs[n])
      ensures fold(ts + [t]) == SetOpStep(SetOperationType.Union, all)(fold(ts), t)
    {
    }
    FoldExtended(fold, SetOpStep(SetOperationType.Union, all), InputResults(pe, db, inputs[..n]), OptResultsOf(pe, db, inputs[n]),
                 InputResults(pe, db, inputs));
  }

  lemma {:induction false} FoldResultsAreFoldSet(pe: PlanEnv, db: Db, inputs: seq<OptimizedPlan>, all: bool)
    requires inputs != []
    ensures FoldResults(pe, db, inputs, all) == FoldSet(pe, db, inputs, all)
    decreases |inputs|
  {
    var n := |inputs| - 1;
    if n > 0 {
      FoldResultsAreFoldSet(pe, db, inputs[..n], all);
      FoldSetStep(pe, db, inputs, all);
    } else {
      SingleInput(pe, db, inputs);
      var s := OptResultsOf(pe, db, inputs[0]);
      forall t | t in s
        ensures t in FoldSet(pe, db, inputs, all)
      {
        assert [t] in InputResults(pe, db, inputs);
        assert FoldOf(all)([t]) == t;
      }
    }
  }

  lemma SingleInput(pe: PlanEnv, db: Db, inputs: seq<OptimizedPlan>)
    requires |inputs| == 1
    ensures forall ts :: ts in InputResults(pe, db, inputs) <==> |ts| == 1 && ts[0] in OptResultsOf(pe, db, inputs[0])
  {
    assert InputResults(pe, db, []) == iset{[]};
    assert inputs[..0] == [];
    forall ts | |ts| == 1 && ts[0] in OptResultsOf(pe, db, inputs[0])
      ensures ts in InputResults(pe, db, inputs)
    {
      assert [] in InputResults(pe, db, inputs[..0]);
      assert ts == [] + [ts[0]];
    }
  }

  /** The union of two or more inputs, and of the nested binary unions of them. */
  lemma UnionResults(pe: PlanEnv, db: Db, inputs: seq<OptimizedPlan>, all: bool, schema: PlanSchema)
    requires |inputs| >= 2
    ensures OptResultsOf(pe, db, OptimizedPlan.Union(inputs, all, schema)) == FoldResults(pe, db, inputs, all)
  {
    hide UnionTable, FoldTable, SetOpStep;
    FoldResultsAreFoldSet(pe, db, inputs, all);
    InputLengths(pe, db, inputs);
    forall ts | ts in InputResults(pe, db, inputs)
      ensures UnionTable(all, ts) == FoldTable(all, ts)
    {
      FoldIsUnion(all, ts);
    }
  }

  lemma UnionOfTwoResults(pe: PlanEnv, db: Db, ol: OptimizedPlan, or: OptimizedPlan, all: bool, schema: PlanSchema)
    ensures OptResultsOf(pe, db, OptimizedPlan.Union([ol, or], all, schema))
            == Lift2(OptResultsOf(pe, db, ol), OptResultsOf(pe, db, or), SetOpStep(SetOperationType.Union, all))
  {
    UnionResults(pe, db, [ol, or], all, schema);
    assert [ol, or][..1] == [ol];
    assert FoldResults(pe, db, [ol], all) == OptResultsOf(pe, db, ol);
  }
}
