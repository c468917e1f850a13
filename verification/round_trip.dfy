/**
 When planning a query and turning the plan back gives the query itself, not merely one that
 means the same.
 */
module RoundTrip {
  import opened Wrappers
  import opened Ir
  import opened Predicates
  import opened EquiKeys
  import opened Tables
  import opened Plans
  import opened PlanProof
  import opened Translation

  /** No conjunct reads one side only, so none is pushed down. */
  predicate AllStay(ps: seq<Expr>, leftWidth: nat) {
    forall c | c in ps :: Stays(c, leftWidth)
  }

  predicate Stays(c: Expr, leftWidth: nat) {
    var side := ClassifyPredicateSide(c, leftWidth);
    side.None? || side == Some(Both)
  }

  /** What the partition leaves above the join: conjuncts of the condition, all of them exactly when none is pushed. */
  ghost predicate PostRight(ps: seq<Expr>, leftWidth: nat) {
    var p := PartitionConjuncts(ps, leftWidth);
    && |p.left| + |p.right| + |p.post| == |ps|
    && (forall c | c in p.post :: c in ps)
    && (AllStay(ps, leftWidth) <==> |p.post| == |ps|)
    && (AllStay(ps, leftWidth) ==> p.post == ps)
  }

  lemma {:induction false} PostConjuncts(ps: seq<Expr>, leftWidth: nat)
    ensures PostRight(ps, leftWidth)
    decreases |ps|
  {
    hide *;
    if ps == [] {
      PostNothing(leftWidth);
    } else {
      var n := |ps| - 1;
      PostConjuncts(ps[..n], leftWidth);
      PostStep(ps[..n], ps[n], leftWidth);
      assert ps == ps[..n] + [ps[n]];
    }
  }

  lemma PostNothing(leftWidth: nat)
    ensures PostRight([], leftWidth)
  {
  }

  lemma PostStep(front: seq<Expr>, c: Expr, leftWidth: nat)
    requires PostRight(front, leftWidth)
    ensures PostRight(front + [c], leftWidth)
  {
    hide ClassifyPredicateSide, AdjustPredicateIndices, PartitionConjuncts;
    PartitionAppend(front, c, leftWidth);
    assert forall x :: x in front + [c] <==> x in front || x == c;
    assert AllStay(front + [c], leftWidth) <==> AllStay(front, leftWidth) && Stays(c, leftWidth);
  }

  /** The queries whose joins and filters are already in the form the optimizer gives back. */
  predicate Canonical(p: LogicalPlan)
    decreases p
  {
    match p
    case Filter(input, condition) =>
      && Canonical(input)
      && (FilterOnInnerJoin(p) ==> LeftNested(condition) && AllStay(SplitAnd(condition), |Schema(input.left)|))
    case Project(input, _, _) => Canonical(input)
    case Aggregate(input, _, _, _, _) => Canonical(input)
    case Join(l, r, joinType, on, _) =>
      && Canonical(l)
      && Canonical(r)
      && (joinType.Cross? ==> on.None?)
      && (joinType.Inner? ==> CanonicalCondition(on, |Schema(l)|))
    case Sort(input, _) => Canonical(input)
    case Limit(input, _, _) => Canonical(input)
    case Distinct(input) => Canonical(input)
    case SetOperation(l, r, _, _, _) => Canonical(l) && Canonical(r)
    case WithCte(ctes, body) => CanonicalCtes(ctes) && Canonical(body)
    case _ => true
  }

  /** A hash-joinable condition is a left-nested chain of left column = right column. */
  predicate CanonicalCondition(on: Option<Expr>, leftWidth: nat) {
    on.Some? && KeysOf(on.value, leftWidth).Some? ==>
      LeftNested(on.value) && forall c | c in SplitAnd(on.value) :: Oriented(c, leftWidth)
  }

  predicate CanonicalCtes(ctes: seq<CteDefinition>)
    decreases ctes
  {
    ctes == [] || (Canonical(ctes[0].query) && CanonicalCtes(ctes[1..]))
  }

  // ---------- One plan form at a time ----------

  lemma HashJoinBack(ol: OptimizedPlan, or: OptimizedPlan, keys: JoinKeys, schema: PlanSchema)
    requires |keys.left| == |keys.right|
    ensures IntoLogical(OptimizedPlan.HashJoin(ol, or, Inner, keys, schema))
            == LogicalPlan.Join(IntoLogical(ol), IntoLogical(or), Inner, RestoredCondition(keys, |OptSchema(ol)|), schema)
  {
    hide OptSchema, RestoredCondition;
  }

  lemma LoopJoinBack(ol: OptimizedPlan, or: OptimizedPlan, on: Option<Expr>, schema: PlanSchema)
    ensures IntoLogical(OptimizedPlan.NestedLoopJoin(ol, or, Inner, on, schema))
            == LogicalPlan.Join(IntoLogical(ol), IntoLogical(or), Inner, on, schema)
  {
  }

  lemma HashJoinIdentity(ol: OptimizedPlan, or: OptimizedPlan, l: LogicalPlan, r: LogicalPlan, e: Expr, schema: PlanSchema)
    requires OptSchema(ol) == Schema(l) && KeysOf(e, |Schema(l)|).Some?
    ensures IntoLogical(OptimizedPlan.HashJoin(ol, or, Inner, KeysOf(e, |Schema(l)|).value, schema)) == LogicalPlan.Join(l, r, Inner, Some(e), schema)
            <==> IntoLogical(ol) == l && IntoLogical(or) == r && CanonicalCondition(Some(e), |Schema(l)|)
  {
    hide IntoLogical, OptSchema, Schema, RestoredCondition, LeftNested, SplitAnd, Oriented, KeysOf;
    var w := |Schema(l)|;
    RestoreExtracted(e, w);
    HashJoinBack(ol, or, KeysOf(e, w).value, schema);
    assert CanonicalCondition(Some(e), w) <==> RestoredCondition(KeysOf(e, w).value, w) == Some(e);
  }

  lemma NoKeysCanonical(on: Option<Expr>, leftWidth: nat)
    requires on.None? || KeysOf(on.value, leftWidth).None?
    ensures CanonicalCondition(on, leftWidth)
  {
  }

  lemma InnerJoinIdentity(ol: OptimizedPlan, or: OptimizedPlan, l: LogicalPlan, r: LogicalPlan, on: Option<Expr>, schema: PlanSchema)
    requires OptSchema(ol) == Schema(l)
    ensures IntoLogical(PlanInnerJoin(ol, or, on, schema, |Schema(l)|)) == LogicalPlan.Join(l, r, Inner, on, schema)
            <==> IntoLogical(ol) == l && IntoLogical(or) == r && CanonicalCondition(on, |Schema(l)|)
  {
    hide *;
    InnerPlanForms(ol, or, on, schema, |Schema(l)|);
    if on.Some? && KeysOf(on.value, |Schema(l)|).Some? {
      HashJoinIdentity(ol, or, l, r, on.value, schema);
    } else {
      LoopJoinBack(ol, or, on, schema);
      NoKeysCanonical(on, |Schema(l)|);
    }
  }

  lemma CombinedSize(ps: seq<Expr>)
    requires ps != [] && forall c | c in ps :: !IsAnd(c)
    ensures |SplitAnd(CombinePredicates(ps).value)| == |ps|
  {
    SplitCombine(ps);
  }

  /** A filter on an inner join comes back whole only if no conjunct leaves it and it is left-nested. */
  lemma PostIsWhole(e: Expr, leftWidth: nat)
    ensures var parts := PartitionConjuncts(SplitAnd(e), leftWidth);
            CombinePredicates(parts.post) == Some(e) <==> LeftNested(e) && AllStay(SplitAnd(e), leftWidth)
    ensures var parts := PartitionConjuncts(SplitAnd(e), leftWidth);
            AllStay(SplitAnd(e), leftWidth) ==> parts.left == [] && parts.right == []
  {
    var s := SplitAnd(e);
    var parts := PartitionConjuncts(s, leftWidth);
    PostConjuncts(s, leftWidth);
    CombineSplit(e);
    if CombinePredicates(parts.post) == Some(e) {
      CombinedSize(parts.post);
    }
  }

  lemma InnerPlanBack(l: OptimizedPlan, r: OptimizedPlan, on: Option<Expr>, schema: PlanSchema, leftWidth: nat)
    ensures IntoLogical(PlanInnerJoin(l, r, on, schema, leftWidth)).Join?
  {
    hide *;
    InnerPlanForms(l, r, on, schema, leftWidth);
    LoopJoinBack(l, r, on, schema);
    if on.Some? && KeysOf(on.value, leftWidth).Some? {
      HashJoinBack(l, r, KeysOf(on.value, leftWidth).value, schema);
    }
  }

  lemma {:induction false} InnerFilterIdentity(p: LogicalPlan)
    requires FilterOnInnerJoin(p)
    ensures IntoLogical(Plan(p)) == p <==> Canonical(p)
    decreases p, 0
  {
    var j := p.input;
    var w := |Schema(j.left)|;
    var parts := PartitionConjuncts(SplitAnd(p.condition), w);
    var l := FilterIf(Plan(j.left), CombinePredicates(parts.left));
    var r := FilterIf(Plan(j.right), CombinePredicates(parts.right));
    var o := PlanInnerJoin(l, r, j.on, j.schema, w);
    assert Plan(p) == FilterIf(o, CombinePredicates(parts.post));
    PostIsWhole(p.condition, w);
    RoundTripIdentity(j);
    InnerPlanBack(l, r, j.on, j.schema, w);
    hide PartitionConjuncts, SplitAnd, CombinePredicates, LeftNested, AllStay, Schema, OptSchema, PlanInnerJoin;
    if LeftNested(p.condition) && AllStay(SplitAnd(p.condition), w) {
      assert CombinePredicates([]) == None;
      assert l == Plan(j.left) && r == Plan(j.right) && o == Plan(j);
      assert IntoLogical(Plan(p)) == LogicalPlan.Filter(IntoLogical(o), p.condition);
    } else {
      assert CombinePredicates(parts.post) != Some(p.condition);
    }
  }

  lemma {:induction false} FilterIdentity(p: LogicalPlan)
    requires p.Filter?
    ensures IntoLogical(Plan(p)) == p <==> Canonical(p)
    decreases p, 1
  {
    if FilterOnInnerJoin(p) {
      InnerFilterIdentity(p);
    } else {
      RoundTripIdentity(p.input);
    }
  }

  lemma {:induction false} JoinIdentity(p: LogicalPlan)
    requires p.Join?
    ensures IntoLogical(Plan(p)) == p <==> Canonical(p)
    decreases p, 0
  {
    hide *;
    JoinPlanned(p);
    RoundTripIdentity(p.left);
    RoundTripIdentity(p.right);
    if p.joinType.Inner? {
      PlanKeepsSchema(p.left);
      InnerJoinIdentity(Plan(p.left), Plan(p.right), p.left, p.right, p.on, p.schema);
    }
  }

  lemma JoinPlanned(p: LogicalPlan)
    requires p.Join?
    ensures Canonical(p) <==> && Canonical(p.left) && Canonical(p.right)
                              && (p.joinType.Cross? ==> p.on.None?) && (p.joinType.Inner? ==> CanonicalCondition(p.on, |Schema(p.left)|))
    ensures p.joinType.Inner? ==> Plan(p) == PlanInnerJoin(Plan(p.left), Plan(p.right), p.on, p.schema, |Schema(p.left)|)
    ensures !p.joinType.Inner? ==>
              IntoLogical(Plan(p)) == LogicalPlan.Join(IntoLogical(Plan(p.left)), IntoLogical(Plan(p.right)), p.joinType, if p.joinType.Cross? then None else p.on, p.schema)
  {
    hide CanonicalCondition, PlanInnerJoin, FoldUnion, RestoredCondition;
  }

  lemma SetOpBack(l: OptimizedPlan, r: OptimizedPlan, all: bool, schema: PlanSchema)
    ensures IntoLogical(OptimizedPlan.Union([l, r], all, schema))
            == LogicalPlan.SetOperation(IntoLogical(l), IntoLogical(r), SetOperationType.Union, all, schema)
    ensures IntoLogical(OptimizedPlan.Intersect(l, r, all, schema))
            == LogicalPlan.SetOperation(IntoLogical(l), IntoLogical(r), SetOperationType.Intersect, all, schema)
    ensures IntoLogical(OptimizedPlan.Except(l, r, all, schema))
            == LogicalPlan.SetOperation(IntoLogical(l), IntoLogical(r), SetOperationType.Except, all, schema)
  {
    FoldOfTwo(l, r, all, schema);
    hide FoldUnion, RestoredCondition;
  }

  lemma SetOpPlanned(p: LogicalPlan)
    requires p.SetOperation?
    ensures var l, r := Plan(p.left), Plan(p.right);
            Plan(p) == match p.op
                       case Union => OptimizedPlan.Union([l, r], p.all, p.schema)
                       case Intersect => OptimizedPlan.Intersect(l, r, p.all, p.schema)
                       case Except => OptimizedPlan.Except(l, r, p.all, p.schema)
    ensures Canonical(p) <==> Canonical(p.left) && Canonical(p.right)
  {
    hide CanonicalCondition;
  }

  lemma {:induction false} SetOpIdentity(p: LogicalPlan)
    requires p.SetOperation?
    ensures IntoLogical(Plan(p)) == p <==> Canonical(p)
    decreases p, 0
  {
    hide *;
    SetOpPlanned(p);
    SetOpBack(Plan(p.left), Plan(p.right), p.all, p.schema);
    RoundTripIdentity(p.left);
    RoundTripIdentity(p.right);
  }

  lemma LimitBack(o: OptimizedPlan, keys: seq<SortExpr>, n: nat, limit: Option<nat>, offset: Option<nat>)
    ensures IntoLogical(OptimizedPlan.TopN(o, keys, n)) == LogicalPlan.Limit(LogicalPlan.Sort(IntoLogical(o), keys), Some(n), None)
    ensures IntoLogical(OptimizedPlan.Limit(o, limit, offset)) == LogicalPlan.Limit(IntoLogical(o), limit, offset)
  {
  }

  lemma LimitPlanned(p: LogicalPlan)
    requires p.Limit?
    ensures if p.input.Sort? && p.limit.Some? && p.offset.None? then
              && Plan(p) == OptimizedPlan.TopN(Plan(p.input.input), p.input.sortExprs, p.limit.value)
              && (Canonical(p) <==> Canonical(p.input.input))
            else
              && Plan(p) == OptimizedPlan.Limit(Plan(p.input), p.limit, p.offset)
              && (Canonical(p) <==> Canonical(p.input))
  {
  }

  lemma {:induction false} LimitIdentity(p: LogicalPlan)
    requires p.Limit?
    ensures IntoLogical(Plan(p)) == p <==> Canonical(p)
    decreases p, 0
  {
    hide *;
    LimitPlanned(p);
    if p.input.Sort? && p.limit.Some? && p.offset.None? {
      LimitBack(Plan(p.input.input), p.input.sortExprs, p.limit.value, None, None);
      RoundTripIdentity(p.input.input);
    } else {
      LimitBack(Plan(p.input), [], 0, p.limit, p.offset);
      RoundTripIdentity(p.input);
    }
  }

  lemma {:induction false} CtesIdentity(ctes: seq<CteDefinition>)
    ensures PlanCtes(ctes) == ctes <==> CanonicalCtes(ctes)
    decreases ctes
  {
    if ctes != [] {
      RoundTripIdentity(ctes[0].query);
      CtesIdentity(ctes[1..]);
      assert ctes == [ctes[0]] + ctes[1..];
      assert PlanCtes(ctes)[0] == ctes[0].(query := IntoLogical(Plan(ctes[0].query)));
      assert PlanCtes(ctes)[1..] == PlanCtes(ctes[1..]);
    }
  }

  /** Planning and turning back gives the query itself exactly when it is canonical. */
  lemma {:induction false} RoundTripIdentity(p: LogicalPlan)
    ensures IntoLogical(Plan(p)) == p <==> Canonical(p)
    decreases p
  {
    hide *;
    match p
    case Filter(_, _) => FilterIdentity(p);
    case Join(_, _, _, _, _) => JoinIdentity(p);
    case SetOperation(_, _, _, _, _) => SetOpIdentity(p);
    case Limit(_, _, _) => LimitIdentity(p);
    case WithCte(_, _) => WithCteIdentity(p);
    case Project(_, _, _) => UnaryIdentity(p);
    case Aggregate(_, _, _, _, _) => UnaryIdentity(p);
    case Sort(_, _) => UnaryIdentity(p);
    case Distinct(_) => UnaryIdentity(p);
    case _ => LeafIdentity(p);
  }

  lemma LeafIdentity(p: LogicalPlan)
    requires p.Scan? || p.Values? || p.Empty?
    ensures IntoLogical(Plan(p)) == p <==> Canonical(p)
  {
  }

  lemma {:induction false} UnaryIdentity(p: LogicalPlan)
    requires p.Project? || p.Aggregate? || p.Sort? || p.Distinct?
    ensures IntoLogical(Plan(p)) == p <==> Canonical(p)
    decreases p, 0
  {
    hide *;
    UnaryPlanned(p);
    UnaryReturned(p, Plan(p.input));
    UnaryCanonical(p);
    RoundTripIdentity(p.input);
  }

  lemma UnaryPlanned(p: LogicalPlan)
    requires p.Project? || p.Aggregate? || p.Sort? || p.Distinct?
    ensures Plan(p) == PlannedUnary(p, Plan(p.input))
  {
    hide PartitionConjuncts, SplitAnd, CombinePredicates, KeysOf, PlanCtes, Schema, PlanInnerJoin;
  }

  lemma UnaryReturned(p: LogicalPlan, o: OptimizedPlan)
    requires p.Project? || p.Aggregate? || p.Sort? || p.Distinct?
    ensures IntoLogical(PlannedUnary(p, o)) == p <==> IntoLogical(o) == p.input
  {
    hide FoldUnion, RestoredCondition, OptSchema;
  }

  lemma UnaryCanonical(p: LogicalPlan)
    requires p.Project? || p.Aggregate? || p.Sort? || p.Distinct?
    ensures Canonical(p) <==> Canonical(p.input)
  {
    hide CanonicalCondition, CanonicalCtes, AllStay, LeftNested, Schema;
  }

  lemma {:induction false} WithCteIdentity(p: LogicalPlan)
    requires p.WithCte?
    ensures IntoLogical(Plan(p)) == p <==> Canonical(p)
    decreases p, 0
  {
    hide *;
    WithCtePlanned(p);
    WithCteReturned(PlanCtes(p.ctes), Plan(p.body));
    WithCteCanonical(p);
    CtesIdentity(p.ctes);
    RoundTripIdentity(p.body);
  }

  lemma WithCtePlanned(p: LogicalPlan)
    requires p.WithCte?
    ensures Plan(p) == OptimizedPlan.WithCte(PlanCtes(p.ctes), Plan(p.body))
  {
    hide PartitionConjuncts, SplitAnd, CombinePredicates, KeysOf, PlanCtes, Schema, PlanInnerJoin;
  }

  lemma WithCteReturned(ctes: seq<CteDefinition>, o: OptimizedPlan)
    ensures IntoLogical(OptimizedPlan.WithCte(ctes, o)) == LogicalPlan.WithCte(ctes, IntoLogical(o))
  {
    hide FoldUnion, RestoredCondition, OptSchema;
  }

  lemma WithCteCanonical(p: LogicalPlan)
    requires p.WithCte?
    ensures Canonical(p) <==> CanonicalCtes(p.ctes) && Canonical(p.body)
  {
    hide CanonicalCondition, CanonicalCtes, AllStay, LeftNested, Schema;
  }
}
