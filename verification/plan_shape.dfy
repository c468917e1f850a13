/**
 What `plan` of `crates/optimizer/src/planner.rs` does to a query, exactly: which conjuncts move to which side
 of a join, which joins become hash joins, and which sorts and limits become one operator.
 */
module PlanShape {
  import opened Wrappers
  import opened Ir
  import opened Predicates
  import opened EquiKeys
  import opened Tables
  import opened Plans

  // ---------- Which side a predicate reads ----------

  /** Reads nothing by index: constants and unresolved columns, possibly negated, cast or matched. */
  predicate Silent(e: Expr)
    decreases e
  {
    match e
    case Column(_, _, index) => index.None?
    case Literal(_) => true
    case Unary(_, x) => Silent(x)
    case IsNull(x, _) => Silent(x)
    case Cast(x, _, _) => Silent(x)
    case Like(x, pattern, _, _) => Silent(x) && Silent(pattern)
    case _ => false
  }

  /** CASE, IS DISTINCT FROM, element access, aliases, lambdas, sub-queries and calls of aggregates and windows. */
  predicate NeverMoved(e: Expr) {
    e.Case? || e.IsDistinctFrom? || e.ArrayAccess? || e.Alias? || e.Lambda? || e.Opaque? || e.Aggregate? || e.Window? || e.AggregateWindow?
  }

  /** Every part reads columns from `lo` on, and below `hi` if it is given, or nothing, and some part reads. */
  predicate OneSided(e: Expr, lo: nat, hi: Option<nat>)
    decreases e
  {
    if e.Column? then e.index.Some? && lo <= e.index.value && (hi.Some? ==> e.index.value < hi.value)
    else
      && !NeverMoved(e) && (forall c | c in Children(e) :: OneSided(c, lo, hi) || Silent(c))
      && exists c | c in Children(e) :: OneSided(c, lo, hi)
  }

  predicate AllSilent(sides: seq<Option<PredicateSide>>) {
    forall i | 0 <= i < |sides| :: sides[i].None?
  }

  /** All answers are this side or nothing, and some answer is this side. */
  predicate AllOn(sides: seq<Option<PredicateSide>>, side: PredicateSide) {
    && (forall i | 0 <= i < |sides| :: sides[i].None? || sides[i] == Some(side))
    && exists i | 0 <= i < |sides| :: sides[i] == Some(side)
  }

  lemma AllOnStep(a: Option<PredicateSide>, rest: seq<Option<PredicateSide>>, side: PredicateSide)
    ensures AllOn([a] + rest, side) <==> if a.None? then AllOn(rest, side) else a == Some(side) && (AllSilent(rest) || AllOn(rest, side))
    ensures AllSilent([a] + rest) <==> a.None? && AllSilent(rest)
  {
    var sides := [a] + rest;
    assert sides[0] == a && forall i | 0 <= i < |rest| :: sides[i + 1] == rest[i];
    assert forall i | 0 < i < |sides| :: sides[i] == rest[i - 1];
  }

  lemma {:induction false} MergedIff(result: Option<PredicateSide>, sides: seq<Option<PredicateSide>>, side: PredicateSide)
    requires !side.Both?
    ensures MergeSides(result, sides) == Some(side) <==> AllOn([result] + sides, side)
    ensures MergeSides(result, sides) == None <==> AllSilent([result] + sides)
    decreases |sides|
  {
    AllOnStep(result, sides, side);
    if sides == [] {
      assert !AllOn(sides, side) && AllSilent(sides);
    } else {
      var next := MergeSide(result, sides[0]);
      MergedIff(next, sides[1..], side);
      AllOnStep(next, sides[1..], side);
      AllOnStep(sides[0], sides[1..], side);
      assert sides == [sides[0]] + sides[1..];
      hide AllOn, AllSilent;
    }
  }

  /** The forms that merge their parts merge all of them, in order. */
  lemma MergesParts(e: Expr, leftWidth: nat)
    requires e.Binary? || e.Scalar? || e.InList? || e.Between? || e.Like?
    ensures var merged := MergeSides(None, ClassifyAll(Children(e), leftWidth));
            ClassifyPredicateSide(e, leftWidth) == if e.Like? then merged else OrBoth(merged)
  {
    match e
    case Binary(l, _, r) => TwoMerged(l, r, leftWidth);
    case Like(x, pattern, _, _) => TwoMerged(x, pattern, leftWidth);
    case InList(x, list, _) => InListMerges(x, list, e.negated, leftWidth);
    case Between(x, low, high, _) => BetweenMerges(x, low, high, e.negated, leftWidth);
    case Scalar(_, _) =>
  }

  lemma InListMerges(x: Expr, list: seq<Expr>, negated: bool, leftWidth: nat)
    ensures ClassifyPredicateSide(InList(x, list, negated), leftWidth) == OrBoth(MergeSides(None, ClassifyAll([x] + list, leftWidth)))
  {
    assert ClassifyAll([x] + list, leftWidth) == [ClassifyPredicateSide(x, leftWidth)] + ClassifyAll(list, leftWidth);
    FirstMerged(ClassifyPredicateSide(x, leftWidth), ClassifyAll(list, leftWidth));
    hide MergeSides;
  }

  lemma BetweenMerges(x: Expr, low: Expr, high: Expr, negated: bool, leftWidth: nat)
    ensures ClassifyPredicateSide(Between(x, low, high, negated), leftWidth) == OrBoth(MergeSides(None, ClassifyAll([x, low, high], leftWidth)))
  {
    assert ClassifyAll([x, low, high], leftWidth)
        == [ClassifyPredicateSide(x, leftWidth), ClassifyPredicateSide(low, leftWidth), ClassifyPredicateSide(high, leftWidth)];
    hide MergeSides;
  }

  lemma FirstMerged(a: Option<PredicateSide>, rest: seq<Option<PredicateSide>>)
    ensures MergeSides(None, [a] + rest) == MergeSides(a, rest)
  {
    assert ([a] + rest)[1..] == rest;
  }

  lemma TwoMerged(l: Expr, r: Expr, leftWidth: nat)
    ensures MergeSides(None, ClassifyAll([l, r], leftWidth)) == MergeSide(ClassifyPredicateSide(l, leftWidth), ClassifyPredicateSide(r, leftWidth))
  {
    hide ClassifyPredicateSide, MergeSide;
    var a, b := ClassifyPredicateSide(l, leftWidth), ClassifyPredicateSide(r, leftWidth);
    assert ClassifyAll([l, r], leftWidth) == [a] + [b];
    FirstMerged(a, [b]);
    assert [b][1..] == [];
    assert MergeSides(MergeSide(a, b), []) == MergeSide(a, b);
  }

  /** What the classifier answers, and what it should, agree. */
  ghost predicate SideRight(e: Expr, leftWidth: nat) {
    && (ClassifyPredicateSide(e, leftWidth) == None <==> Silent(e))
    && (ClassifyPredicateSide(e, leftWidth) == Some(Left) <==> OneSided(e, 0, Some(leftWidth)))
    && (ClassifyPredicateSide(e, leftWidth) == Some(Right) <==> OneSided(e, leftWidth, None))
  }

  predicate PartsSilent(cs: seq<Expr>) {
    forall c | c in cs :: Silent(c)
  }

  predicate PartsOneSided(cs: seq<Expr>, lo: nat, hi: Option<nat>) {
    (forall c | c in cs :: OneSided(c, lo, hi) || Silent(c)) && exists c | c in cs :: OneSided(c, lo, hi)
  }

  lemma PartsAt(cs: seq<Expr>, lo: nat, hi: Option<nat>)
    ensures PartsSilent(cs) <==> forall i | 0 <= i < |cs| :: Silent(cs[i])
    ensures PartsOneSided(cs, lo, hi)
            <==> (forall i | 0 <= i < |cs| :: OneSided(cs[i], lo, hi) || Silent(cs[i])) && exists i | 0 <= i < |cs| :: OneSided(cs[i], lo, hi)
  {
    hide Silent, OneSided;
    assert (forall c | c in cs :: OneSided(c, lo, hi) || Silent(c)) <==> (forall i | 0 <= i < |cs| :: OneSided(cs[i], lo, hi) || Silent(cs[i]));
    assert (exists c | c in cs :: OneSided(c, lo, hi)) <==> (exists i | 0 <= i < |cs| :: OneSided(cs[i], lo, hi));
  }

  /** The answers for the parts are all on one side exactly when the parts are. */
  lemma PartsOn(cs: seq<Expr>, leftWidth: nat)
    requires forall c | c in cs :: SideRight(c, leftWidth)
    ensures var sides := ClassifyAll(cs, leftWidth);
            && (AllSilent(sides) <==> PartsSilent(cs))
            && (AllOn(sides, Left) <==> PartsOneSided(cs, 0, Some(leftWidth)))
            && (AllOn(sides, Right) <==> PartsOneSided(cs, leftWidth, None))
  {
    hide ClassifyPredicateSide, Silent, OneSided, PartsSilent, PartsOneSided;
    PartsAt(cs, 0, Some(leftWidth));
    PartsAt(cs, leftWidth, None);
    var sides := ClassifyAll(cs, leftWidth);
    forall i | 0 <= i < |cs|
      ensures sides[i] == None <==> Silent(cs[i])
      ensures sides[i] == Some(Left) <==> OneSided(cs[i], 0, Some(leftWidth))
      ensures sides[i] == Some(Right) <==> OneSided(cs[i], leftWidth, None)
    {
      assert cs[i] in cs && SideRight(cs[i], leftWidth);
    }
  }

  /**
   The classifier answers Left exactly for predicates all of whose parts read left columns or nothing, Right for
   right ones, and nothing for predicates that read nothing.
   */
  lemma {:induction false} ClassifierIff(e: Expr, leftWidth: nat)
    ensures SideRight(e, leftWidth)
    decreases e
  {
    if e.Binary? || e.Scalar? || e.InList? || e.Between? || e.Like? {
      forall c | c in Children(e)
        ensures SideRight(c, leftWidth)
      {
        ClassifierIff(c, leftWidth);
      }
      MergedRight(e, leftWidth);
    } else if e.Unary? || e.IsNull? || e.Cast? {
      ClassifierIff(e.operand, leftWidth);
      OnePartRight(e, leftWidth);
    } else {
      LeafRight(e, leftWidth);
    }
  }

  lemma LeafRight(e: Expr, leftWidth: nat)
    requires e.Column? || e.Literal? || NeverMoved(e)
    ensures SideRight(e, leftWidth)
  {
  }

  lemma OnePartRight(e: Expr, leftWidth: nat)
    requires (e.Unary? || e.IsNull? || e.Cast?) && SideRight(e.operand, leftWidth)
    ensures SideRight(e, leftWidth)
  {
    assert Children(e) == [e.operand] && e.operand in [e.operand];
  }

  lemma MergedRight(e: Expr, leftWidth: nat)
    requires e.Binary? || e.Scalar? || e.InList? || e.Between? || e.Like?
    requires forall c | c in Children(e) :: SideRight(c, leftWidth)
    ensures SideRight(e, leftWidth)
  {
    hide *;
    var sides := ClassifyAll(Children(e), leftWidth);
    MergesParts(e, leftWidth);
    PartsOn(Children(e), leftWidth);
    MergedFromNone(sides);
    FormSides(e, leftWidth);
    SideFromMerged(e, leftWidth, MergeSides(None, sides));
  }

  lemma FormSides(e: Expr, leftWidth: nat)
    requires e.Binary? || e.Scalar? || e.InList? || e.Between? || e.Like?
    ensures Silent(e) <==> e.Like? && PartsSilent(Children(e))
    ensures OneSided(e, 0, Some(leftWidth)) <==> PartsOneSided(Children(e), 0, Some(leftWidth))
    ensures OneSided(e, leftWidth, None) <==> PartsOneSided(Children(e), leftWidth, None)
  {
    assert !e.Column? && !NeverMoved(e);
    hide *;
    SilentParts(e);
    OneSidedParts(e, 0, Some(leftWidth));
    OneSidedParts(e, leftWidth, None);
  }

  lemma SideFromMerged(e: Expr, leftWidth: nat, merged: Option<PredicateSide>)
    requires ClassifyPredicateSide(e, leftWidth) == if e.Like? then merged else OrBoth(merged)
    requires Silent(e) <==> e.Like? && merged == None
    requires OneSided(e, 0, Some(leftWidth)) <==> merged == Some(Left)
    requires OneSided(e, leftWidth, None) <==> merged == Some(Right)
    ensures SideRight(e, leftWidth)
  {
    hide ClassifyPredicateSide, OneSided, Silent;
  }

  lemma OneSidedParts(e: Expr, lo: nat, hi: Option<nat>)
    requires !e.Column? && !NeverMoved(e)
    ensures OneSided(e, lo, hi) <==> PartsOneSided(Children(e), lo, hi)
  {
    hide Silent, Children;
  }

  lemma SilentParts(e: Expr)
    requires e.Binary? || e.Scalar? || e.InList? || e.Between? || e.Like?
    ensures Silent(e) <==> e.Like? && PartsSilent(Children(e))
  {
    if e.Like? {
      assert Children(e) == [e.operand, e.pattern] && e.operand in Children(e) && e.pattern in Children(e);
    }
  }

  lemma MergedFromNone(sides: seq<Option<PredicateSide>>)
    ensures MergeSides(None, sides) == Some(Left) <==> AllOn(sides, Left)
    ensures MergeSides(None, sides) == Some(Right) <==> AllOn(sides, Right)
    ensures MergeSides(None, sides) == None <==> AllSilent(sides)
  {
    MergedIff(None, sides, Left);
    MergedIff(None, sides, Right);
    AllOnStep(None, sides, Left);
    AllOnStep(None, sides, Right);
    hide MergeSides, AllOn, AllSilent;
  }

  // ---------- Which conjuncts move ----------

  /** A right conjunct, re-indexed. */
  predicate FromRight(ps: seq<Expr>, leftWidth: nat, x: Expr) {
    exists c :: c in ps && OneSided(c, leftWidth, None) && x == AdjustPredicateIndices(c, leftWidth)
  }

  /** The conjuncts of a filter that move to the left, those that move to the right, re-indexed, and those that stay. */
  lemma {:induction false} ConjunctsMoved(ps: seq<Expr>, leftWidth: nat)
    ensures var parts := PartitionConjuncts(ps, leftWidth);
            && (forall c :: c in parts.left <==> c in ps && OneSided(c, 0, Some(leftWidth)))
            && (forall c | c in ps && OneSided(c, leftWidth, None) :: AdjustPredicateIndices(c, leftWidth) in parts.right)
            && (forall x | x in parts.right :: FromRight(ps, leftWidth, x))
            && (forall c :: c in parts.post <==> c in ps && !OneSided(c, 0, Some(leftWidth)) && !OneSided(c, leftWidth, None))
            && |parts.left| + |parts.right| + |parts.post| == |ps|
    decreases |ps|
  {
    hide ClassifyPredicateSide, OneSided, Silent, AdjustPredicateIndices;
    if ps != [] {
      var front, c := ps[..|ps| - 1], ps[|ps| - 1];
      assert ps == front + [c];
      ConjunctsMoved(front, leftWidth);
      ClassifierIff(c, leftWidth);
      assert SideRight(c, leftWidth);
      forall x | x in PartitionConjuncts(ps, leftWidth).right
        ensures FromRight(ps, leftWidth, x)
      {
        if FromRight(front, leftWidth, x) {
          var d :| d in front && OneSided(d, leftWidth, None) && x == AdjustPredicateIndices(d, leftWidth);
          assert d in ps;
        } else {
          assert c in ps && x == AdjustPredicateIndices(c, leftWidth);
        }
      }
    }
  }

  // ---------- Which joins hash ----------

  /** An equation of a left column with a right one, in either order. */
  predicate IsKey(c: Expr, leftWidth: nat) {
    && c.Binary? && c.op.Eq? && c.left.Column? && c.right.Column? && c.left.index.Some? && c.right.index.Some?
    && (c.left.index.value < leftWidth) != (c.right.index.value < leftWidth)
  }

  /** Keys are extracted exactly from conditions all of whose conjuncts are such equations. */
  lemma {:induction false} ExtractableIff(e: Expr, leftWidth: nat)
    ensures KeysOf(e, leftWidth).Some? <==> forall c | c in SplitAnd(e) :: IsKey(c, leftWidth)
    decreases e
  {
    hide IsKey;
    if IsAnd(e) {
      ExtractableIff(e.left, leftWidth);
      ExtractableIff(e.right, leftWidth);
    } else {
      OneKeyIff(e, leftWidth);
    }
  }

  lemma OneKeyIff(c: Expr, leftWidth: nat)
    ensures KeyOf(c, leftWidth).Some? <==> IsKey(c, leftWidth)
  {
  }

  // ---------- The form of every plan ----------

  /**
   An inner join by nested loops has no condition or a conjunct that is no key, a hash join is an inner join over
   some keys, a limit right above a sort skips rows, and a union has two inputs.
   */
  predicate Normal(o: OptimizedPlan)
    decreases o
  {
    match o
    case Filter(input, _) => Normal(input)
    case Project(input, _, _) => Normal(input)
    case HashAggregate(input, _, _, _, _) => Normal(input)
    case NestedLoopJoin(l, r, joinType, on, _) =>
      && Normal(l) && Normal(r) && !joinType.Cross?
      && (joinType.Inner? && on.Some? ==> exists c :: c in SplitAnd(on.value) && !IsKey(c, |OptSchema(l)|))
    case CrossJoin(l, r, _) => Normal(l) && Normal(r)
    case HashJoin(l, r, joinType, keys, _) => Normal(l) && Normal(r) && joinType.Inner? && keys.left != [] && |keys.left| == |keys.right|
    case Sort(input, _) => Normal(input)
    case Limit(input, limit, offset) => Normal(input) && (input.Sort? && limit.Some? ==> offset.Some?)
    case TopN(input, _, _) => Normal(input)
    case Distinct(input) => Normal(input)
    case Union(inputs, _, _) => |inputs| == 2 && Normal(inputs[0]) && Normal(inputs[1])
    case Intersect(l, r, _, _) => Normal(l) && Normal(r)
    case Except(l, r, _, _) => Normal(l) && Normal(r)
    case WithCte(_, body) => Normal(body)
    case _ => true
  }

  lemma LoopIsNormal(l: OptimizedPlan, r: OptimizedPlan, joinType: JoinType, on: Option<Expr>, schema: PlanSchema)
    requires Normal(l) && Normal(r) && !joinType.Cross?
    requires joinType.Inner? && on.Some? ==> exists c :: c in SplitAnd(on.value) && !IsKey(c, |OptSchema(l)|)
    ensures Normal(OptimizedPlan.NestedLoopJoin(l, r, joinType, on, schema))
  {
    hide OptSchema, SplitAnd, IsKey;
  }

  lemma HashIsNormal(l: OptimizedPlan, r: OptimizedPlan, keys: JoinKeys, schema: PlanSchema)
    requires Normal(l) && Normal(r) && keys.left != [] && |keys.left| == |keys.right|
    ensures Normal(OptimizedPlan.HashJoin(l, r, Inner, keys, schema))
  {
    hide OptSchema, SplitAnd, IsKey;
  }

  lemma InnerNormal(l: OptimizedPlan, r: OptimizedPlan, on: Option<Expr>, schema: PlanSchema, leftWidth: nat)
    requires Normal(l) && Normal(r) && leftWidth == |OptSchema(l)|
    ensures Normal(PlanInnerJoin(l, r, on, schema, leftWidth))
  {
    hide Normal, OptSchema, SplitAnd, IsKey, KeysOf;
    if on.Some? {
      ExtractableIff(on.value, leftWidth);
      if KeysOf(on.value, leftWidth).Some? {
        HashIsNormal(l, r, KeysOf(on.value, leftWidth).value, schema);
      } else {
        LoopIsNormal(l, r, Inner, on, schema);
      }
    } else {
      LoopIsNormal(l, r, Inner, on, schema);
    }
  }

  lemma FilteredNormal(o: OptimizedPlan, condition: Option<Expr>)
    requires Normal(o)
    ensures Normal(FilterIf(o, condition)) && OptSchema(FilterIf(o, condition)) == OptSchema(o)
  {
  }

  /** Every plan has that form. */
  lemma {:induction false} PlanIsNormal(p: LogicalPlan)
    ensures Normal(Plan(p))
    decreases p
  {
    hide PartitionConjuncts, SplitAnd, CombinePredicates, KeysOf, PlanCtes, OptSchema, Schema, IsKey, PlanInnerJoin;
    match p
    case Filter(input, _) => FilterIsNormal(p);
    case Project(input, _, _) => PlanIsNormal(input);
    case Aggregate(input, _, _, _, _) => PlanIsNormal(input);
    case Join(_, _, _, _, _) => JoinIsNormal(p);
    case Sort(input, _) => PlanIsNormal(input);
    case Limit(_, _, _) => LimitIsNormal(p);
    case Distinct(input) => PlanIsNormal(input);
    case SetOperation(l, r, _, _, _) =>
      PlanIsNormal(l);
      PlanIsNormal(r);
    case WithCte(_, body) => PlanIsNormal(body);
    case _ =>
  }

  lemma {:induction false} JoinIsNormal(p: LogicalPlan)
    requires p.Join?
    ensures Normal(Plan(p))
    decreases p, 0
  {
    PlanIsNormal(p.left);
    PlanIsNormal(p.right);
    PlanKeepsSchema(p.left);
    var l, r := Plan(p.left), Plan(p.right);
    InnerNormal(l, r, p.on, p.schema, |Schema(p.left)|);
    hide OptSchema, Schema, SplitAnd, IsKey, PlanInnerJoin;
    if !p.joinType.Inner? && !p.joinType.Cross? {
      LoopIsNormal(l, r, p.joinType, p.on, p.schema);
    }
  }

  lemma {:induction false} LimitIsNormal(p: LogicalPlan)
    requires p.Limit?
    ensures Normal(Plan(p))
    decreases p, 0
  {
    hide PartitionConjuncts, SplitAnd, CombinePredicates, KeysOf, PlanCtes, OptSchema, Schema, IsKey, PlanInnerJoin;
    if p.input.Sort? {
      PlanIsNormal(p.input.input);
    } else {
      PlanIsNormal(p.input);
      NoSort(p.input);
    }
  }

  lemma NoSort(p: LogicalPlan)
    ensures Plan(p).Sort? ==> p.Sort?
  {
    hide PartitionConjuncts, SplitAnd, CombinePredicates, KeysOf, PlanCtes, Schema;
  }

  lemma {:induction false} FilterIsNormal(p: LogicalPlan)
    requires p.Filter?
    ensures Normal(Plan(p))
    decreases p, 0
  {
    hide PartitionConjuncts, SplitAnd, CombinePredicates, KeysOf, PlanCtes, OptSchema, Schema, IsKey, PlanInnerJoin, Normal, FilterIf;
    if FilterOnInnerJoin(p) {
      var j := p.input;
      var leftWidth := |Schema(j.left)|;
      var parts := PartitionConjuncts(SplitAnd(p.condition), leftWidth);
      PlanIsNormal(j.left);
      PlanIsNormal(j.right);
      PlanKeepsSchema(j.left);
      FilteredNormal(Plan(j.left), CombinePredicates(parts.left));
      FilteredNormal(Plan(j.right), CombinePredicates(parts.right));
      var l := FilterIf(Plan(j.left), CombinePredicates(parts.left));
      var r := FilterIf(Plan(j.right), CombinePredicates(parts.right));
      InnerNormal(l, r, j.on, j.schema, leftWidth);
      FilteredNormal(PlanInnerJoin(l, r, j.on, j.schema, leftWidth), CombinePredicates(parts.post));
    } else {
      PlanIsNormal(p.input);
      FilteredNormal(Plan(p.input), Some(p.condition));
      AsFilterIf(Plan(p.input), p.condition);
    }
  }

  lemma AsFilterIf(o: OptimizedPlan, condition: Expr)
    ensures FilterIf(o, Some(condition)) == OptimizedPlan.Filter(o, condition)
  {
  }
}
