/**
 The predicate helpers of `crates/optimizer/src/planner.rs`: splitting and
 combining conjuncts, deciding which join side a conjunct reads, and moving a
 conjunct from the joined row to the right row.
 */
module Predicates {
  import opened Wrappers
  import opened Ir
  import opened Evaluator

  datatype PredicateSide = Left | Right | Both

  // ---------- Conjuncts ----------

  function SplitAnd(e: Expr): (r: seq<Expr>)
    ensures |r| > 0
    ensures forall c | c in r :: !IsAnd(c)
  {
    if IsAnd(e) then SplitAnd(e.left) + SplitAnd(e.right) else [e]
  }

  predicate IsAnd(e: Expr) {
    e.Binary? && e.op == And
  }

  /** Left-nested conjunction; `None` for no predicates. */
  function CombinePredicates(ps: seq<Expr>): (r: Option<Expr>)
    ensures r.None? <==> ps == []
    decreases |ps|
  {
    if ps == [] then None
    else if |ps| == 1 then Some(ps[0])
    else Some(Binary(CombinePredicates(ps[..|ps| - 1]).value, And, ps[|ps| - 1]))
  }

  /** The same conjunction built the way the source folds it, front to back. */
  method CombinePredicatesLoop(ps: seq<Expr>) returns (r: Option<Expr>)
    ensures r == CombinePredicates(ps)
  {
    if ps == [] {
      return None;
    }
    var acc := ps[0];
    assert ps[..1] == [ps[0]];
    for i := 1 to |ps|
      invariant CombinePredicates(ps[..i]) == Some(acc)
    {
      assert ps[..i + 1][..i] == ps[..i];
      acc := Binary(acc, And, ps[i]);
    }
    assert ps[..|ps|] == ps;
    return Some(acc);
  }

  /** Every conjunct is TRUE on a row. */
  ghost predicate AllTrue(env: Env, ps: seq<Expr>, row: Row) {
    forall c | c in ps :: IsTrue(Eval(env, c, row))
  }

  lemma AndIsTrue(env: Env, e: Expr, row: Row)
    requires IsAnd(e)
    ensures IsTrue(Eval(env, e, row)) <==> IsTrue(Eval(env, e.left, row)) && IsTrue(Eval(env, e.right, row))
  {
    EvalByChildren(env, e, row);
    var rs := EvalAll(env, Children(e), row);
    assert rs[0] == Eval(env, e.left, row) && rs[1] == Eval(env, e.right, row);
    assert AllVal(rs) <==> rs[0].Val? && rs[1].Val?;
  }

  /** A predicate is TRUE exactly when all its conjuncts are, however the ANDs nest and whatever is NULL or fails. */
  lemma {:induction false} SplitIsTrue(env: Env, e: Expr, row: Row)
    ensures IsTrue(Eval(env, e, row)) <==> AllTrue(env, SplitAnd(e), row)
  {
    if IsAnd(e) {
      AndIsTrue(env, e, row);
      SplitIsTrue(env, e.left, row);
      SplitIsTrue(env, e.right, row);
      var l, r := SplitAnd(e.left), SplitAnd(e.right);
      assert AllTrue(env, l + r, row) <==> AllTrue(env, l, row) && AllTrue(env, r, row) by {
        assert forall c :: c in l + r <==> c in l || c in r;
      }
    }
  }

  lemma {:induction false} CombineIsTrue(env: Env, ps: seq<Expr>, row: Row)
    requires ps != []
    ensures IsTrue(Eval(env, CombinePredicates(ps).value, row)) <==> AllTrue(env, ps, row)
    decreases |ps|
  {
    hide Eval, IsTrue;
    if |ps| > 1 {
      var front := ps[..|ps| - 1];
      CombineIsTrue(env, front, row);
      AndIsTrue(env, CombinePredicates(ps).value, row);
      assert ps == front + [ps[|ps| - 1]];
    }
  }

  /** Splitting a combination of conjuncts gives them back. */
  lemma {:induction false} SplitCombine(ps: seq<Expr>)
    requires ps != [] && forall c | c in ps :: !IsAnd(c)
    ensures SplitAnd(CombinePredicates(ps).value) == ps
    decreases |ps|
  {
    if |ps| > 1 {
      SplitCombine(ps[..|ps| - 1]);
      assert ps == ps[..|ps| - 1] + [ps[|ps| - 1]];
    }
  }

  /** Combining the conjuncts of a predicate gives it back exactly when its ANDs nest to the left. */
  predicate LeftNested(e: Expr) {
    IsAnd(e) ==> !IsAnd(e.right) && LeftNested(e.left)
  }

  lemma {:induction false} CombineSplit(e: Expr)
    ensures CombinePredicates(SplitAnd(e)) == Some(e) <==> LeftNested(e)
  {
    if IsAnd(e) {
      var s := SplitAnd(e);
      var l, r := SplitAnd(e.left), SplitAnd(e.right);
      if CombinePredicates(s) == Some(e) {
        assert e.right == s[|s| - 1];
        assert s[|s| - 1] in s;
        assert r == [e.right];
        assert s[..|s| - 1] == l;
        CombineSplit(e.left);
      }
      if LeftNested(e) {
        CombineSplit(e.left);
        assert s[..|s| - 1] == l;
      }
    }
  }

  // ---------- Which side a predicate reads ----------

  /** One step of the loops that merge the sides of a list of operands. */
  function MergeSide(result: Option<PredicateSide>, side: Option<PredicateSide>): Option<PredicateSide> {
    if result.None? then side
    else if side.None? || result == side then result
    else Some(Both)
  }

  function MergeSides(result: Option<PredicateSide>, sides: seq<Option<PredicateSide>>): Option<PredicateSide>
    decreases |sides|
  {
    if sides == [] then result else MergeSides(MergeSide(result, sides[0]), sides[1..])
  }

  function OrBoth(side: Option<PredicateSide>): Option<PredicateSide> {
    if side.None? then Some(Both) else side
  }

  function ClassifyPredicateSide(e: Expr, leftWidth: nat): Option<PredicateSide> {
    match e
    case Column(_, _, index) =>
      if index.None? then None else if index.value < leftWidth then Some(Left) else Some(Right)
    case Binary(l, _, r) =>
      OrBoth(MergeSide(ClassifyPredicateSide(l, leftWidth), ClassifyPredicateSide(r, leftWidth)))
    case Unary(_, x) => ClassifyPredicateSide(x, leftWidth)
    case IsNull(x, _) => ClassifyPredicateSide(x, leftWidth)
    case Scalar(_, args) => OrBoth(MergeSides(None, ClassifyAll(args, leftWidth)))
    case Literal(_) => None
    case Cast(x, _, _) => ClassifyPredicateSide(x, leftWidth)
    case Like(x, pattern, _, _) => MergeSide(ClassifyPredicateSide(x, leftWidth), ClassifyPredicateSide(pattern, leftWidth))
    case InList(x, list, _) => OrBoth(MergeSides(ClassifyPredicateSide(x, leftWidth), ClassifyAll(list, leftWidth)))
    case Between(x, low, high, _) =>
      OrBoth(MergeSides(None, [ClassifyPredicateSide(x, leftWidth), ClassifyPredicateSide(low, leftWidth), ClassifyPredicateSide(high, leftWidth)]))
    case _ => Some(Both)
  }

  function ClassifyAll(es: seq<Expr>, leftWidth: nat): (r: seq<Option<PredicateSide>>)
    ensures |r| == |es|
    ensures forall i | 0 <= i < |es| :: r[i] == ClassifyPredicateSide(es[i], leftWidth)
  {
    seq(|es|, i requires 0 <= i < |es| => ClassifyPredicateSide(es[i], leftWidth))
  }

  lemma {:induction false} BothAbsorbs(sides: seq<Option<PredicateSide>>)
    ensures MergeSides(Some(Both), sides) == Some(Both)
    decreases |sides|
  {
    if sides != [] {
      BothAbsorbs(sides[1..]);
    }
  }

  /** The source's loop over operands, which stops as soon as two sides disagree. */
  method MergeOperandSides(start: Option<PredicateSide>, es: seq<Expr>, leftWidth: nat) returns (r: Option<PredicateSide>)
    ensures r == OrBoth(MergeSides(start, ClassifyAll(es, leftWidth)))
  {
    var result := start;
    ghost var sides := ClassifyAll(es, leftWidth);
    for i := 0 to |es|
      invariant MergeSides(start, sides) == MergeSides(result, sides[i..])
    {
      assert sides[i..][0] == sides[i] && sides[i..][1..] == sides[i + 1..];
      var side := ClassifyPredicateSide(es[i], leftWidth);
      if result.None? {
        result := side;
      } else if side.Some? && !(result == side && !side.value.Both?) {
        BothAbsorbs(sides[i + 1..]);
        return Some(Both);
      }
    }
    return OrBoth(result);
  }

  // ---------- What the sides mean ----------

  /** The forms both the classifier and the index shifter descend into. */
  predicate Transparent(e: Expr) {
    e.Literal? || e.Binary? || e.Unary? || e.IsNull? || e.Scalar? || e.Cast? || e.Like? || e.InList? || e.Between?
  }

  /** Built from transparent forms over columns whose indices lie in `[lo, hi)`. */
  predicate ColumnsIn(e: Expr, lo: nat, hi: nat)
    decreases e
  {
    if e.Column? then e.index.Some? && lo <= e.index.value < hi
    else Transparent(e) && forall c | c in Children(e) :: ColumnsIn(c, lo, hi)
  }

  /** Every column of the expression has an index below `width`. */
  predicate Resolved(e: Expr, width: nat)
    decreases e
  {
    if e.Column? then e.index.Some? && e.index.value < width
    else forall c | c in Children(e) :: Resolved(c, width)
  }

  /** The index range a side promises; no side at all promises no columns. */
  predicate InSide(e: Expr, side: Option<PredicateSide>, leftWidth: nat, width: nat) {
    match side
    case None => ColumnsIn(e, 0, 0)
    case Some(Left) => ColumnsIn(e, 0, leftWidth)
    case Some(Right) => ColumnsIn(e, leftWidth, width)
    case Some(Both) => true
  }

  lemma {:induction false} ColumnsInWider(e: Expr, lo: nat, hi: nat, lo': nat, hi': nat)
    requires ColumnsIn(e, lo, hi) && (lo >= hi || (lo' <= lo && hi <= hi'))
    ensures ColumnsIn(e, lo', hi')
    decreases e
  {
    if !e.Column? {
      forall c | c in Children(e)
        ensures ColumnsIn(c, lo', hi')
      {
        ColumnsInWider(c, lo, hi, lo', hi');
      }
    }
  }

  /** A merged side other than `Both` is what every operand with columns has. */
  lemma {:induction false} MergedSide(result: Option<PredicateSide>, sides: seq<Option<PredicateSide>>, i: nat)
    requires MergeSides(result, sides) != Some(Both)
    ensures result.None? || result == MergeSides(result, sides)
    ensures i < |sides| ==> sides[i].None? || sides[i] == MergeSides(result, sides)
    decreases |sides|
  {
    if sides != [] {
      MergedSide(MergeSide(result, sides[0]), sides[1..], if i == 0 then 0 else i - 1);
    }
  }

  lemma InMergedSide(e: Expr, side: Option<PredicateSide>, merged: Option<PredicateSide>, leftWidth: nat, width: nat)
    requires InSide(e, side, leftWidth, width)
    requires side.None? || side == merged
    ensures InSide(e, merged, leftWidth, width)
  {
    if side.None? && merged.Some? {
      ColumnsInWider(e, 0, 0, 0, leftWidth);
      ColumnsInWider(e, 0, 0, leftWidth, width);
    }
  }

  /** The operands of a transparent form other than a column, as the classifier groups them. */
  lemma OperandSides(e: Expr, leftWidth: nat, i: nat)
    requires Transparent(e) && i < |Children(e)|
    requires ClassifyPredicateSide(e, leftWidth) != Some(Both)
    ensures var s := ClassifyPredicateSide(Children(e)[i], leftWidth);
            s.None? || s == ClassifyPredicateSide(e, leftWidth)
  {
    match e
    case Scalar(_, args) => MergedSide(None, ClassifyAll(args, leftWidth), i);
    case InList(x, list, _) => MergedSide(ClassifyPredicateSide(x, leftWidth), ClassifyAll(list, leftWidth), if i == 0 then 0 else i - 1);
    case Between(x, low, high, _) =>
      MergedSide(None, [ClassifyPredicateSide(x, leftWidth), ClassifyPredicateSide(low, leftWidth), ClassifyPredicateSide(high, leftWidth)], i);
    case _ =>
  }

  /**
   The classifier is right: on a resolved predicate, Left means transparent forms over
   left columns only, Right means transparent forms over right columns only, and no side
   means no columns.
   */
  lemma {:induction false} ClassifierSound(e: Expr, leftWidth: nat, width: nat)
    requires Resolved(e, width)
    ensures InSide(e, ClassifyPredicateSide(e, leftWidth), leftWidth, width)
    decreases e
  {
    var side := ClassifyPredicateSide(e, leftWidth);
    if side != Some(Both) && !e.Column? {
      assert Transparent(e);
      forall i | 0 <= i < |Children(e)|
        ensures InSide(Children(e)[i], side, leftWidth, width)
      {
        var c := Children(e)[i];
        assert c in Children(e);
        ClassifierSound(c, leftWidth, width);
        OperandSides(e, leftWidth, i);
        InMergedSide(c, ClassifyPredicateSide(c, leftWidth), side, leftWidth, width);
      }
    }
  }

  // ---------- Moving a predicate to the right row ----------

  function SaturatingSub(a: nat, b: nat): nat {
    if a < b then 0 else a - b
  }

  function AdjustPredicateIndices(e: Expr, offset: nat): Expr
    decreases e
  {
    if e.Column? then Column(e.table, e.name, if e.index.None? then None else Some(SaturatingSub(e.index.value, offset)))
    else if Transparent(e) then
      var cs := Children(e);
      WithChildren(e, seq(|cs|, i requires 0 <= i < |cs| => assert cs[i] in cs; AdjustPredicateIndices(cs[i], offset)))
    else e
  }

  function AdjustAll(es: seq<Expr>, offset: nat): (r: seq<Expr>)
    ensures |r| == |es|
    ensures forall i | 0 <= i < |es| :: r[i] == AdjustPredicateIndices(es[i], offset)
  {
    seq(|es|, i requires 0 <= i < |es| => AdjustPredicateIndices(es[i], offset))
  }

  lemma TransparentUnbound(scope: Scope, e: Expr, cs: seq<Expr>)
    requires Transparent(e) && |cs| == |Children(e)|
    ensures Bound(scope, e).None? && Bound(scope, WithChildren(e, cs)).None?
  {
  }

  /** A predicate over left columns reads the same from the left row as from the joined row. */
  lemma {:induction false} LeftReadsLeft(env: Env, e: Expr, l: Row, r: Row)
    requires ColumnsIn(e, 0, |l|)
    ensures Eval(env, e, l + r) == Eval(env, e, l)
    decreases e
  {
    if !e.Column? {
      forall i | 0 <= i < |Children(e)|
        ensures Eval(env, Children(e)[i], l + r) == Eval(env, Children(e)[i], l)
      {
        assert Children(e)[i] in Children(e);
        LeftReadsLeft(env, Children(e)[i], l, r);
      }
      TransparentUnbound(env.scope, e, Children(e));
      EvalByChildren(env, e, l + r);
      EvalByChildren(env, e, l);
      assert EvalAll(env, Children(e), l + r) == EvalAll(env, Children(e), l);
    }
  }

  /**
   The shifter agrees with the classifier: the shifted predicate on the right row has the
   outcome of the original on the joined row.
   */
  lemma {:induction false} ShiftReadsRight(env: Env, e: Expr, l: Row, r: Row)
    requires ColumnsIn(e, |l|, |l| + |r|)
    ensures Eval(env, AdjustPredicateIndices(e, |l|), r) == Eval(env, e, l + r)
    decreases e
  {
    if !e.Column? {
      var cs' := AdjustAll(Children(e), |l|);
      forall i | 0 <= i < |cs'|
        ensures Eval(env, cs'[i], r) == Eval(env, Children(e)[i], l + r)
      {
        assert Children(e)[i] in Children(e);
        ShiftReadsRight(env, Children(e)[i], l, r);
      }
      TransparentUnbound(env.scope, e, cs');
      EvalCongruence(env, e, l + r, env, cs', r);
    }
  }

  function RaiseIndices(e: Expr, offset: nat): Expr
    decreases e
  {
    if e.Column? then Column(e.table, e.name, if e.index.None? then None else Some(e.index.value + offset))
    else if Transparent(e) then
      var cs := Children(e);
      WithChildren(e, seq(|cs|, i requires 0 <= i < |cs| => assert cs[i] in cs; RaiseIndices(cs[i], offset)))
    else e
  }

  function RaiseAll(es: seq<Expr>, offset: nat): (r: seq<Expr>)
    ensures |r| == |es|
    ensures forall i | 0 <= i < |es| :: r[i] == RaiseIndices(es[i], offset)
  {
    seq(|es|, i requires 0 <= i < |es| => RaiseIndices(es[i], offset))
  }

  lemma TransparentWith(e: Expr, cs: seq<Expr>, cs': seq<Expr>)
    requires Transparent(e) && |cs| == |cs'| == |Children(e)|
    ensures Transparent(WithChildren(e, cs)) && Children(WithChildren(e, cs)) == cs
    ensures WithChildren(WithChildren(e, cs), cs') == WithChildren(e, cs')
    ensures WithChildren(e, Children(e)) == e
  {
    ChildrenOfWithChildren(e, cs);
  }

  /** On a predicate of the right side the subtraction never saturates: adding the width back restores it. */
  lemma {:induction false} ShiftNeverSaturates(e: Expr, leftWidth: nat, width: nat)
    requires ColumnsIn(e, leftWidth, width)
    ensures RaiseIndices(AdjustPredicateIndices(e, leftWidth), leftWidth) == e
    decreases e
  {
    if !e.Column? {
      var cs := AdjustAll(Children(e), leftWidth);
      TransparentWith(e, cs, Children(e));
      forall i | 0 <= i < |cs|
        ensures RaiseAll(cs, leftWidth)[i] == Children(e)[i]
      {
        assert Children(e)[i] in Children(e);
        ShiftNeverSaturates(Children(e)[i], leftWidth, width);
      }
      assert RaiseAll(cs, leftWidth) == Children(e);
    }
  }

  // ---------- The loop of the Filter arm ----------

  datatype Partition = Partition(left: seq<Expr>, right: seq<Expr>, post: seq<Expr>)

  function PartitionConjuncts(ps: seq<Expr>, leftWidth: nat): Partition
    decreases |ps|
  {
    if ps == [] then Partition([], [], [])
    else
      var p := PartitionConjuncts(ps[..|ps| - 1], leftWidth);
      var c := ps[|ps| - 1];
      match ClassifyPredicateSide(c, leftWidth)
      case Some(Left) => p.(left := p.left + [c])
      case Some(Right) => p.(right := p.right + [AdjustPredicateIndices(c, leftWidth)])
      case _ => p.(post := p.post + [c])
  }

  method PartitionLoop(ps: seq<Expr>, leftWidth: nat) returns (left: seq<Expr>, right: seq<Expr>, post: seq<Expr>)
    ensures Partition(left, right, post) == PartitionConjuncts(ps, leftWidth)
  {
    left, right, post := [], [], [];
    for i := 0 to |ps|
      invariant Partition(left, right, post) == PartitionConjuncts(ps[..i], leftWidth)
    {
      assert ps[..i + 1][..i] == ps[..i];
      match ClassifyPredicateSide(ps[i], leftWidth) {
        case Some(Left) => left := left + [ps[i]];
        case Some(Right) => right := right + [AdjustPredicateIndices(ps[i], leftWidth)];
        case _ => post := post + [ps[i]];
      }
    }
    assert ps[..|ps|] == ps;
  }

  /** One conjunct's turn in that loop. */
  lemma PartitionAppend(front: seq<Expr>, c: Expr, leftWidth: nat)
    ensures var p := PartitionConjuncts(front, leftWidth);
            PartitionConjuncts(front + [c], leftWidth)
            == match ClassifyPredicateSide(c, leftWidth)
               case Some(Left) => p.(left := p.left + [c])
               case Some(Right) => p.(right := p.right + [AdjustPredicateIndices(c, leftWidth)])
               case _ => p.(post := p.post + [c])
  {
    hide ClassifyPredicateSide, AdjustPredicateIndices;
    assert (front + [c])[..|front|] == front;
  }

  lemma AllTrueAppend(env: Env, front: seq<Expr>, c: Expr, row: Row)
    ensures AllTrue(env, front + [c], row) <==> AllTrue(env, front, row) && IsTrue(Eval(env, c, row))
  {
    hide Eval, IsTrue;
    assert forall x :: x in front + [c] <==> x in front || x == c;
  }

  /** All conjuncts are TRUE on the joined row exactly when each part is on the row it is for. */
  ghost predicate SplitsRight(env: Env, ps: seq<Expr>, l: Row, r: Row) {
    var p := PartitionConjuncts(ps, |l|);
    AllTrue(env, ps, l + r) <==> AllTrue(env, p.left, l) && AllTrue(env, p.right, r) && AllTrue(env, p.post, l + r)
  }

  lemma PartitionStep(env: Env, front: seq<Expr>, c: Expr, l: Row, r: Row)
    requires SplitsRight(env, front, l, r) && Resolved(c, |l| + |r|)
    ensures SplitsRight(env, front + [c], l, r)
  {
    hide Eval, Resolved, ClassifyPredicateSide, AdjustPredicateIndices, ColumnsIn, IsTrue, PartitionConjuncts, AllTrue;
    var p := PartitionConjuncts(front, |l|);
    PartitionAppend(front, c, |l|);
    AllTrueAppend(env, front, c, l + r);
    ClassifierSound(c, |l|, |l| + |r|);
    match ClassifyPredicateSide(c, |l|) {
      case Some(Left) =>
        LeftReadsLeft(env, c, l, r);
        AllTrueAppend(env, p.left, c, l);
      case Some(Right) =>
        ShiftReadsRight(env, c, l, r);
        AllTrueAppend(env, p.right, AdjustPredicateIndices(c, |l|), r);
      case _ =>
        AllTrueAppend(env, p.post, c, l + r);
    }
  }

  /**
   Predicate pushdown, one pair of rows at a time: all conjuncts are TRUE on the joined row
   exactly when the left ones are TRUE on the left row, the shifted right ones on the right
   row and the rest on the joined row.
   */
  lemma {:induction false} PartitionSound(env: Env, ps: seq<Expr>, l: Row, r: Row)
    requires forall c | c in ps :: Resolved(c, |l| + |r|)
    ensures var p := PartitionConjuncts(ps, |l|);
            AllTrue(env, ps, l + r) <==> AllTrue(env, p.left, l) && AllTrue(env, p.right, r) && AllTrue(env, p.post, l + r)
    decreases |ps|
  {
    hide Resolved, ClassifyPredicateSide, AdjustPredicateIndices, Eval, IsTrue;
    if ps != [] {
      var n := |ps| - 1;
      assert forall x | x in ps[..n] :: x in ps;
      PartitionSound(env, ps[..n], l, r);
      hide PartitionConjuncts, AllTrue;
      assert ps[n] in ps;
      PartitionStep(env, ps[..n], ps[n], l, r);
      assert ps == ps[..n] + [ps[n]];
    }
  }
}
