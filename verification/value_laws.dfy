/**
 What the operators of `evaluator.dfy` mean on values: the truth tables of three-valued logic, comparisons by
 size, IN, BETWEEN and CASE.
 */
module ValueLaws {
  import opened Wrappers
  import opened Ir
  import opened Evaluator
  import opened EquiKeys
  import opened SortOrder
  import opened AggregateStates

  // ---------- AND, OR and NOT ----------

  predicate Logical(v: Value) {
    v.Null? || v.Bool?
  }

  /** FALSE below NULL below TRUE. */
  function Truth(v: Value): int
    requires Logical(v)
  {
    if v.Null? then 1 else if v.b then 2 else 0
  }

  /** AND is the smaller of two truth values, OR the larger, NOT turns the order round. */
  lemma Connectives(a: Value, b: Value)
    requires Logical(a) && Logical(b)
    ensures var r := AndValues(a, b);
            r.Val? && Logical(r.v) && Truth(r.v) == if Truth(a) < Truth(b) then Truth(a) else Truth(b)
    ensures var r := OrValues(a, b);
            r.Val? && Logical(r.v) && Truth(r.v) == if Truth(a) < Truth(b) then Truth(b) else Truth(a)
    ensures var r := UnaryValue(Not, a);
            r.Val? && Logical(r.v) && Truth(r.v) == 2 - Truth(a)
  {
  }

  /** A value that is no truth value fails, unless the other operand decides by itself. */
  lemma ConnectivesFail(a: Value, b: Value)
    ensures AndValues(a, b).Fail? <==> (!Logical(a) || !Logical(b)) && a != Bool(false) && b != Bool(false)
    ensures OrValues(a, b).Fail? <==> (!Logical(a) || !Logical(b)) && a != Bool(true) && b != Bool(true)
    ensures UnaryValue(Not, a).Fail? <==> !Logical(a)
  {
  }

  // ---------- Comparisons ----------

  predicate Holds(op: BinaryOp, a: Value, b: Value) {
    IsTrue(BinaryValues(NOTHING, op, a, b))
  }

  /** Comparisons do not use the operations left open. */
  const NOTHING: Prims := Prims((op: BinaryOp, a: Value, b: Value) => Fail, (fn: ScalarFunction, vs: seq<Value>) => Fail,
                                (v: Value, t: DataType, safe: bool) => Fail, (s: string, t: string, ci: bool) => Fail,
                                (a: Value, b: Value) => Fail)

  predicate IsComparison(op: BinaryOp) {
    op.Eq? || op.NotEq? || op.Lt? || op.LtEq? || op.Gt? || op.GtEq?
  }

  /** A comparison with NULL is NULL. */
  lemma NullCompares(p: Prims, op: BinaryOp, a: Value, b: Value)
    requires IsComparison(op) && (a.Null? || b.Null?)
    ensures BinaryValues(p, op, a, b) == Val(Null)
  {
  }

  /** On two values of one type the comparisons are those of the order, and equality is identity. */
  lemma ComparesByOrder(p: Prims, t: DataType, a: Value, b: Value)
    requires !t.Unknown? && Conforms(a, t) && Conforms(b, t) && !a.Null? && !b.Null?
    ensures BinaryValues(p, LtEq, a, b) == Val(Bool(AtMost(a, b))) && BinaryValues(p, GtEq, a, b) == Val(Bool(AtMost(b, a)))
    ensures BinaryValues(p, Lt, a, b) == Val(Bool(!AtMost(b, a))) && BinaryValues(p, Gt, a, b) == Val(Bool(!AtMost(a, b)))
    ensures BinaryValues(p, Eq, a, b) == Val(Bool(a == b)) && BinaryValues(p, NotEq, a, b) == Val(Bool(a != b))
  {
    ValueOrder(t, a, b);
    ValueOrder(t, b, a);
    hide AtMost;
  }

  /** On numbers of any types the order is that of their amounts. */
  lemma NumbersByAmount(p: Prims, a: Value, b: Value)
    requires IsNumber(a) && IsNumber(b)
    ensures BinaryValues(p, Lt, a, b) == Val(Bool(Amount(a) < Amount(b))) && BinaryValues(p, LtEq, a, b) == Val(Bool(Amount(a) <= Amount(b)))
    ensures BinaryValues(p, Gt, a, b) == Val(Bool(Amount(a) > Amount(b))) && BinaryValues(p, GtEq, a, b) == Val(Bool(Amount(a) >= Amount(b)))
  {
  }

  /** Ordering two values that are neither numbers nor of one type fails; asking whether they are equal does not. */
  lemma Incomparable(p: Prims, op: BinaryOp, a: Value, b: Value)
    requires (op.Lt? || op.LtEq? || op.Gt? || op.GtEq?) && !a.Null? && !b.Null?
    ensures BinaryValues(p, op, a, b).Fail? <==> !(IsNumber(a) && IsNumber(b)) && !(a.Bool? && b.Bool?) && !(a.Str? && b.Str?)
    ensures BinaryValues(p, op, a, b).Fail? ==> BinaryValues(p, Eq, a, b) == Val(Bool(false))
  {
  }

  /** Exactly one of less, equal and greater holds. */
  predicate Trichotomy(a: Value, b: Value) {
    var l, e, g := Holds(Lt, a, b), Holds(Eq, a, b), Holds(Gt, a, b);
    (l && !e && !g) || (!l && e && !g) || (!l && !e && g)
  }

  predicate IntWithFloat(a: Value, b: Value) {
    (a.Int64? && b.Float64?) || (a.Float64? && b.Int64?)
  }

  /**
   Of two numbers exactly one of less, equal and greater holds, unless they are an INT64 and a FLOAT64 that are
   close and not the same, which are equal and ordered, or a NUMERIC and another type of the same amount, which
   are neither.
   */
  lemma TrichotomyIff(a: Value, b: Value)
    requires IsNumber(a) && IsNumber(b)
    ensures Trichotomy(a, b)
            <==> if IntWithFloat(a, b) then Amount(a) == Amount(b) || !Close(Amount(a), Amount(b))
                 else a.Numeric? == b.Numeric? || Amount(a) != Amount(b)
  {
    NumbersByAmount(NOTHING, a, b);
  }

  /** Half of the distance that counts as close. */
  lemma EqualAndLess()
    ensures var a, b := Int64(1), Float64(1.0 + EPSILON / 2.0); Holds(Eq, a, b) && Holds(Lt, a, b)
    ensures var a, b := Int64(1), Float64(1.0 + EPSILON); !Holds(Eq, a, b) && Holds(Lt, a, b)
    ensures !Holds(Eq, Int64(1), Numeric(1.0)) && !Holds(Lt, Int64(1), Numeric(1.0)) && !Holds(Gt, Int64(1), Numeric(1.0))
  {
  }

  // ---------- IN, BETWEEN and CASE ----------

  /** IN over values: TRUE if one is equal, else NULL if one is NULL, else FALSE; NOT IN the opposite. */
  lemma {:induction false} InMeans(v: Value, items: seq<Outcome>, hasNull: bool, negated: bool)
    requires !v.Null? && AllVal(items)
    ensures InListFrom(v, items, hasNull, negated)
            == Val(if exists o :: o in items && ValuesEqual(v, o.v) then Bool(!negated)
                   else if hasNull || Val(Null) in items then Null
                   else Bool(negated))
  {
    if items != [] {
      var rest := items[1..];
      InMeans(v, rest, hasNull || items[0].v.Null?, negated);
      assert items == [items[0]] + rest;
    }
  }

  /** IN fails exactly where an item fails and none before it is equal. */
  lemma {:induction false} InFails(v: Value, items: seq<Outcome>, hasNull: bool, negated: bool)
    requires !v.Null?
    ensures InListFrom(v, items, hasNull, negated).Fail?
            <==> exists k | 0 <= k < |items| :: items[k].Fail? && forall j | 0 <= j < k :: items[j].Val? && !ValuesEqual(v, items[j].v)
  {
    hide ValuesEqual;
    if items != [] && items[0].Val? {
      var rest := items[1..];
      InFails(v, rest, hasNull || items[0].v.Null?, negated);
      NullNotEqual(v);
      if k :| 0 <= k < |rest| && rest[k].Fail? && forall j | 0 <= j < k :: rest[j].Val? && !ValuesEqual(v, rest[j].v) {
        if !ValuesEqual(v, items[0].v) {
          assert items[k + 1].Fail? && forall j | 0 <= j < k + 1 :: items[j].Val? && !ValuesEqual(v, items[j].v) by {
            assert forall j | 0 < j < k + 1 :: items[j] == rest[j - 1];
          }
        }
      }
      if k :| 0 <= k < |items| && items[k].Fail? && forall j | 0 <= j < k :: items[j].Val? && !ValuesEqual(v, items[j].v) {
        assert k > 0 && rest[k - 1].Fail? && forall j | 0 <= j < k - 1 :: rest[j] == items[j + 1];
      }
    }
  }

  lemma NullNotEqual(v: Value)
    ensures !ValuesEqual(v, Null)
  {
  }

  /** A whole IN: its operand's failure or NULL decides, whatever the items. */
  lemma InOperand(p: Prims, e: Expr, rs: seq<Outcome>)
    requires e.InList? && |rs| == |Children(e)|
    ensures rs[0].Fail? ==> Combine(p, e, rs) == Fail
    ensures rs[0] == Val(Null) ==> Combine(p, e, rs) == Val(Null)
    ensures rs[0].Val? && !rs[0].v.Null? ==> Combine(p, e, rs) == InListFrom(rs[0].v, rs[1..], false, e.negated)
  {
    hide InListFrom;
  }

  /** BETWEEN over numbers. */
  lemma BetweenNumbers(a: Value, low: Value, high: Value, negated: bool)
    requires IsNumber(a) && IsNumber(low) && IsNumber(high)
    ensures BetweenValues(a, low, high, negated) == Val(Bool((Amount(low) <= Amount(a) <= Amount(high)) != negated))
  {
    NumbersByAmount(NOTHING, a, low);
    NumbersByAmount(NOTHING, a, high);
    hide CompareSql, Amount;
  }

  predicate Taken(operand: Option<Value>, condition: Outcome) {
    condition.Val? && if operand.Some? then ValuesEqual(operand.value, condition.v) else condition.v == Bool(true)
  }

  /** CASE gives the result of the first clause taken, whatever follows it, and fails if a condition before it does. */
  lemma {:induction false} CaseMeans(operand: Option<Value>, clauses: seq<Outcome>, otherwise: Outcome, k: nat)
    requires |clauses| % 2 == 0 && 2 * k <= |clauses|
    requires forall j | 0 <= j < k :: clauses[2 * j].Val? && !Taken(operand, clauses[2 * j])
    ensures 2 * k == |clauses| ==> CaseFrom(operand, clauses, otherwise) == otherwise
    ensures 2 * k < |clauses| && Taken(operand, clauses[2 * k]) ==> CaseFrom(operand, clauses, otherwise) == clauses[2 * k + 1]
    ensures 2 * k < |clauses| && clauses[2 * k].Fail? ==> CaseFrom(operand, clauses, otherwise) == Fail
    decreases k
  {
    if k > 0 {
      assert clauses[2 * 0] == clauses[0];
      forall j | 0 <= j < k - 1
        ensures clauses[2..][2 * j].Val? && !Taken(operand, clauses[2..][2 * j])
      {
        assert clauses[2..][2 * j] == clauses[2 * (j + 1)];
      }
      CaseMeans(operand, clauses[2..], otherwise, k - 1);
    }
  }

  /** Where no clause is taken CASE gives its ELSE, and NULL without one; a CASE whose operand fails does. */
  lemma CaseElse(p: Prims, e: Expr, rs: seq<Outcome>)
    requires e.Case? && |rs| == |Children(e)|
    requires var first := |ToSeq(e.caseOperand)|;
             e.caseOperand.Some? && rs[0].Val? ==>
               forall j | 0 <= j < |e.whens| :: rs[first + 2 * j].Val? && !Taken(Some(rs[0].v), rs[first + 2 * j])
    requires e.caseOperand.None? ==> forall j | 0 <= j < |e.whens| :: rs[2 * j].Val? && !Taken(None, rs[2 * j])
    ensures Combine(p, e, rs)
            == if e.caseOperand.Some? && rs[0].Fail? then Fail
               else if e.elseResult.Some? then rs[|rs| - 1]
               else Val(Null)
  {
    hide *;
    CaseWidth(e);
    CaseForm(p, e, rs);
    if e.caseOperand.None? || rs[0].Val? {
      var first := |ToSeq(e.caseOperand)|;
      var clauses := rs[first..first + 2 * |e.whens|];
      var operand := if e.caseOperand.Some? then Some(rs[0].v) else None;
      forall j | 0 <= j < |e.whens|
        ensures clauses[2 * j].Val? && !Taken(operand, clauses[2 * j])
      {
        assert clauses[2 * j] == rs[first + 2 * j];
      }
      CaseMeans(operand, clauses, if e.elseResult.Some? then rs[|rs| - 1] else Val(Null), |e.whens|);
    }
  }

  lemma CaseWidth(e: Expr)
    requires e.Case?
    ensures |Children(e)| == |ToSeq(e.caseOperand)| + 2 * |e.whens| + (if e.elseResult.Some? then 1 else 0)
    ensures |ToSeq(e.caseOperand)| == if e.caseOperand.Some? then 1 else 0
  {
    hide WhenChildren;
  }

  lemma CaseForm(p: Prims, e: Expr, rs: seq<Outcome>)
    requires e.Case? && |rs| == |Children(e)|
    requires |Children(e)| == |ToSeq(e.caseOperand)| + 2 * |e.whens| + (if e.elseResult.Some? then 1 else 0)
    requires |ToSeq(e.caseOperand)| == if e.caseOperand.Some? then 1 else 0
    ensures var first := |ToSeq(e.caseOperand)|;
            Combine(p, e, rs)
            == if e.caseOperand.Some? && rs[0].Fail? then Fail
               else CaseFrom(if e.caseOperand.Some? then Some(rs[0].v) else None, rs[first..first + 2 * |e.whens|],
                             if e.elseResult.Some? then rs[|rs| - 1] else Val(Null))
  {
    hide WhenChildren, CaseFrom, Children;
  }

  /** LIKE over two texts is what the matcher says, NOT LIKE the opposite; NULL for a NULL. */
  lemma LikeMeans(p: Prims, s: string, t: string, ci: bool, m: bool, a: Value)
    requires p.like(s, t, ci) == Val(Bool(m))
    ensures LikeValues(p, Str(s), Str(t), false, ci) == Val(Bool(m)) && LikeValues(p, Str(s), Str(t), true, ci) == Val(Bool(!m))
    ensures LikeValues(p, a, Null, false, ci) == Val(Null) == LikeValues(p, Null, a, false, ci)
  {
  }

  /** IS DISTINCT FROM is never NULL: two NULLs are not distinct, a NULL is from anything else. */
  lemma DistinctMeans(a: Value, b: Value, negated: bool)
    ensures a.Null? && b.Null? ==> DistinctValues(a, b, negated) == Bool(negated)
    ensures a.Null? != b.Null? ==> DistinctValues(a, b, negated) == Bool(!negated)
    ensures !a.Null? && !b.Null? ==> DistinctValues(a, b, negated) == Bool((EqValues(a, b) == Bool(true)) == negated)
  {
  }

  // ---------- Signs and negated forms ----------

  /** Minus turns the amount round, keeps the type and is undone by itself; plus changes nothing. */
  lemma SignMeans(a: Value)
    requires IsNumber(a)
    ensures var r := UnaryValue(Minus, a);
            r.Val? && IsNumber(r.v) && Amount(r.v) == -Amount(a) && (r.v.Int64? <==> a.Int64?) && (r.v.Numeric? <==> a.Numeric?)
            && UnaryValue(Minus, r.v) == Val(a)
    ensures UnaryValue(Plus, a) == Val(a)
  {
  }

  /** The bits of an INT64 turned round: x and its complement add up to -1. */
  lemma ComplementMeans(i: int)
    ensures var r := UnaryValue(BitwiseNot, Int64(i)); r.Val? && r.v.Int64? && r.v.i + i == -1
  {
  }

  /** NOT over an outcome. */
  function Negated(o: Outcome): Outcome {
    if o.Fail? then Fail else UnaryValue(Not, o.v)
  }

  /** The negated forms are NOT over the plain ones. */
  lemma NegatedForms(p: Prims, a: Value, b: Value, c: Value, items: seq<Outcome>, ci: bool)
    requires !a.Null? && AllVal(items)
    ensures InListFrom(a, items, false, true) == Negated(InListFrom(a, items, false, false))
    ensures BetweenValues(a, b, c, true) == Negated(BetweenValues(a, b, c, false))
    ensures LikeValues(p, a, b, true, ci) == Negated(LikeValues(p, a, b, false, ci))
    ensures Val(DistinctValues(a, b, true)) == Negated(Val(DistinctValues(a, b, false)))
  {
    InMeans(a, items, false, true);
    InMeans(a, items, false, false);
  }

  /** IS NULL and IS NOT NULL are TRUE or FALSE, whatever the operand gives. */
  lemma IsNullMeans(env: Env, x: Expr, negated: bool, row: Row)
    requires env.scope.RowScope?
    ensures var o := Eval(env, x, row);
            Eval(env, IsNull(x, negated), row) == if o.Fail? then Fail else Val(Bool(o.v.Null? != negated))
  {
    var e := IsNull(x, negated);
    EvalByChildren(env, e, row);
    var rs := EvalAll(env, Children(e), row);
    assert rs == [Eval(env, x, row)];
    hide Eval;
    assert AllVal(rs) <==> rs[0].Val?;
  }
}
