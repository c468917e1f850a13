/**
 The expression evaluator of `crates/executor/src/ir_evaluator/mod.rs`: three-valued
 logic over values, with failures.

 Arithmetic, casts, pattern matching and scalar functions are parameters
 (`Prims`): any deterministic functions of their argument values, free to fail.
 `Eval` is compositional: `Combine` gives the outcome of a form from the
 outcomes of its direct sub-expressions.
 */
module Evaluator {
  import opened Wrappers
  import opened Ir

  datatype Outcome = Val(v: Value) | Fail

  datatype Prims = Prims(
    arith: (BinaryOp, Value, Value) -> Outcome,
    call: (ScalarFunction, seq<Value>) -> Outcome,
    cast: (Value, DataType, bool) -> Outcome,
    like: (string, string, bool) -> Outcome,
    index: (Value, Value) -> Outcome)

  /** Which calls already have a value where an expression is evaluated. */
  datatype Scope =
    | RowScope
    | GroupScope(aggregate: Expr -> Outcome)
    | WindowScope(window: Expr -> Outcome)

  /** `byName` is the fallback for a column whose index is missing or past the row's end. */
  datatype Env = Env(
    prims: Prims,
    scope: Scope,
    byName: (Option<string>, string, Row) -> Outcome,
    opaqueForm: (nat, Row) -> Outcome)

  /** Two numbers this close compare equal when one is INT64 and the other FLOAT64. */
  const EPSILON: real := 1.0 / 4503599627370496.0

  function Close(a: real, b: real): bool {
    -EPSILON < a - b < EPSILON
  }

  predicate IsTrue(o: Outcome) {
    o == Val(Bool(true))
  }

  // ---------- Values ----------

  /** `values_equal`: SQL equality of two non-null values. */
  predicate ValuesEqual(a: Value, b: Value) {
    if a.Null? || b.Null? then false
    else if a.Int64? && b.Float64? then Close(a.i as real, b.f)
    else if a.Float64? && b.Int64? then Close(a.f, b.i as real)
    else a == b
  }

  function EqValues(a: Value, b: Value): Value {
    if a.Null? || b.Null? then Null else Bool(ValuesEqual(a, b))
  }

  function NeqValues(a: Value, b: Value): Value {
    if a.Null? || b.Null? then Null else Bool(!ValuesEqual(a, b))
  }

  function CompareReals(a: real, b: real): int {
    if a < b then -1 else if a == b then 0 else 1
  }

  function CompareInts(a: int, b: int): int {
    if a < b then -1 else if a == b then 0 else 1
  }

  function CompareBools(a: bool, b: bool): int {
    if a == b then 0 else if b then -1 else 1
  }

  function CompareStrings(a: string, b: string): int {
    if a == [] then (if b == [] then 0 else -1)
    else if b == [] then 1
    else if a[0] < b[0] then -1
    else if a[0] > b[0] then 1
    else CompareStrings(a[1..], b[1..])
  }

  /** `compare_values` of the evaluator; `None` where it reports that the two cannot be compared. */
  function CompareSql(a: Value, b: Value): Option<int>
    requires !a.Null? && !b.Null?
  {
    match (a, b)
    case (Int64(x), Int64(y)) => Some(CompareInts(x, y))
    case (Float64(x), Float64(y)) => Some(CompareReals(x, y))
    case (Int64(x), Float64(y)) => Some(CompareReals(x as real, y))
    case (Float64(x), Int64(y)) => Some(CompareReals(x, y as real))
    case (Str(x), Str(y)) => Some(CompareStrings(x, y))
    case (Numeric(x), Numeric(y)) => Some(CompareReals(x, y))
    case (Numeric(x), Int64(y)) => Some(CompareReals(x, y as real))
    case (Int64(x), Numeric(y)) => Some(CompareReals(x as real, y))
    case (Numeric(x), Float64(y)) => Some(CompareReals(x, y))
    case (Float64(x), Numeric(y)) => Some(CompareReals(x, y))
    case (Bool(x), Bool(y)) => Some(CompareBools(x, y))
    case _ => None
  }

  function CompareOp(op: BinaryOp, a: Value, b: Value): Outcome {
    if a.Null? || b.Null? then Val(Null)
    else match CompareSql(a, b)
      case None => Fail
      case Some(c) =>
        Val(Bool(match op
                 case Lt => c < 0
                 case LtEq => c <= 0
                 case Gt => c > 0
                 case _ => c >= 0))
  }

  function AndValues(a: Value, b: Value): Outcome {
    if a == Bool(false) || b == Bool(false) then Val(Bool(false))
    else if (a == Bool(true) || a.Null?) && (b == Bool(true) || b.Null?) then
      Val(if a.Null? || b.Null? then Null else Bool(true))
    else Fail
  }

  function OrValues(a: Value, b: Value): Outcome {
    if a == Bool(true) || b == Bool(true) then Val(Bool(true))
    else if (a == Bool(false) || a.Null?) && (b == Bool(false) || b.Null?) then
      Val(if a.Null? || b.Null? then Null else Bool(false))
    else Fail
  }

  function BinaryValues(p: Prims, op: BinaryOp, a: Value, b: Value): Outcome {
    match op
    case And => AndValues(a, b)
    case Or => OrValues(a, b)
    case Eq => Val(EqValues(a, b))
    case NotEq => Val(NeqValues(a, b))
    case Lt => CompareOp(op, a, b)
    case LtEq => CompareOp(op, a, b)
    case Gt => CompareOp(op, a, b)
    case GtEq => CompareOp(op, a, b)
    case _ => p.arith(op, a, b)
  }

  function UnaryValue(op: UnaryOp, a: Value): Outcome {
    match op
    case Not => if a.Null? then Val(Null) else if a.Bool? then Val(Bool(!a.b)) else Fail
    case Minus =>
      (match a
       case Null => Val(Null)
       case Int64(i) => Val(Int64(-i))
       case Float64(f) => Val(Float64(-f))
       case Numeric(d) => Val(Numeric(-d))
       case _ => Fail)
    case Plus => Val(a)
    case BitwiseNot => if a.Null? then Val(Null) else if a.Int64? then Val(Int64(-a.i - 1)) else Fail
  }

  function InListFrom(v: Value, items: seq<Outcome>, hasNull: bool, negated: bool): Outcome {
    if items == [] then Val(if hasNull then Null else Bool(negated))
    else if items[0].Fail? then Fail
    else if items[0].v.Null? then InListFrom(v, items[1..], true, negated)
    else if ValuesEqual(v, items[0].v) then Val(Bool(!negated))
    else InListFrom(v, items[1..], hasNull, negated)
  }

  function BetweenValues(a: Value, low: Value, high: Value, negated: bool): Outcome {
    if a.Null? || low.Null? || high.Null? then Val(Null)
    else
      var g := CompareOp(GtEq, a, low);
      var l := CompareOp(LtEq, a, high);
      if g.Fail? || l.Fail? then Fail
      else if g.v.Bool? && l.v.Bool? then Val(Bool((g.v.b && l.v.b) != negated))
      else Val(Null)
  }

  function LikeValues(p: Prims, a: Value, pattern: Value, negated: bool, ci: bool): Outcome {
    if a.Null? || pattern.Null? then Val(Null)
    else if a.Str? && pattern.Str? then
      var m := p.like(a.s, pattern.s, ci);
      if m.Val? && m.v.Bool? then Val(Bool(m.v.b != negated)) else Fail
    else Fail
  }

  function DistinctValues(a: Value, b: Value, negated: bool): Value {
    var distinct := if a.Null? && b.Null? then false else if a.Null? || b.Null? then true else !ValuesEqual(a, b);
    Bool(distinct != negated)
  }

  /** CASE over the outcomes of its clauses, condition and result alternating; a later failure is not reached. */
  function CaseFrom(operand: Option<Value>, clauses: seq<Outcome>, otherwise: Outcome): Outcome
    requires |clauses| % 2 == 0
  {
    if clauses == [] then otherwise
    else if clauses[0].Fail? then Fail
    else
      var taken := if operand.Some? then ValuesEqual(operand.value, clauses[0].v) else clauses[0].v == Bool(true);
      if taken then clauses[1] else CaseFrom(operand, clauses[2..], otherwise)
  }

  predicate AllVal(rs: seq<Outcome>) {
    forall r | r in rs :: r.Val?
  }

  function ValuesOf(rs: seq<Outcome>): (vs: seq<Value>)
    requires AllVal(rs)
    ensures |vs| == |rs|
  {
    seq(|rs|, i requires 0 <= i < |rs| => rs[i].v)
  }

  // ---------- Expressions ----------

  /** The outcome of a form from the outcomes of its direct sub-expressions. */
  function Combine(p: Prims, e: Expr, rs: seq<Outcome>): Outcome
    requires |rs| == |Children(e)|
  {
    match e
    case Literal(v) => Val(v)
    case Case(operand, whens, elseResult) =>
      var o := |ToSeq(operand)|;
      var w := o + 2 * |whens|;
      if operand.Some? && rs[0].Fail? then Fail
      else CaseFrom(if operand.Some? then Some(rs[0].v) else None, rs[o..w],
                    if elseResult.Some? then rs[w] else Val(Null))
    case InList(_, _, negated) =>
      if rs[0].Fail? then Fail
      else if rs[0].v.Null? then Val(Null)
      else InListFrom(rs[0].v, rs[1..], false, negated)
    case _ =>
      if !AllVal(rs) then Fail else CombineStrict(p, e, ValuesOf(rs))
  }

  /** The forms that evaluate all their sub-expressions first. */
  function CombineStrict(p: Prims, e: Expr, vs: seq<Value>): Outcome
    requires |vs| == |Children(e)|
  {
    match e
    case Binary(_, op, _) => BinaryValues(p, op, vs[0], vs[1])
    case Unary(op, _) => UnaryValue(op, vs[0])
    case Scalar(fn, _) => p.call(fn, vs)
    case Cast(_, dataType, safe) => if vs[0].Null? then Val(Null) else p.cast(vs[0], dataType, safe)
    case IsNull(_, negated) => Val(Bool(vs[0].Null? != negated))
    case IsDistinctFrom(_, _, negated) => Val(DistinctValues(vs[0], vs[1], negated))
    case Between(_, _, _, negated) => BetweenValues(vs[0], vs[1], vs[2], negated)
    case Like(_, _, negated, ci) => LikeValues(p, vs[0], vs[1], negated, ci)
    case ArrayAccess(_, _) => p.index(vs[0], vs[1])
    case Alias(_, _) => Val(vs[0])
    case _ => Fail
  }

  /** The same environment where no call has a value yet. */
  function RowEnv(env: Env): Env {
    env.(scope := RowScope)
  }

  /** The value a call already has in a scope, if any. */
  function Bound(scope: Scope, e: Expr): Option<Outcome> {
    match scope
    case RowScope => None
    case GroupScope(aggregate) => if e.Aggregate? then Some(aggregate(e)) else None
    case WindowScope(window) => if e.Window? || e.AggregateWindow? then Some(window(e)) else None
  }

  function EvalColumn(env: Env, e: Expr, row: Row): Outcome
    requires e.Column?
  {
    if e.index.Some? && e.index.value < |row| then Val(row[e.index.value]) else env.byName(e.table, e.name, row)
  }

  function Eval(env: Env, e: Expr, row: Row): Outcome
    decreases e
  {
    var b := Bound(env.scope, e);
    if b.Some? then b.value
    else if e.Column? then EvalColumn(env, e, row)
    else if e.Opaque? then env.opaqueForm(e.form, row)
    else
      var cs := Children(e);
      Combine(env.prims, e, seq(|cs|, i requires 0 <= i < |cs| => assert cs[i] in cs; Eval(env, cs[i], row)))
  }

  function EvalAll(env: Env, es: seq<Expr>, row: Row): (rs: seq<Outcome>)
    ensures |rs| == |es|
    ensures forall i | 0 <= i < |es| :: rs[i] == Eval(env, es[i], row)
  {
    seq(|es|, i requires 0 <= i < |es| => Eval(env, es[i], row))
  }

  // ---------- Compositionality ----------

  lemma EvalByChildren(env: Env, e: Expr, row: Row)
    requires Bound(env.scope, e).None? && !e.Column? && !e.Opaque?
    ensures Eval(env, e, row) == Combine(env.prims, e, EvalAll(env, Children(e), row))
  {
    var cs := Children(e);
    assert seq(|cs|, i requires 0 <= i < |cs| => Eval(env, cs[i], row)) == EvalAll(env, cs, row);
  }

  /** Only the head of a form, not its sub-expressions, decides how outcomes are combined. */
  lemma CombineHead(p: Prims, e: Expr, cs: seq<Expr>, rs: seq<Outcome>)
    requires |cs| == |rs| == |Children(e)|
    ensures |rs| == |Children(WithChildren(e, cs))|
    ensures Combine(p, WithChildren(e, cs), rs) == Combine(p, e, rs)
  {
    ChildrenOfWithChildren(e, cs);
    CombineHeadAux(p, e, cs, rs);
  }

  lemma CombineHeadAux(p: Prims, e: Expr, cs: seq<Expr>, rs: seq<Outcome>)
    requires |cs| == |rs| == |Children(e)| == |Children(WithChildren(e, cs))|
    ensures Combine(p, WithChildren(e, cs), rs) == Combine(p, e, rs)
  {
    if e.Case? || e.InList? {
      CombineListsHead(p, e, cs, rs);
    } else {
      SameHead(e, cs);
      if AllVal(rs) {
        CombineStrictHead(p, e, cs, ValuesOf(rs));
      }
      hide CombineStrict, AllVal, ValuesOf, Children, WithChildren;
    }
  }

  lemma SameHead(e: Expr, cs: seq<Expr>)
    requires |cs| == |Children(e)|
    ensures WithChildren(e, cs).Case? <==> e.Case?
    ensures WithChildren(e, cs).InList? <==> e.InList?
  {
  }

  lemma CombineListsHead(p: Prims, e: Expr, cs: seq<Expr>, rs: seq<Outcome>)
    requires (e.Case? || e.InList?) && |cs| == |rs| == |Children(e)| == |Children(WithChildren(e, cs))|
    ensures Combine(p, WithChildren(e, cs), rs) == Combine(p, e, rs)
  {
    hide CaseFrom, InListFrom, CombineStrict, WhenChildren, WithWhenChildren, AllVal;
    var e' := WithChildren(e, cs);
    assert e.InList? ==> e'.InList? && e'.negated == e.negated;
    assert e.Case? ==> e'.Case? && |ToSeq(e'.caseOperand)| == |ToSeq(e.caseOperand)| && |e'.whens| == |e.whens| && e'.elseResult.Some? == e.elseResult.Some?;
    hide WithChildren, Children;
  }

  lemma CombineStrictHead(p: Prims, e: Expr, cs: seq<Expr>, vs: seq<Value>)
    requires |cs| == |vs| == |Children(e)| == |Children(WithChildren(e, cs))|
    ensures CombineStrict(p, WithChildren(e, cs), vs) == CombineStrict(p, e, vs)
  {
    hide BinaryValues, UnaryValue, BetweenValues, LikeValues, DistinctValues, WhenChildren, WithWhenChildren;
  }

  /**
   Congruence: replacing the direct sub-expressions by ones with the same outcomes,
   possibly in another environment and on another row, keeps the outcome.
   */
  lemma EvalCongruence(env: Env, e: Expr, row: Row, env': Env, cs': seq<Expr>, row': Row)
    requires env.prims == env'.prims
    requires !e.Column? && !e.Opaque? && |cs'| == |Children(e)|
    requires Bound(env.scope, e).None? && Bound(env'.scope, WithChildren(e, cs')).None?
    requires forall i | 0 <= i < |cs'| :: Eval(env', cs'[i], row') == Eval(env, Children(e)[i], row)
    ensures Eval(env', WithChildren(e, cs'), row') == Eval(env, e, row)
  {
    var e' := WithChildren(e, cs');
    ChildrenOfWithChildren(e, cs');
    EvalByChildren(env, e, row);
    EvalByChildren(env', e', row');
    var rs := EvalAll(env, Children(e), row);
    assert EvalAll(env', cs', row') == rs;
    CombineHead(env.prims, e, cs', rs);
  }
}
