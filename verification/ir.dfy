/**
 The intermediate representation of `crates/ir`: values, expressions and plan schemas.

 `Children` lists the direct sub-expressions of an expression in the order the
 planner visits them, and `WithChildren` puts new ones in their place.  The
 rewrites of the planner and of the optimizer are stated with these two, each
 naming the expression forms it descends into.
 */
module Ir {
  import opened Wrappers

  datatype DataType = Unknown | BoolType | Int64Type | Float64Type | NumericType | StringType

  datatype Value =
    | Null
    | Bool(b: bool)
    | Int64(i: int)
    | Float64(f: real)
    | Numeric(d: real)
    | Str(s: string)

  type Row = seq<Value>

  datatype BinaryOp =
    | Add | Sub | Mul | Div | Mod
    | Eq | NotEq | Lt | LtEq | Gt | GtEq
    | And | Or | Concat
    | BitwiseAnd | BitwiseOr | BitwiseXor | ShiftLeft | ShiftRight

  datatype UnaryOp = Not | Minus | Plus | BitwiseNot

  /** A built-in scalar function, or a name to be looked up (a user function or a lambda parameter). */
  datatype ScalarFunction = Builtin(id: nat) | Custom(name: string)

  datatype FrameUnit = Rows | Range | Groups

  /** No number of rows means unbounded. */
  datatype FrameBound = CurrentRow | Preceding(count: Option<nat>) | Following(count: Option<nat>)

  datatype WindowFrame = WindowFrame(unit: FrameUnit, start: FrameBound, end: Option<FrameBound>)

  datatype SortExpr = SortExpr(expr: Expr, asc: bool, nullsFirst: bool)

  datatype WhenClause = WhenClause(condition: Expr, result: Expr)

  /**
   `Opaque` stands for the forms no rewrite of this model looks into
   (subqueries, variables, date and string syntax): their value may depend on
   the whole row.
   */
  datatype Expr =
    | Literal(value: Value)
    | Column(table: Option<string>, name: string, index: Option<nat>)
    | Binary(left: Expr, op: BinaryOp, right: Expr)
    | Unary(uop: UnaryOp, operand: Expr)
    | Scalar(fn: ScalarFunction, args: seq<Expr>)
    | Aggregate(func: string, args: seq<Expr>, distinct: bool, filter: Option<Expr>,
                orderBy: seq<SortExpr>, limit: Option<nat>, ignoreNulls: bool)
    | Window(func: string, args: seq<Expr>, partitionBy: seq<Expr>, orderBy: seq<SortExpr>, frame: Option<WindowFrame>)
    | AggregateWindow(func: string, args: seq<Expr>, distinct: bool, partitionBy: seq<Expr>, orderBy: seq<SortExpr>,
                      frame: Option<WindowFrame>)
    | Case(caseOperand: Option<Expr>, whens: seq<WhenClause>, elseResult: Option<Expr>)
    | Cast(operand: Expr, dataType: DataType, safe: bool)
    | IsNull(operand: Expr, negated: bool)
    | IsDistinctFrom(left: Expr, right: Expr, negated: bool)
    | InList(operand: Expr, list: seq<Expr>, negated: bool)
    | Between(operand: Expr, low: Expr, high: Expr, negated: bool)
    | Like(operand: Expr, pattern: Expr, negated: bool, caseInsensitive: bool)
    | ArrayAccess(left: Expr, right: Expr)
    | Alias(operand: Expr, alias: string)
    | Lambda(params: seq<string>, body: Expr)
    | Opaque(form: nat)

  datatype PlanField = PlanField(name: string, dataType: DataType, nullable: bool, table: Option<string>)

  type PlanSchema = seq<PlanField>

  // ---------- Sub-expressions ----------

  function SortChildren(orderBy: seq<SortExpr>): (cs: seq<Expr>)
    ensures |cs| == |orderBy|
    ensures forall i | 0 <= i < |cs| :: cs[i] == orderBy[i].expr
  {
    seq(|orderBy|, i requires 0 <= i < |orderBy| => orderBy[i].expr)
  }

  function WithSortChildren(orderBy: seq<SortExpr>, cs: seq<Expr>): (r: seq<SortExpr>)
    requires |cs| == |orderBy|
    ensures |r| == |orderBy|
    ensures forall i | 0 <= i < |cs| :: r[i] == orderBy[i].(expr := cs[i])
  {
    seq(|orderBy|, i requires 0 <= i < |orderBy| => orderBy[i].(expr := cs[i]))
  }

  function WhenChildren(whens: seq<WhenClause>): (cs: seq<Expr>)
    ensures |cs| == 2 * |whens|
    ensures forall c | c in cs :: exists w :: w in whens && (c == w.condition || c == w.result)
  {
    if whens == [] then [] else [whens[0].condition, whens[0].result] + WhenChildren(whens[1..])
  }

  function WithWhenChildren(n: nat, cs: seq<Expr>): (r: seq<WhenClause>)
    requires |cs| == 2 * n
    ensures |r| == n
  {
    if n == 0 then [] else [WhenClause(cs[0], cs[1])] + WithWhenChildren(n - 1, cs[2..])
  }

  function Children(e: Expr): (cs: seq<Expr>)
    ensures forall c | c in cs :: c < e
  {
    match e
    case Literal(_) => []
    case Column(_, _, _) => []
    case Binary(l, _, r) => [l, r]
    case Unary(_, x) => [x]
    case Scalar(_, args) => args
    case Aggregate(_, args, _, filter, orderBy, _, _) => args + ToSeq(filter) + SortChildren(orderBy)
    case Window(_, args, partitionBy, orderBy, _) => args + partitionBy + SortChildren(orderBy)
    case AggregateWindow(_, args, _, partitionBy, orderBy, _) => args + partitionBy + SortChildren(orderBy)
    case Case(operand, whens, elseResult) => ToSeq(operand) + WhenChildren(whens) + ToSeq(elseResult)
    case Cast(x, _, _) => [x]
    case IsNull(x, _) => [x]
    case IsDistinctFrom(l, r, _) => [l, r]
    case InList(x, list, _) => [x] + list
    case Between(x, low, high, _) => [x, low, high]
    case Like(x, pattern, _, _) => [x, pattern]
    case ArrayAccess(l, r) => [l, r]
    case Alias(x, _) => [x]
    case Lambda(_, body) => [body]
    case Opaque(_) => []
  }

  /** Each is part of the parent, so recursion over them ends. */
  ghost predicate Below(es: seq<Expr>, parent: Expr) {
    forall i | 0 <= i < |es| :: es[i] < parent
  }

  lemma ChildrenBelow(e: Expr)
    ensures Below(Children(e), e)
  {
    assert forall i | 0 <= i < |Children(e)| :: Children(e)[i] in Children(e);
  }

  function WithOption(o: Option<Expr>, cs: seq<Expr>): Option<Expr>
    requires |cs| == |ToSeq(o)|
  {
    if o.Some? then Some(cs[0]) else None
  }

  function WithChildren(e: Expr, cs: seq<Expr>): (r: Expr)
    requires |cs| == |Children(e)|
  {
    match e
    case Literal(_) => e
    case Column(_, _, _) => e
    case Binary(_, op, _) => Binary(cs[0], op, cs[1])
    case Unary(op, _) => Unary(op, cs[0])
    case Scalar(fn, _) => Scalar(fn, cs)
    case Aggregate(func, args, distinct, filter, orderBy, limit, ignoreNulls) =>
      var f := |args| + |ToSeq(filter)|;
      Aggregate(func, cs[..|args|], distinct, WithOption(filter, cs[|args|..f]), WithSortChildren(orderBy, cs[f..]), limit, ignoreNulls)
    case Window(func, args, partitionBy, orderBy, frame) =>
      var p := |args| + |partitionBy|;
      Window(func, cs[..|args|], cs[|args|..p], WithSortChildren(orderBy, cs[p..]), frame)
    case AggregateWindow(func, args, distinct, partitionBy, orderBy, frame) =>
      var p := |args| + |partitionBy|;
      AggregateWindow(func, cs[..|args|], distinct, cs[|args|..p], WithSortChildren(orderBy, cs[p..]), frame)
    case Case(operand, whens, elseResult) =>
      var o := |ToSeq(operand)|;
      var w := o + 2 * |whens|;
      Case(WithOption(operand, cs[..o]), WithWhenChildren(|whens|, cs[o..w]), WithOption(elseResult, cs[w..]))
    case Cast(_, dataType, safe) => Cast(cs[0], dataType, safe)
    case IsNull(_, negated) => IsNull(cs[0], negated)
    case IsDistinctFrom(_, _, negated) => IsDistinctFrom(cs[0], cs[1], negated)
    case InList(_, _, negated) => InList(cs[0], cs[1..], negated)
    case Between(_, _, _, negated) => Between(cs[0], cs[1], cs[2], negated)
    case Like(_, _, negated, ci) => Like(cs[0], cs[1], negated, ci)
    case ArrayAccess(_, _) => ArrayAccess(cs[0], cs[1])
    case Alias(_, name) => Alias(cs[0], name)
    case Lambda(params, _) => Lambda(params, cs[0])
    case Opaque(_) => e
  }

  lemma {:induction false} WhenRoundTrip(n: nat, cs: seq<Expr>)
    requires |cs| == 2 * n
    ensures WhenChildren(WithWhenChildren(n, cs)) == cs
  {
    if n > 0 {
      WhenRoundTrip(n - 1, cs[2..]);
      assert WithWhenChildren(n, cs)[1..] == WithWhenChildren(n - 1, cs[2..]);
      assert cs == [cs[0], cs[1]] + cs[2..];
    }
  }

  lemma CaseRoundTrip(e: Expr, cs: seq<Expr>)
    requires e.Case? && |cs| == |Children(e)|
    ensures Children(WithChildren(e, cs)) == cs
  {
    hide WhenChildren, WithWhenChildren;
    var o := |ToSeq(e.caseOperand)|;
    var w := o + 2 * |e.whens|;
    WhenRoundTrip(|e.whens|, cs[o..w]);
    assert cs == cs[..o] + cs[o..w] + cs[w..];
    OptionRoundTrip(e.caseOperand, cs[..o]);
    OptionRoundTrip(e.elseResult, cs[w..]);
  }

  lemma AggregateRoundTrip(e: Expr, cs: seq<Expr>)
    requires e.Aggregate? && |cs| == |Children(e)|
    ensures Children(WithChildren(e, cs)) == cs
  {
    hide *;
    AggregateParts(e);
    AggregateRebuilt(e, cs);
    AggregateParts(WithChildren(e, cs));
    var a := |e.args|;
    var f := a + |ToSeq(e.filter)|;
    assert cs == cs[..a] + cs[a..f] + cs[f..];
    OptionRoundTrip(e.filter, cs[a..f]);
    SortRoundTrip(e.orderBy, cs[f..]);
  }

  lemma AggregateParts(e: Expr)
    requires e.Aggregate?
    ensures Children(e) == e.args + ToSeq(e.filter) + SortChildren(e.orderBy)
  {
    hide SortChildren, ToSeq;
  }

  lemma AggregateRebuilt(e: Expr, cs: seq<Expr>)
    requires e.Aggregate? && |cs| == |Children(e)| == |e.args| + |ToSeq(e.filter)| + |e.orderBy|
    ensures var f := |e.args| + |ToSeq(e.filter)|;
            var r := WithChildren(e, cs);
            && r.Aggregate? && r.args == cs[..|e.args|]
            && r.filter == WithOption(e.filter, cs[|e.args|..f]) && r.orderBy == WithSortChildren(e.orderBy, cs[f..])
  {
    hide Children, ToSeq, WithOption, SortChildren, WithSortChildren;
  }

  lemma OptionRoundTrip(o: Option<Expr>, cs: seq<Expr>)
    requires |cs| == |ToSeq(o)|
    ensures ToSeq(WithOption(o, cs)) == cs
  {
  }

  lemma SortRoundTrip(orderBy: seq<SortExpr>, cs: seq<Expr>)
    requires |cs| == |orderBy|
    ensures SortChildren(WithSortChildren(orderBy, cs)) == cs
  {
  }

  lemma WindowRoundTrip(e: Expr, cs: seq<Expr>)
    requires (e.Window? || e.AggregateWindow?) && |cs| == |Children(e)|
    ensures Children(WithChildren(e, cs)) == cs
  {
    var a := |e.args|;
    var p := a + |e.partitionBy|;
    assert cs == cs[..a] + cs[a..p] + cs[p..];
    SortRoundTrip(e.orderBy, cs[p..]);
  }

  lemma SimpleRoundTrip(e: Expr, cs: seq<Expr>)
    requires !e.Case? && !e.Aggregate? && !e.Window? && !e.AggregateWindow?
    requires |cs| == |Children(e)|
    ensures Children(WithChildren(e, cs)) == cs
  {
    if e.InList? {
      assert cs == [cs[0]] + cs[1..];
    } else if e.Scalar? {
    } else if |cs| == 1 {
      assert cs == [cs[0]];
    } else if |cs| == 2 {
      assert cs == [cs[0], cs[1]];
    } else if |cs| == 3 {
      assert cs == [cs[0], cs[1], cs[2]];
    }
  }

  /** Putting new sub-expressions in place and reading them back returns them. */
  lemma ChildrenOfWithChildren(e: Expr, cs: seq<Expr>)
    requires |cs| == |Children(e)|
    ensures Children(WithChildren(e, cs)) == cs
  {
    if e.Case? {
      CaseRoundTrip(e, cs);
    } else if e.Aggregate? {
      AggregateRoundTrip(e, cs);
    } else if e.Window? || e.AggregateWindow? {
      WindowRoundTrip(e, cs);
    } else {
      SimpleRoundTrip(e, cs);
    }
  }
}
