/**
 Window rewriting of `crates/parser/src/planner.rs`: finding the window call of a SELECT item,
 computing it in a window operator, and replacing it by the operator's column.
 */
module WindowRewrite {
  import opened Wrappers
  import opened Ir
  import opened Evaluator
  import opened Predicates

  predicate IsWindowCall(e: Expr) {
    e.Window? || e.AggregateWindow?
  }

  /** The forms the three functions look into. */
  predicate Searched(e: Expr) {
    e.Binary? || e.Unary? || e.Case? || e.Cast? || e.Scalar? || e.Alias?
  }

  predicate HasWindow(e: Expr)
    decreases e
  {
    IsWindowCall(e) || (Searched(e) && exists c | c in Children(e) :: HasWindow(c))
  }

  /** The first window call, operands before later ones. */
  function ExtractWindow(e: Expr): Option<Expr>
    decreases e, 1, 0
  {
    if IsWindowCall(e) then Some(e)
    else if Searched(e) then ChildrenBelow(e); ExtractFirst(Children(e), e)
    else None
  }

  function ExtractFirst(es: seq<Expr>, ghost parent: Expr): Option<Expr>
    requires Below(es, parent)
    decreases parent, 0, |es|
  {
    if es == [] then None
    else
      var first := ExtractWindow(es[0]);
      if first.Some? then first else ExtractFirst(es[1..], parent)
  }

  function ReplaceWindow(e: Expr, name: string, index: nat): Expr
    decreases e
  {
    if IsWindowCall(e) then Column(None, name, Some(index))
    else if Searched(e) then
      var cs := Children(e);
      WithChildren(e, seq(|cs|, i requires 0 <= i < |cs| => assert cs[i] in cs; ReplaceWindow(cs[i], name, index)))
    else e
  }

  // ---------- The detector and the extractor agree ----------

  /** Every window call the rewrite reaches, in order. */
  function WindowCalls(e: Expr): (r: seq<Expr>)
    ensures forall c | c in r :: IsWindowCall(c)
    decreases e, 1, 0
  {
    if IsWindowCall(e) then [e]
    else if Searched(e) then ChildrenBelow(e); CallsOf(Children(e), e)
    else []
  }

  function CallsOf(es: seq<Expr>, ghost parent: Expr): (r: seq<Expr>)
    requires Below(es, parent)
    ensures forall c | c in r :: IsWindowCall(c)
    decreases parent, 0, |es|
  {
    if es == [] then [] else WindowCalls(es[0]) + CallsOf(es[1..], parent)
  }

  lemma {:induction false} CallsOfChild(es: seq<Expr>, parent: Expr, i: nat)
    requires Below(es, parent) && i < |es|
    ensures forall c | c in WindowCalls(es[i]) :: c in CallsOf(es, parent)
    ensures |WindowCalls(es[i])| <= |CallsOf(es, parent)|
    decreases |es|
  {
    if i > 0 {
      CallsOfChild(es[1..], parent, i - 1);
    }
  }

  /** The detector is true exactly when the extractor finds a call, and what it finds is the first one. */
  lemma {:induction false} DetectorIsExtractor(e: Expr)
    ensures HasWindow(e) <==> ExtractWindow(e).Some?
    ensures ExtractWindow(e) == if WindowCalls(e) == [] then None else Some(WindowCalls(e)[0])
    decreases e, 1, 0
  {
    if !IsWindowCall(e) && Searched(e) {
      ChildrenBelow(e);
      FirstOfAll(Children(e), e);
      assert (exists c | c in Children(e) :: HasWindow(c)) <==> (exists i | 0 <= i < |Children(e)| :: HasWindow(Children(e)[i]));
    }
  }

  lemma {:induction false} FirstOfAll(es: seq<Expr>, parent: Expr)
    requires Below(es, parent)
    ensures (exists i | 0 <= i < |es| :: HasWindow(es[i])) <==> ExtractFirst(es, parent).Some?
    ensures ExtractFirst(es, parent) == if CallsOf(es, parent) == [] then None else Some(CallsOf(es, parent)[0])
    decreases parent, 0, |es|
  {
    hide HasWindow, ExtractWindow, WindowCalls;
    if es != [] {
      DetectorIsExtractor(es[0]);
      FirstOfAll(es[1..], parent);
      if i :| 0 <= i < |es| && HasWindow(es[i]) {
        assert i > 0 ==> es[1..][i - 1] == es[i];
      }
    }
  }

  // ---------- Which calls are found ----------

  function ReplaceAll(es: seq<Expr>, name: string, index: nat): (r: seq<Expr>)
    ensures |r| == |es|
    ensures forall i | 0 <= i < |es| :: r[i] == ReplaceWindow(es[i], name, index)
  {
    seq(|es|, i requires 0 <= i < |es| => ReplaceWindow(es[i], name, index))
  }

  predicate NoWindow(e: Expr)
    decreases e
  {
    !IsWindowCall(e) && forall c | c in Children(e) :: NoWindow(c)
  }

  /** IS NULL, IS DISTINCT FROM, IN, BETWEEN, LIKE, element access, lambdas and aggregates. */
  predicate Skipped(e: Expr) {
    e.IsNull? || e.IsDistinctFrom? || e.InList? || e.Between? || e.Like? || e.ArrayAccess? || e.Lambda? || e.Aggregate?
  }

  predicate Leaf(e: Expr) {
    e.Literal? || e.Column? || e.Opaque?
  }

  /** No window call is inside a skipped form, except within another call. */
  predicate CallsReached(e: Expr)
    decreases e
  {
    IsWindowCall(e) || (if Skipped(e) then NoWindow(e) else forall c | c in Children(e) :: CallsReached(c))
  }

  /** No window call is left behind exactly when each sat where calls are looked for. */
  lemma {:induction false} ReplaceComplete(e: Expr, name: string, index: nat)
    ensures NoWindow(ReplaceWindow(e, name, index)) <==> CallsReached(e)
    decreases e
  {
    if !IsWindowCall(e) && Searched(e) {
      var cs := Children(e);
      var r := ReplaceAll(cs, name, index);
      forall i | 0 <= i < |cs|
        ensures NoWindow(r[i]) <==> CallsReached(cs[i])
      {
        assert cs[i] in cs;
        ReplaceComplete(cs[i], name, index);
      }
      assert ReplaceWindow(e, name, index) == WithChildren(e, r);
      RebuiltComplete(e, r);
    }
  }

  lemma RebuiltComplete(e: Expr, r: seq<Expr>)
    requires !IsWindowCall(e) && Searched(e) && |r| == |Children(e)|
    requires forall i | 0 <= i < |r| :: NoWindow(r[i]) <==> CallsReached(Children(e)[i])
    ensures NoWindow(WithChildren(e, r)) <==> CallsReached(e)
  {
    ChildrenOfWithChildren(e, r);
    SameSearched(e, r);
    assert !Skipped(e);
    hide *;
    EachReached(e);
    EachWithout(WithChildren(e, r));
  }

  lemma EachReached(e: Expr)
    requires !IsWindowCall(e) && !Skipped(e)
    ensures CallsReached(e) <==> forall i | 0 <= i < |Children(e)| :: CallsReached(Children(e)[i])
  {
    hide Children, Skipped, IsWindowCall;
    var cs := Children(e);
    assert CallsReached(e) <==> forall c | c in cs :: CallsReached(c);
  }

  lemma EachWithout(e: Expr)
    requires !IsWindowCall(e)
    ensures NoWindow(e) <==> forall i | 0 <= i < |Children(e)| :: NoWindow(Children(e)[i])
  {
    hide Children, IsWindowCall;
    var cs := Children(e);
    assert NoWindow(e) <==> forall c | c in cs :: NoWindow(c);
  }

  lemma SameSearched(e: Expr, r: seq<Expr>)
    requires !IsWindowCall(e) && |r| == |Children(e)|
    ensures !IsWindowCall(WithChildren(e, r))
  {
  }

  /** `w IS NULL`: the call is not found, and has no value where the item is evaluated. */
  lemma IsNullMissed(env: Env, w: Expr, row: Row)
    requires IsWindowCall(w)
    ensures var e := IsNull(w, false);
            !CallsReached(e) && ExtractWindow(e) == None && Eval(RowEnv(env), e, row).Fail?
  {
    var e := IsNull(w, false);
    assert Children(e)[0] == w && w in Children(e) && !NoWindow(w) && !NoWindow(e);
    hide Eval;
    EvalByChildren(RowEnv(env), e, row);
    var rs := EvalAll(RowEnv(env), Children(e), row);
    CallUnbound(env, w, row);
    assert rs[0] == Eval(RowEnv(env), w, row) && rs[0] in rs;
  }

  lemma CallUnbound(env: Env, w: Expr, row: Row)
    requires IsWindowCall(w)
    ensures Eval(RowEnv(env), w, row).Fail?
  {
    EvalByChildren(RowEnv(env), w, row);
  }

  // ---------- What the replaced expression means ----------

  function WindowEnv(env: Env, window: Expr -> Outcome): Env {
    env.(scope := WindowScope(window))
  }

  /** Reads only columns below `width`, and no window call. */
  predicate Plain(e: Expr, width: nat)
    decreases e
  {
    if e.Column? then e.index.Some? && e.index.value < width
    else !e.Opaque? && !IsWindowCall(e) && forall c | c in Children(e) :: Plain(c, width)
  }

  /** Window calls sit only where they are looked for. */
  predicate Replaceable(e: Expr, width: nat)
    decreases e
  {
    IsWindowCall(e) || Plain(e, width) || (!Skipped(e) && !Leaf(e) && forall c | c in Children(e) :: Replaceable(c, width))
  }

  lemma {:induction false} PlainSame(env: Env, window: Expr -> Outcome, e: Expr, row: Row, vs: Row)
    requires Plain(e, |row|)
    ensures Eval(RowEnv(env), e, row + vs) == Eval(WindowEnv(env, window), e, row)
    decreases e
  {
    if !e.Column? {
      forall i | 0 <= i < |Children(e)|
        ensures Eval(RowEnv(env), Children(e)[i], row + vs) == Eval(WindowEnv(env, window), Children(e)[i], row)
      {
        assert Children(e)[i] in Children(e);
        PlainSame(env, window, Children(e)[i], row, vs);
      }
      EvalByChildren(RowEnv(env), e, row + vs);
      EvalByChildren(WindowEnv(env, window), e, row);
      assert EvalAll(RowEnv(env), Children(e), row + vs) == EvalAll(WindowEnv(env, window), Children(e), row);
    }
  }

  lemma CallEval(env: Env, window: Expr -> Outcome, e: Expr, row: Row, vs: Row, name: string, j: nat)
    requires IsWindowCall(e) && j < |vs|
    ensures Eval(RowEnv(env), ReplaceWindow(e, name, |row| + j), row + vs) == Val(vs[j])
    ensures Eval(WindowEnv(env, window), e, row) == window(e)
  {
    assert (row + vs)[|row| + j] == vs[j];
  }

  /**
   Window rewriting is correct: on the row extended by the computed values, the replaced
   expression has the outcome of the original, if every call in it has the value of the column
   that stands for it.
   */
  lemma {:induction false} ReplaceSound(env: Env, window: Expr -> Outcome, e: Expr, row: Row, vs: Row, name: string, j: nat)
    requires j < |vs| && Replaceable(e, |row|)
    requires forall c | c in WindowCalls(e) :: window(c) == Val(vs[j])
    ensures Eval(RowEnv(env), ReplaceWindow(e, name, |row| + j), row + vs) == Eval(WindowEnv(env, window), e, row)
    decreases e
  {
    hide Eval;
    if IsWindowCall(e) {
      CallEval(env, window, e, row, vs, name, j);
    } else if Searched(e) {
      ReplaceFormSound(env, window, e, row, vs, name, j);
    } else {
      PlainSame(env, window, e, row, vs);
    }
  }

  lemma PlainParts(e: Expr, width: nat)
    requires Replaceable(e, width) && Searched(e)
    ensures forall c | c in Children(e) :: Replaceable(c, width)
  {
  }

  lemma {:induction false} ReplaceFormSound(env: Env, window: Expr -> Outcome, e: Expr, row: Row, vs: Row, name: string, j: nat)
    requires j < |vs| && Replaceable(e, |row|) && Searched(e)
    requires forall c | c in WindowCalls(e) :: window(c) == Val(vs[j])
    ensures Eval(RowEnv(env), ReplaceWindow(e, name, |row| + j), row + vs) == Eval(WindowEnv(env, window), e, row)
    decreases e, 0
  {
    hide Eval, Plain, WithChildren;
    var cs := Children(e);
    PlainParts(e, |row|);
    ChildrenBelow(e);
    var cs' := ReplaceAll(cs, name, |row| + j);
    forall i | 0 <= i < |cs|
      ensures Eval(RowEnv(env), cs'[i], row + vs) == Eval(WindowEnv(env, window), cs[i], row)
    {
      assert cs[i] in cs;
      CallsOfChild(cs, e, i);
      ReplaceSound(env, window, cs[i], row, vs, name, j);
    }
    EvalCongruence(WindowEnv(env, window), e, row, RowEnv(env), cs', row + vs);
  }

  /** Every call has the same outcome. */
  function Always(o: Outcome): Expr -> Outcome {
    (x: Expr) => o
  }

  /** What a replaced item means, whatever its calls: the item with every call given the value of the one column. */
  lemma ReplaceMeans(env: Env, e: Expr, row: Row, vs: Row, name: string, j: nat)
    requires j < |vs| && Replaceable(e, |row|)
    ensures Eval(RowEnv(env), ReplaceWindow(e, name, |row| + j), row + vs) == Eval(WindowEnv(env, Always(Val(vs[j]))), e, row)
  {
    hide Eval, ReplaceWindow, Replaceable, WindowCalls;
    ReplaceSound(env, Always(Val(vs[j])), e, row, vs, name, j);
  }

  /** A replaced item is right exactly when giving every call the first call's value leaves its outcome as it is. */
  lemma ItemRightIff(env: Env, window: Expr -> Outcome, e: Expr, row: Row, vs: Row, name: string, j: nat)
    requires j < |vs| && Replaceable(e, |row|) && ExtractWindow(e).Some? && window(ExtractWindow(e).value) == Val(vs[j])
    ensures Eval(RowEnv(env), ReplaceWindow(e, name, |row| + j), row + vs) == Eval(WindowEnv(env, window), e, row)
            <==> Eval(WindowEnv(env, Always(window(ExtractWindow(e).value))), e, row) == Eval(WindowEnv(env, window), e, row)
  {
    hide *;
    ReplaceMeans(env, e, row, vs, name, j);
  }

  /** Forms of a number whenever all calls and columns are numbers, and of NULL whenever a call is. */
  predicate Numeral(e: Expr)
    decreases e
  {
    || IsWindowCall(e)
    || e.Column?
    || e.Scalar?
    || (e.Cast? && Numeral(e.operand))
    || (e.Binary? && IsArithmetic(e.op))
    || (e.Unary? && e.uop.Minus?)
  }

  predicate IsArithmetic(op: BinaryOp) {
    !op.And? && !op.Or? && !op.Eq? && !op.NotEq? && !IsOrdering(op)
  }

  predicate IsOrdering(op: BinaryOp) {
    op.Lt? || op.LtEq? || op.Gt? || op.GtEq?
  }

  /** Items whose outcome every call has a part in: columns, constants, arithmetic, comparisons, functions and casts over calls. */
  predicate UsesEvery(e: Expr, width: nat)
    decreases e
  {
    || IsWindowCall(e)
    || (e.Column? && e.index.Some? && e.index.value < width)
    || (e.Literal? && !e.value.Null?)
    || (e.Binary? && !e.op.And? && !e.op.Or? && (IsOrdering(e.op) ==> Numeral(e.left) && Numeral(e.right))
        && UsesEvery(e.left, width) && UsesEvery(e.right, width))
    || (e.Unary? && (e.uop.Plus? || (e.uop.Minus? && Numeral(e.operand))) && UsesEvery(e.operand, width))
    || ((e.Scalar? || e.Cast? || e.Alias?) && forall c | c in Children(e) :: UsesEvery(c, width))
  }

  lemma {:induction false} UsesReplaceable(e: Expr, width: nat)
    requires UsesEvery(e, width)
    ensures Replaceable(e, width)
    decreases e
  {
    if Searched(e) && !IsWindowCall(e) {
      forall c | c in Children(e)
        ensures Replaceable(c, width)
      {
        UsesReplaceable(c, width);
      }
    }
  }

  /** Arithmetic, functions and casts that give 1, and NULL for a NULL argument. */
  function NullOrOne(): Prims {
    Prims((op: BinaryOp, a: Value, b: Value) => if a.Null? || b.Null? then Val(Null) else Val(Int64(1)),
          (fn: ScalarFunction, vs: seq<Value>) => if Null in vs then Val(Null) else Val(Int64(1)),
          (v: Value, t: DataType, safe: bool) => Val(Int64(1)),
          (s: string, t: string, ci: bool) => Fail,
          (a: Value, b: Value) => Fail)
  }

  function TestEnv(window: Expr -> Outcome): Env {
    Env(NullOrOne(), WindowScope(window), (t: Option<string>, n: string, row: Row) => Fail, (form: nat, row: Row) => Fail)
  }

  predicate NullOrNumber(o: Outcome) {
    o == Val(Null) || (o.Val? && o.v.Int64?)
  }

  /** In that environment, over numbers, an item that uses every call is NULL exactly when a call is. */
  lemma {:induction false} NullPropagates(window: Expr -> Outcome, e: Expr, row: Row)
    requires UsesEvery(e, |row|) && forall v | v in row :: v.Int64?
    requires forall c: Expr :: NullOrNumber(window(c))
    ensures var o := Eval(TestEnv(window), e, row);
            && o.Val?
            && (o.v.Null? <==> exists c | c in WindowCalls(e) :: window(c) == Val(Null))
            && (Numeral(e) ==> NullOrNumber(o))
    decreases e, 1
  {
    hide Eval;
    if IsWindowCall(e) {
      CallOutcome(window, e, row);
    } else if e.Column? {
      assert row[e.index.value] in row && WindowCalls(e) == [];
      ColumnOutcome(window, e, row);
    } else if e.Literal? {
      LiteralOutcome(window, e, row);
    } else {
      FormPropagates(window, e, row);
    }
  }

  lemma CallOutcome(window: Expr -> Outcome, e: Expr, row: Row)
    requires IsWindowCall(e)
    ensures Eval(TestEnv(window), e, row) == window(e)
  {
  }

  lemma ColumnOutcome(window: Expr -> Outcome, e: Expr, row: Row)
    requires e.Column? && e.index.Some? && e.index.value < |row|
    ensures Eval(TestEnv(window), e, row) == Val(row[e.index.value])
  {
  }

  lemma LiteralOutcome(window: Expr -> Outcome, e: Expr, row: Row)
    requires e.Literal?
    ensures Eval(TestEnv(window), e, row) == Val(e.value)
  {
  }

  lemma {:induction false} FormPropagates(window: Expr -> Outcome, e: Expr, row: Row)
    requires UsesEvery(e, |row|) && !IsWindowCall(e) && !e.Column? && !e.Literal? && forall v | v in row :: v.Int64?
    requires forall c: Expr :: NullOrNumber(window(c))
    ensures var o := Eval(TestEnv(window), e, row);
            && o.Val?
            && (o.v.Null? <==> exists c | c in WindowCalls(e) :: window(c) == Val(Null))
            && (Numeral(e) ==> NullOrNumber(o))
    decreases e, 0
  {
    hide Eval;
    var cs := Children(e);
    ChildrenBelow(e);
    var rs := EvalAll(TestEnv(window), cs, row);
    forall i | 0 <= i < |cs|
      ensures rs[i].Val? && (rs[i].v.Null? <==> exists c | c in WindowCalls(cs[i]) :: window(c) == Val(Null))
      ensures Numeral(cs[i]) ==> NullOrNumber(rs[i])
    {
      assert cs[i] in cs && UsesEvery(cs[i], |row|);
      NullPropagates(window, cs[i], row);
    }
    EvalByChildren(TestEnv(window), e, row);
    SomeCallNull(window, cs, e, rs);
    FormOutcome(e, rs, |row|);
  }

  lemma {:induction false} SomeCallNull(window: Expr -> Outcome, es: seq<Expr>, parent: Expr, rs: seq<Outcome>)
    requires Below(es, parent) && |rs| == |es|
    requires forall i | 0 <= i < |es| :: rs[i].Val? && (rs[i].v.Null? <==> exists c | c in WindowCalls(es[i]) :: window(c) == Val(Null))
    ensures (exists c | c in CallsOf(es, parent) :: window(c) == Val(Null)) <==> Val(Null) in rs
    decreases |es|
  {
    hide WindowCalls;
    if es != [] {
      SomeCallNull(window, es[1..], parent, rs[1..]);
      assert rs == [rs[0]] + rs[1..];
    }
  }

  /** One form over the outcomes of its sub-expressions. */
  lemma FormOutcome(e: Expr, rs: seq<Outcome>, width: nat)
    requires UsesEvery(e, width) && !IsWindowCall(e) && !e.Column? && !e.Literal? && |rs| == |Children(e)|
    requires forall i | 0 <= i < |rs| :: rs[i].Val? && (Numeral(Children(e)[i]) ==> NullOrNumber(rs[i]))
    ensures var o := Combine(NullOrOne(), e, rs);
            o.Val? && (o.v.Null? <==> Val(Null) in rs) && (Numeral(e) ==> NullOrNumber(o))
  {
    var vs := ValuesOf(rs);
    assert forall i | 0 <= i < |rs| :: rs[i] == Val(vs[i]);
    assert Null in vs <==> Val(Null) in rs;
  }

  /** On this row, with these values, the item over the one column has the outcome of the item written. */
  predicate ItemRight(env: Env, window: Expr -> Outcome, e: Expr, row: Row, v: Value, name: string) {
    Eval(RowEnv(env), ReplaceWindow(e, name, |row|), row + [v]) == Eval(WindowEnv(env, window), e, row)
  }

  /**
   One column for an item that uses every call is right on every row and for all values of the calls exactly
   when the calls are one and the same.
   */
  lemma OneColumnIff(e: Expr, width: nat, name: string)
    requires UsesEvery(e, width) && ExtractWindow(e).Some?
    ensures (forall env: Env, window: Expr -> Outcome, row: Row, v: Value |
               |row| == width && window(ExtractWindow(e).value) == Val(v) :: ItemRight(env, window, e, row, v, name))
            <==> forall c | c in WindowCalls(e) :: c == ExtractWindow(e).value
  {
    hide *;
    UsesReplaceable(e, width);
    if forall c | c in WindowCalls(e) :: c == ExtractWindow(e).value {
      forall env: Env, window: Expr -> Outcome, row: Row, v: Value | |row| == width && window(ExtractWindow(e).value) == Val(v)
        ensures ItemRight(env, window, e, row, v, name)
      {
        OneCallRight(env, window, e, row, v, name);
      }
    } else {
      var first := ExtractWindow(e).value;
      var c :| c in WindowCalls(e) && c != first;
      var row: Row := seq(width, i => Int64(1));
      FirstOnlyFacts(first, c);
      OtherCallShows(e, row, name, c);
      assert !ItemRight(TestEnv(FirstOnly(first)), FirstOnly(first), e, row, Int64(1), name);
    }
  }

  lemma OneCallRight(env: Env, window: Expr -> Outcome, e: Expr, row: Row, v: Value, name: string)
    requires Replaceable(e, |row|) && forall c | c in WindowCalls(e) :: window(c) == Val(v)
    ensures ItemRight(env, window, e, row, v, name)
  {
    hide Eval, ReplaceWindow, Replaceable, WindowCalls;
    ReplaceSound(env, window, e, row, [v], name, 0);
  }

  function FirstOnly(first: Expr): Expr -> Outcome {
    (x: Expr) => if x == first then Val(Int64(1)) else Val(Null)
  }

  lemma FirstOnlyFacts(first: Expr, c: Expr)
    ensures FirstOnly(first)(first) == Val(Int64(1)) && (c != first ==> FirstOnly(first)(c) == Val(Null))
    ensures forall x: Expr :: NullOrNumber(FirstOnly(first)(x))
    ensures forall x: Expr :: Always(Val(Int64(1)))(x) == Val(Int64(1)) && NullOrNumber(Always(Val(Int64(1)))(x))
  {
  }

  /** A second call that is NULL where the first is not. */
  lemma OtherCallShows(e: Expr, row: Row, name: string, c: Expr)
    requires UsesEvery(e, |row|) && ExtractWindow(e).Some? && c in WindowCalls(e) && c != ExtractWindow(e).value
    requires forall v | v in row :: v.Int64?
    ensures var window := FirstOnly(ExtractWindow(e).value); !ItemRight(TestEnv(window), window, e, row, Int64(1), name)
  {
    hide Eval, ReplaceWindow, UsesEvery, ExtractWindow, WindowCalls, TestEnv, FirstOnly, Always, NullOrNumber, WindowEnv, RowEnv;
    var window := FirstOnly(ExtractWindow(e).value);
    var always := Always(Val(Int64(1)));
    FirstOnlyFacts(ExtractWindow(e).value, c);
    SameTest(window, always);
    NullPropagates(window, e, row);
    NullPropagates(always, e, row);
    UsesReplaceable(e, |row|);
    ReplaceMeans(TestEnv(window), e, row, [Int64(1)], name, 0);
  }

  lemma SameTest(window: Expr -> Outcome, other: Expr -> Outcome)
    ensures WindowEnv(TestEnv(window), other) == TestEnv(other) && WindowEnv(TestEnv(window), window) == TestEnv(window)
  {
  }

  /** `w1 = w2` over two different calls: rewritten, it compares the first call's column with itself. */
  lemma TwoCallsConfused(env: Env, w1: Expr, w2: Expr, row: Row, name: string)
    requires IsWindowCall(w1) && IsWindowCall(w2) && w1 != w2
    ensures var e := Binary(w1, Eq, w2);
            var window := (x: Expr) => if x == w1 then Val(Int64(1)) else Val(Int64(2));
            && ExtractWindow(e) == Some(w1)
            && Eval(WindowEnv(env, window), e, row) == Val(Bool(false))
            && Eval(RowEnv(env), ReplaceWindow(e, name, |row|), row + [Int64(1)]) == Val(Bool(true))
  {
    var e := Binary(w1, Eq, w2);
    var window := (x: Expr) => if x == w1 then Val(Int64(1)) else Val(Int64(2));
    FirstOfBinary(e, name, |row|);
    hide Eval, ReplaceWindow, ExtractWindow, BinaryValues, IsWindowCall, RowEnv, WindowEnv;
    CallEval(env, window, w1, row, [Int64(1)], name, 0);
    CallEval(env, window, w2, row, [Int64(1)], name, 0);
    BinaryValue(WindowEnv(env, window), e, row, Int64(1), Int64(2));
    BinaryValue(RowEnv(env), ReplaceWindow(e, name, |row|), row + [Int64(1)], Int64(1), Int64(1));
    OnesAndTwos(env.prims);
    SamePrims(env, window);
  }

  lemma FirstOfBinary(e: Expr, name: string, index: nat)
    requires e.Binary? && IsWindowCall(e.left)
    ensures ExtractWindow(e) == Some(e.left)
    ensures ReplaceWindow(e, name, index) == Binary(ReplaceWindow(e.left, name, index), e.op, ReplaceWindow(e.right, name, index))
  {
    ChildrenBelow(e);
    assert ExtractFirst([e.left, e.right], e) == Some(e.left);
  }

  lemma OnesAndTwos(prims: Prims)
    ensures BinaryValues(prims, Eq, Int64(1), Int64(2)) == Val(Bool(false)) && BinaryValues(prims, Eq, Int64(1), Int64(1)) == Val(Bool(true))
  {
  }

  lemma SamePrims(env: Env, window: Expr -> Outcome)
    ensures WindowEnv(env, window).prims == RowEnv(env).prims == env.prims
  {
  }

  lemma BinaryValue(env: Env, e: Expr, row: Row, a: Value, b: Value)
    requires e.Binary? && Eval(env, e.left, row) == Val(a) && Eval(env, e.right, row) == Val(b)
    ensures Eval(env, e, row) == BinaryValues(env.prims, e.op, a, b)
  {
    hide Eval;
    EvalByChildren(env, e, row);
    var rs := EvalAll(env, Children(e), row);
    assert rs == [Val(a), Val(b)];
    assert AllVal(rs) && ValuesOf(rs) == [a, b];
  }

  // ---------- The items of a SELECT ----------

  /** The calls computed for the items, one for each item that has any. */
  function WindowFuncs(items: seq<Expr>): (r: seq<Expr>)
    decreases |items|
  {
    if items == [] then []
    else
      var n := |items| - 1;
      var front := WindowFuncs(items[..n]);
      if HasWindow(items[n]) && ExtractWindow(items[n]).Some? then front + [ExtractWindow(items[n]).value] else front
  }

  /** The projection after the window operator, before names are looked up again. */
  function Projected(items: seq<Expr>, inputWidth: nat, nameOf: nat -> string): (r: seq<Expr>)
    ensures |r| == |items|
    decreases |items|
  {
    if items == [] then []
    else
      var n := |items| - 1;
      var j := |WindowFuncs(items[..n])|;
      Projected(items[..n], inputWidth, nameOf)
      + [if HasWindow(items[n]) then ReplaceWindow(items[n], nameOf(j), inputWidth + j) else items[n]]
  }

  /** The source's two loops: collect the calls and which items have one, then replace them with an offset that follows along. */
  method PlanItems(items: seq<Expr>, inputWidth: nat, nameOf: nat -> string) returns (funcs: seq<Expr>, projected: seq<Expr>)
    ensures funcs == WindowFuncs(items) && projected == Projected(items, inputWidth, nameOf)
  {
    hide ExtractWindow, ReplaceWindow, HasWindow;
    funcs, projected := [], [];
    var indices: set<nat> := {};
    for i := 0 to |items|
      invariant funcs == WindowFuncs(items[..i])
      invariant forall k: nat :: k in indices <==> k < i && HasWindow(items[k])
    {
      assert items[..i + 1][..i] == items[..i];
      DetectorIsExtractor(items[i]);
      if HasWindow(items[i]) {
        var wf := ExtractWindow(items[i]);
        if wf.Some? {
          funcs, indices := funcs + [wf.value], indices + {i};
        }
      }
    }
    var offset := 0;
    for i := 0 to |items|
      invariant offset == |WindowFuncs(items[..i])|
      invariant projected == Projected(items[..i], inputWidth, nameOf)
    {
      assert items[..i + 1][..i] == items[..i];
      DetectorIsExtractor(items[i]);
      if i in indices {
        projected := projected + [ReplaceWindow(items[i], nameOf(offset), inputWidth + offset)];
        offset := offset + 1;
      } else {
        projected := projected + [items[i]];
      }
    }
    assert items[..|items|] == items;
  }

  /** Each item's calls are all the same one, and sit where they are looked for. */
  predicate OneCallEach(items: seq<Expr>, width: nat) {
    forall e | e in items ::
      && Replaceable(e, width)
      && forall c | c in WindowCalls(e) :: ExtractWindow(e) == Some(c)
  }

  lemma {:induction false} FuncsPrefix(items: seq<Expr>, k: nat)
    requires k <= |items|
    ensures WindowFuncs(items[..k]) <= WindowFuncs(items)
    decreases |items|
  {
    if k < |items| {
      var n := |items| - 1;
      FuncsPrefix(items[..n], k);
      assert items[..n][..k] == items[..k];
    } else {
      assert items[..k] == items;
    }
  }

  /** Every item of the projection, on the input row extended by the values of the collected calls, has the outcome of the item the query wrote. */
  lemma {:induction false} ProjectionSound(env: Env, window: Expr -> Outcome, items: seq<Expr>, row: Row, vs: Row, nameOf: nat -> string)
    requires OneCallEach(items, |row|) && |vs| == |WindowFuncs(items)|
    requires forall j | 0 <= j < |vs| :: window(WindowFuncs(items)[j]) == Val(vs[j])
    ensures forall i | 0 <= i < |items| ::
              Eval(RowEnv(env), Projected(items, |row|, nameOf)[i], row + vs) == Eval(WindowEnv(env, window), items[i], row)
  {
    hide Eval, ReplaceWindow, Replaceable, HasWindow, ExtractWindow;
    forall i | 0 <= i < |items|
      ensures Eval(RowEnv(env), Projected(items, |row|, nameOf)[i], row + vs) == Eval(WindowEnv(env, window), items[i], row)
    {
      ProjectedAt(items, |row|, nameOf, i);
      FuncsPrefix(items, i + 1);
      ItemSound(env, window, items, i, row, vs, nameOf);
    }
  }

  lemma {:induction false} ProjectedAt(items: seq<Expr>, inputWidth: nat, nameOf: nat -> string, i: nat)
    requires i < |items|
    ensures var j := |WindowFuncs(items[..i])|;
            Projected(items, inputWidth, nameOf)[i]
            == if HasWindow(items[i]) then ReplaceWindow(items[i], nameOf(j), inputWidth + j) else items[i]
    decreases |items|
  {
    hide ReplaceWindow, HasWindow, WindowFuncs;
    var n := |items| - 1;
    if i < n {
      ProjectedAt(items[..n], inputWidth, nameOf, i);
      assert items[..n][..i] == items[..i] && items[..n][i] == items[i];
    }
  }

  lemma ItemSound(env: Env, window: Expr -> Outcome, items: seq<Expr>, i: nat, row: Row, vs: Row, nameOf: nat -> string)
    requires i < |items| && OneCallEach(items, |row|) && |vs| == |WindowFuncs(items)|
    requires WindowFuncs(items[..i + 1]) <= WindowFuncs(items)
    requires forall j | 0 <= j < |vs| :: window(WindowFuncs(items)[j]) == Val(vs[j])
    ensures var j := |WindowFuncs(items[..i])|;
            var e := if HasWindow(items[i]) then ReplaceWindow(items[i], nameOf(j), |row| + j) else items[i];
            Eval(RowEnv(env), e, row + vs) == Eval(WindowEnv(env, window), items[i], row)
  {
    hide Eval, ReplaceWindow, HasWindow, ExtractWindow, WindowCalls;
    var item := items[i];
    var j := |WindowFuncs(items[..i])|;
    assert item in items && items[..i + 1][..i] == items[..i];
    DetectorIsExtractor(item);
    if HasWindow(item) {
      assert WindowFuncs(items)[j] == ExtractWindow(item).value;
      ReplaceSound(env, window, item, row, vs, nameOf(j), j);
    } else {
      assert WindowCalls(item) == [];
      NoCallPlain(item, |row|);
      PlainSame(env, window, item, row, vs);
    }
  }

  lemma {:induction false} NoCallPlain(e: Expr, width: nat)
    requires Replaceable(e, width) && WindowCalls(e) == []
    ensures Plain(e, width)
    decreases e
  {
    if !Plain(e, width) {
      var cs := Children(e);
      ChildrenBelow(e);
      forall i | 0 <= i < |cs|
        ensures Plain(cs[i], width)
      {
        assert cs[i] in cs;
        CallsOfChild(cs, e, i);
        NoCallPlain(cs[i], width);
      }
    }
  }

  // ---------- Looking columns up again by name ----------

  /** Whether a field answers to a column's name. */
  predicate Named(f: PlanField, table: Option<string>, name: string) {
    f.name == name && (table.None? || f.table == table)
  }

  function FirstNamed(schema: PlanSchema, table: Option<string>, name: string): (r: Option<nat>)
    ensures r.Some? ==> r.value < |schema| && Named(schema[r.value], table, name) && forall k | 0 <= k < r.value :: !Named(schema[k], table, name)
    ensures r.None? ==> forall f | f in schema :: !Named(f, table, name)
  {
    if schema == [] then None
    else if Named(schema[0], table, name) then Some(0)
    else
      var r := FirstNamed(schema[1..], table, name);
      if r.None? then None else Some(r.value + 1)
  }

  predicate Remapped(e: Expr) {
    e.Binary? || e.Unary? || e.Cast? || e.Scalar? || e.Alias?
  }

  function Remap(e: Expr, schema: PlanSchema): Expr
    decreases e
  {
    if e.Column? then Column(e.table, e.name, FirstNamed(schema, e.table, e.name))
    else if Remapped(e) then
      var cs := Children(e);
      WithChildren(e, seq(|cs|, i requires 0 <= i < |cs| => assert cs[i] in cs; Remap(cs[i], schema)))
    else e
  }

  /** The field a column stands for: no earlier one has its name and, for a qualified column, its table. */
  predicate IsFirst(schema: PlanSchema, table: Option<string>, name: string, i: nat) {
    && i < |schema|
    && schema[i].name == name
    && match table
       case None => forall k | 0 <= k < i :: schema[k].name != name
       case Some(_) => schema[i].table == table && forall k | 0 <= k < i :: schema[k].name == name ==> schema[k].table != table
  }

  /** A column found by name gets the place of the field it stands for, and none when there is no such field. */
  lemma NamedIsFirst(schema: PlanSchema, table: Option<string>, name: string, i: nat)
    ensures FirstNamed(schema, table, name) == Some(i) <==> IsFirst(schema, table, name, i)
  {
    if FirstNamed(schema, table, name).None? && i < |schema| {
      assert schema[i] in schema;
    }
  }

  /** A qualified column finds its own table's field wherever other tables have fields of that name. */
  lemma RemapQualified(schema: PlanSchema, table: string, name: string, index: Option<nat>, i: nat)
    requires i < |schema| && schema[i].name == name && schema[i].table == Some(table)
    requires forall k | 0 <= k < |schema| && k != i :: schema[k].name == name ==> schema[k].table != Some(table)
    ensures Remap(Column(Some(table), name, index), schema) == Column(Some(table), name, Some(i))
  {
    hide FirstNamed;
    NamedIsFirst(schema, Some(table), name, i);
  }

  /** An unqualified column finds the least place with its name. */
  lemma RemapUnqualified(schema: PlanSchema, name: string, index: Option<nat>, i: nat)
    requires i < |schema| && schema[i].name == name && forall k | 0 <= k < i :: schema[k].name != name
    ensures Remap(Column(None, name, index), schema) == Column(None, name, Some(i))
  {
    hide FirstNamed;
    NamedIsFirst(schema, None, name, i);
  }

  /** A column with no field of its name and table is left without a place. */
  predicate NoField(schema: PlanSchema, table: Option<string>, name: string) {
    forall f | f in schema && f.name == name :: table.Some? && f.table != table
  }

  lemma UnnamedIff(schema: PlanSchema, table: Option<string>, name: string)
    ensures FirstNamed(schema, table, name) == None <==> NoField(schema, table, name)
  {
    hide FirstNamed;
  }

  /** Each column under arithmetic, comparisons, functions, casts and aliases already has the place of the field it stands for. */
  predicate Settled(e: Expr, schema: PlanSchema)
    decreases e
  {
    match e
    case Column(table, name, None) => NoField(schema, table, name)
    case Column(table, name, Some(i)) => IsFirst(schema, table, name, i)
    case Binary(l, _, r) => Settled(l, schema) && Settled(r, schema)
    case Unary(_, x) => Settled(x, schema)
    case Cast(x, _, _) => Settled(x, schema)
    case Scalar(_, args) => forall x | x in args :: Settled(x, schema)
    case Alias(x, _) => Settled(x, schema)
    case _ => true
  }

  lemma SettledForm(e: Expr, schema: PlanSchema)
    requires Remapped(e)
    ensures Settled(e, schema) <==> forall c | c in Children(e) :: Settled(c, schema)
  {
    hide IsFirst, NoField;
    if e.Binary? {
      assert Children(e) == [e.left, e.right] && e.left in [e.left, e.right] && e.right in [e.left, e.right];
    } else if !e.Scalar? {
      assert Children(e) == [e.operand] && e.operand in [e.operand];
    }
  }

  lemma SettledColumn(e: Expr, schema: PlanSchema)
    requires e.Column?
    ensures Settled(e, schema) <==> e.index == FirstNamed(schema, e.table, e.name)
  {
    hide FirstNamed, IsFirst, NoField;
    UnnamedIff(schema, e.table, e.name);
    if e.index.Some? {
      NamedIsFirst(schema, e.table, e.name, e.index.value);
    }
  }

  /** The remapping leaves an item as it is, and so correct, exactly when each of its columns has the place of the field it stands for. */
  lemma {:induction false} RemapIdentity(e: Expr, schema: PlanSchema)
    ensures Remap(e, schema) == e <==> Settled(e, schema)
    decreases e
  {
    hide Settled, FirstNamed;
    if e.Column? {
      SettledColumn(e, schema);
    } else if Remapped(e) {
      var cs := Children(e);
      var r := seq(|cs|, i requires 0 <= i < |cs| => assert cs[i] in cs; Remap(cs[i], schema));
      forall i | 0 <= i < |cs|
        ensures r[i] == cs[i] <==> Settled(cs[i], schema)
      {
        assert cs[i] in cs;
        RemapIdentity(cs[i], schema);
      }
      ChildrenOfWithChildren(e, r);
      SettledForm(e, schema);
      assert (forall c | c in cs :: Settled(c, schema)) <==> (forall i | 0 <= i < |cs| :: Settled(cs[i], schema));
      assert r == cs <==> forall i | 0 <= i < |cs| :: r[i] == cs[i];
    } else {
      NotRemapped(e, schema);
    }
  }

  lemma NotRemapped(e: Expr, schema: PlanSchema)
    requires !e.Column? && !Remapped(e)
    ensures Settled(e, schema)
  {
  }

  /** A field keeps its place when others follow. */
  lemma FirstStays(input: PlanSchema, more: PlanSchema, table: Option<string>, name: string, i: nat)
    requires IsFirst(input, table, name, i)
    ensures IsFirst(input + more, table, name, i)
  {
    assert (input + more)[..|input|] == input;
  }

  lemma PlainColumn(e: Expr, width: nat)
    requires e.Column? && Replaceable(e, width)
    ensures e.index.Some? && e.index.value < width
  {
  }

  lemma RebuiltSettled(e: Expr, r: seq<Expr>, schema: PlanSchema)
    requires Searched(e) && |r| == |Children(e)|
    requires Remapped(e) ==> forall i | 0 <= i < |r| :: Settled(r[i], schema)
    ensures Settled(WithChildren(e, r), schema)
  {
    hide IsFirst, NoField;
  }

  /** A replaced item is settled in the extended schema when the item written is in the input's and the new column is the first of its name. */
  lemma {:induction false} ReplacedSettled(e: Expr, input: PlanSchema, more: PlanSchema, name: string, j: nat)
    requires Replaceable(e, |input|) && Settled(e, input)
    requires IsFirst(input + more, None, name, |input| + j)
    ensures Settled(ReplaceWindow(e, name, |input| + j), input + more)
    decreases e
  {
    hide IsFirst, NoField, Plain, Settled, WithChildren;
    if IsWindowCall(e) {
      SettledAt(None, name, |input| + j, input + more);
    } else if e.Column? {
      PlainColumn(e, |input|);
      SettledAt(e.table, e.name, e.index.value, input);
      FirstStays(input, more, e.table, e.name, e.index.value);
      SettledAt(e.table, e.name, e.index.value, input + more);
    } else if Searched(e) {
      var cs := Children(e);
      PlainParts(e, |input|);
      forall i | 0 <= i < |cs| && Remapped(e)
        ensures Settled(ReplaceWindow(cs[i], name, |input| + j), input + more)
      {
        assert cs[i] in cs;
        SettledForm(e, input);
        ReplacedSettled(cs[i], input, more, name, j);
      }
      RebuiltSettled(e, ReplaceAll(cs, name, |input| + j), input + more);
    } else {
      NotRemapped(e, input + more);
    }
  }

  lemma SettledAt(table: Option<string>, name: string, i: nat, schema: PlanSchema)
    ensures Settled(Column(table, name, Some(i)), schema) <==> IsFirst(schema, table, name, i)
  {
  }

  /** The fields the window operator adds have names of their own. */
  predicate FreshFields(input: PlanSchema, more: PlanSchema, nameOf: nat -> string) {
    && (forall j | 0 <= j < |more| :: more[j].name == nameOf(j) && forall f | f in input :: f.name != nameOf(j))
    && forall i, j | 0 <= i < j < |more| :: nameOf(i) != nameOf(j)
  }

  lemma FreshIsFirst(input: PlanSchema, more: PlanSchema, nameOf: nat -> string, j: nat)
    requires FreshFields(input, more, nameOf) && j < |more|
    ensures IsFirst(input + more, None, nameOf(j), |input| + j)
  {
    forall k | 0 <= k < |input| + j
      ensures (input + more)[k].name != nameOf(j)
    {
      if k < |input| {
        assert input[k] in input;
      }
    }
  }

  /**
   The finished projection, its items replaced and then looked up again by name in the extended schema: an
   item whose columns have the places of the fields they stand for in the input shows what was written.
   */
  lemma SelectSound(env: Env, window: Expr -> Outcome, items: seq<Expr>, row: Row, vs: Row, nameOf: nat -> string,
                    input: PlanSchema, more: PlanSchema, i: nat)
    requires i < |items| && OneCallEach(items, |row|) && |row| == |input| && |vs| == |more| == |WindowFuncs(items)|
    requires forall j | 0 <= j < |vs| :: window(WindowFuncs(items)[j]) == Val(vs[j])
    requires FreshFields(input, more, nameOf) && Settled(items[i], input)
    ensures Eval(RowEnv(env), Remap(Projected(items, |row|, nameOf)[i], input + more), row + vs) == Eval(WindowEnv(env, window), items[i], row)
  {
    hide *;
    ProjectionSound(env, window, items, row, vs, nameOf);
    ProjectedSettled(items, nameOf, input, more, i);
    RemapIdentity(Projected(items, |row|, nameOf)[i], input + more);
  }

  lemma ProjectedSettled(items: seq<Expr>, nameOf: nat -> string, input: PlanSchema, more: PlanSchema, i: nat)
    requires i < |items| && OneCallEach(items, |input|) && |more| == |WindowFuncs(items)|
    requires FreshFields(input, more, nameOf) && Settled(items[i], input)
    ensures Settled(Projected(items, |input|, nameOf)[i], input + more)
  {
    hide *;
    var j := |WindowFuncs(items[..i])|;
    ProjectedAt(items, |input|, nameOf, i);
    ReplaceableItem(items, |input|, i);
    if HasWindow(items[i]) {
      FuncsBefore(items, i);
      FreshIsFirst(input, more, nameOf, j);
      ReplacedSettled(items[i], input, more, nameOf(j), j);
    } else {
      DetectorIsExtractor(items[i]);
      NoCallPlain(items[i], |input|);
      PlainStays(items[i], input, more);
    }
  }

  lemma ReplaceableItem(items: seq<Expr>, width: nat, i: nat)
    requires i < |items| && OneCallEach(items, width)
    ensures Replaceable(items[i], width)
  {
    hide Replaceable, WindowCalls, ExtractWindow;
    assert items[i] in items;
  }

  lemma FuncsBefore(items: seq<Expr>, i: nat)
    requires i < |items| && HasWindow(items[i])
    ensures |WindowFuncs(items[..i])| < |WindowFuncs(items)|
  {
    hide HasWindow, ExtractWindow;
    DetectorIsExtractor(items[i]);
    FuncsPrefix(items, i + 1);
    assert items[..i + 1][..i] == items[..i];
  }

  lemma {:induction false} PlainStays(e: Expr, input: PlanSchema, more: PlanSchema)
    requires Plain(e, |input|) && Settled(e, input)
    ensures Settled(e, input + more)
    decreases e
  {
    hide IsFirst, NoField, Settled;
    if e.Column? {
      SettledAt(e.table, e.name, e.index.value, input);
      FirstStays(input, more, e.table, e.name, e.index.value);
      SettledAt(e.table, e.name, e.index.value, input + more);
    } else if Remapped(e) {
      SettledForm(e, input);
      SettledForm(e, input + more);
      forall c | c in Children(e)
        ensures Settled(c, input + more)
      {
        PlainStays(c, input, more);
      }
    } else {
      NotRemapped(e, input + more);
    }
  }

  /** Two input columns of one name: an unqualified reference to the second is turned into one to the first. */
  lemma RemapPicksFirst(name: string, t: DataType)
    ensures var f := PlanField(name, t, true, None);
            Remap(Column(None, name, Some(1)), [f, f]) == Column(None, name, Some(0))
  {
  }
}
