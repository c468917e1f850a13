/**
 Inlining of SQL functions in `crates/parser/src/expr_planner.rs`: the body of a function with its
 parameters replaced by the call's arguments, and calls of lambda parameters reduced.
 */
module UdfInline {
  import opened Wrappers
  import opened Names
  import opened Ir
  import opened Evaluator

  datatype FunctionArg = FunctionArg(name: string, dataType: DataType, default: Option<Expr>)

  type Substitution = map<string, Expr>

  /** Names paired with values as far as both go; of a repeated name the last pair counts. */
  function Zip<T>(names: seq<string>, xs: seq<T>): (m: map<string, T>)
    decreases |names|
  {
    if names == [] then map[]
    else
      var n := |names| - 1;
      var front := Zip(names[..n], xs);
      if n < |xs| then front[Upper(names[n]) := xs[n]] else front
  }

  predicate IsParameter(m: Substitution, e: Expr) {
    e.Column? && e.table.None? && Upper(e.name) in m
  }

  /** A call of a parameter that is bound to a lambda. */
  predicate AppliesLambda(m: Substitution, e: Expr) {
    e.Scalar? && e.fn.Custom? && Upper(e.fn.name) in m && m[Upper(e.fn.name)].Lambda?
  }

  // ---------- Substitution ----------

  /** `None` when `fuel` nested lambda applications are not enough. */
  function Substitute(fuel: nat, m: Substitution, e: Expr): Option<Expr>
    decreases fuel, e, 1, 0
  {
    if e.Column? then Some(if IsParameter(m, e) then m[Upper(e.name)] else e)
    else if e.Literal? || e.Opaque? then Some(e)
    else
      ChildrenBelow(e);
      var cs := SubstituteAll(fuel, m, Children(e), e);
      if cs.None? then None else Rebuilt(fuel, m, e, cs.value)
  }

  /** An expression over substituted children: the body of the lambda it applies, or the same form. */
  function Rebuilt(fuel: nat, m: Substitution, e: Expr, cs: seq<Expr>): Option<Expr>
    requires |cs| == |Children(e)|
    decreases fuel, e, 0, 0
  {
    if AppliesLambda(m, e) then
      if fuel == 0 then None
      else
        var f := m[Upper(e.fn.name)];
        Substitute(fuel - 1, Zip(f.params, cs), f.body)
    else Some(WithChildren(e, cs))
  }

  function SubstituteAll(fuel: nat, m: Substitution, es: seq<Expr>, ghost parent: Expr): (r: Option<seq<Expr>>)
    requires Below(es, parent)
    ensures r.Some? ==> |r.value| == |es|
    decreases fuel, parent, 0, |es|
  {
    if es == [] then Some([])
    else
      var n := |es| - 1;
      var front := SubstituteAll(fuel, m, es[..n], parent);
      var last := Substitute(fuel, m, es[n]);
      if front.None? || last.None? then None else Some(front.value + [last.value])
  }

  predicate IsLeaf(e: Expr) {
    e.Column? || e.Literal? || e.Opaque?
  }

  lemma LeafUnfolds(fuel: nat, m: Substitution, e: Expr)
    requires IsLeaf(e)
    ensures Substitute(fuel, m, e) == Some(if IsParameter(m, e) then m[Upper(e.name)] else e)
  {
  }

  lemma Unfolds(fuel: nat, m: Substitution, e: Expr)
    requires !IsLeaf(e)
    ensures Below(Children(e), e)
    ensures var cs := SubstituteAll(fuel, m, Children(e), e);
            Substitute(fuel, m, e) == if cs.None? then None else Rebuilt(fuel, m, e, cs.value)
  {
    hide SubstituteAll, Children, WithChildren, Upper, Zip;
    ChildrenBelow(e);
  }

  /** More fuel never changes a result. */
  lemma {:induction false} FuelIrrelevant(fuel: nat, more: nat, m: Substitution, e: Expr)
    requires fuel <= more && Substitute(fuel, m, e).Some?
    ensures Substitute(more, m, e) == Substitute(fuel, m, e)
    decreases fuel, e, 1, 0
  {
    hide Substitute, SubstituteAll, Below, Children, WithChildren, Upper, Zip, AppliesLambda, IsLeaf;
    if IsLeaf(e) {
      LeafUnfolds(fuel, m, e);
      LeafUnfolds(more, m, e);
    } else {
      Unfolds(fuel, m, e);
      Unfolds(more, m, e);
      FuelIrrelevantAll(fuel, more, m, Children(e), e);
      if AppliesLambda(m, e) {
        LambdaApplied(m, e);
        var f := m[Upper(e.fn.name)];
        var cs := SubstituteAll(fuel, m, Children(e), e);
        FuelIrrelevant(fuel - 1, more - 1, Zip(f.params, cs.value), f.body);
      }
    }
  }

  lemma LambdaApplied(m: Substitution, e: Expr)
    requires AppliesLambda(m, e)
    ensures e.Scalar? && e.fn.Custom? && Upper(e.fn.name) in m && m[Upper(e.fn.name)].Lambda?
  {
  }

  lemma {:induction false} FuelIrrelevantAll(fuel: nat, more: nat, m: Substitution, es: seq<Expr>, parent: Expr)
    requires Below(es, parent)
    requires fuel <= more && SubstituteAll(fuel, m, es, parent).Some?
    ensures SubstituteAll(more, m, es, parent) == SubstituteAll(fuel, m, es, parent)
    decreases fuel, parent, 0, |es|
  {
    hide Substitute;
    if es != [] {
      var n := |es| - 1;
      FuelIrrelevantAll(fuel, more, m, es[..n], parent);
      FuelIrrelevant(fuel, more, m, es[n]);
    }
  }

  /** `f(f)` with `f` bound to `x -> x(x)`: no amount of fuel is enough, so the inlining never ends. */
  lemma {:induction false} SelfApplicationDiverges(fuel: nat, m: Substitution, name: string, x: string)
    requires Upper(name) in m && m[Upper(name)] == SelfApply(x)
    ensures Substitute(fuel, m, CallOnItself(name)) == None
    decreases fuel
  {
    var e := CallOnItself(name);
    var arg := Column(None, name, None);
    assert Children(e) == [arg];
    ChildrenBelow(e);
    OneSubstituted(fuel, m, arg, e);
    if fuel > 0 {
      var m' := Zip([x], [SelfApply(x)]);
      SelfApplicationDiverges(fuel - 1, m', x, x);
    }
  }

  lemma OneSubstituted(fuel: nat, m: Substitution, e: Expr, parent: Expr)
    requires Below([e], parent) && Substitute(fuel, m, e).Some?
    ensures SubstituteAll(fuel, m, [e], parent) == Some([Substitute(fuel, m, e).value])
  {
    hide Substitute;
    var v := Substitute(fuel, m, e).value;
    assert [e][..0] == [];
    assert SubstituteAll(fuel, m, [], parent) == Some([]);
    assert SubstituteAll(fuel, m, [e], parent) == Some([] + [v]);
    assert [] + [v] == [v];
  }

  function CallOnItself(name: string): Expr {
    Scalar(Custom(name), [Column(None, name, None)])
  }

  function SelfApply(x: string): Expr {
    Lambda([x], CallOnItself(x))
  }

  // ---------- First-order calls ----------

  /** Substituting could turn this argument into a lambda. */
  predicate YieldsLambda(m: Substitution, e: Expr) {
    || e.Lambda?
    || (IsParameter(m, e) && m[Upper(e.name)].Lambda?)
    || (AppliesLambda(m, e) && m[Upper(e.fn.name)].body.Lambda?)
  }

  /** No argument passed to a lambda parameter becomes a lambda itself. */
  predicate FirstOrder(m: Substitution, e: Expr)
    decreases e
  {
    && (AppliesLambda(m, e) ==> forall a | a in e.args :: !YieldsLambda(m, a))
    && forall c | c in Children(e) :: FirstOrder(m, c)
  }

  predicate NoLambdas(m: Substitution) {
    forall k | k in m :: !m[k].Lambda?
  }

  lemma NoLambdasNoCall(m: Substitution, e: Expr)
    ensures NoLambdas(m) ==> !AppliesLambda(m, e)
  {
  }

  lemma {:induction false} NoLambdasFirstOrder(m: Substitution, e: Expr)
    requires NoLambdas(m)
    ensures FirstOrder(m, e)
    decreases e
  {
    forall c | c in Children(e)
      ensures FirstOrder(m, c)
    {
      NoLambdasFirstOrder(m, c);
    }
  }

  lemma {:induction false} ZipValues<T>(names: seq<string>, xs: seq<T>)
    ensures forall k | k in Zip(names, xs) :: Zip(names, xs)[k] in xs
    decreases |names|
  {
    if names != [] {
      ZipValues(names[..|names| - 1], xs);
    }
  }

  lemma ZippedNoLambdas(names: seq<string>, xs: seq<Expr>)
    requires forall i | 0 <= i < |xs| :: !xs[i].Lambda?
    ensures NoLambdas(Zip(names, xs))
  {
    ZipValues(names, xs);
  }

  /** An argument that cannot become a lambda does not. */
  lemma {:induction false} StaysNoLambda(fuel: nat, m: Substitution, e: Expr)
    requires !YieldsLambda(m, e) && FirstOrder(m, e) && Substitute(fuel, m, e).Some?
    ensures !Substitute(fuel, m, e).value.Lambda?
    decreases fuel, e, 1
  {
    if !e.Column? && !e.Literal? && !e.Opaque? {
      ChildrenBelow(e);
      var cs := SubstituteAll(fuel, m, Children(e), e).value;
      hide WithChildren;
      if AppliesLambda(m, e) {
        var f := m[Upper(e.fn.name)];
        assert Children(e) == e.args;
        AllStayNoLambda(fuel, m, e.args, e, cs);
        var m' := Zip(f.params, cs);
        ZippedNoLambdas(f.params, cs);
        NoLambdasFirstOrder(m', f.body);
        StaysNoLambda(fuel - 1, m', f.body);
      }
    }
  }

  lemma {:induction false} AllStayNoLambda(fuel: nat, m: Substitution, es: seq<Expr>, parent: Expr, cs: seq<Expr>)
    requires Below(es, parent) && SubstituteAll(fuel, m, es, parent) == Some(cs)
    requires forall i | 0 <= i < |es| :: !YieldsLambda(m, es[i]) && FirstOrder(m, es[i])
    ensures forall i | 0 <= i < |cs| :: !cs[i].Lambda?
    decreases fuel, parent, 0, |es|
  {
    hide Substitute, YieldsLambda, FirstOrder;
    if es != [] {
      var n := |es| - 1;
      AllStayNoLambda(fuel, m, es[..n], parent, SubstituteAll(fuel, m, es[..n], parent).value);
      StaysNoLambda(fuel, m, es[n]);
    }
  }

  /** Inlining ends: first-order calls need one level of application, calls without lambdas none. */
  lemma {:induction false} FirstOrderTerminates(fuel: nat, m: Substitution, e: Expr)
    requires FirstOrder(m, e) && (fuel > 0 || NoLambdas(m))
    ensures Substitute(fuel, m, e).Some?
    decreases fuel, e, 1, 0
  {
    if !e.Column? && !e.Literal? && !e.Opaque? {
      ChildrenBelow(e);
      var es := Children(e);
      assert forall i | 0 <= i < |es| :: es[i] in es;
      AllTerminate(fuel, m, es, e);
      if AppliesLambda(m, e) {
        var cs := SubstituteAll(fuel, m, es, e).value;
        var f := m[Upper(e.fn.name)];
        AllStayNoLambda(fuel, m, e.args, e, cs);
        var m' := Zip(f.params, cs);
        ZippedNoLambdas(f.params, cs);
        NoLambdasFirstOrder(m', f.body);
        FirstOrderTerminates(fuel - 1, m', f.body);
      }
    }
  }

  lemma {:induction false} AllTerminate(fuel: nat, m: Substitution, es: seq<Expr>, parent: Expr)
    requires Below(es, parent) && (fuel > 0 || NoLambdas(m))
    requires forall i | 0 <= i < |es| :: FirstOrder(m, es[i])
    ensures SubstituteAll(fuel, m, es, parent).Some?
    decreases fuel, parent, 0, |es|
  {
    hide Substitute, FirstOrder;
    if es != [] {
      var n := |es| - 1;
      AllTerminate(fuel, m, es[..n], parent);
      FirstOrderTerminates(fuel, m, es[n]);
    }
  }

  // ---------- What a function body means ----------

  /** What a parameter stands for while the body is evaluated. */
  datatype Binding = ValueOf(outcome: Outcome) | Function(params: seq<string>, body: Expr)

  type Bindings = map<string, Binding>

  ghost predicate HasFunction(b: Bindings) {
    exists k :: k in b && b[k].Function?
  }

  predicate CallsFunction(b: Bindings, e: Expr) {
    e.Scalar? && e.fn.Custom? && Upper(e.fn.name) in b && b[Upper(e.fn.name)].Function?
  }

  function ValueBindings(os: seq<Outcome>): (bs: seq<Binding>)
    ensures |bs| == |os|
    ensures forall i | 0 <= i < |os| :: bs[i] == ValueOf(os[i])
  {
    seq(|os|, i requires 0 <= i < |os| => ValueOf(os[i]))
  }

  lemma ValuesHaveNoFunction(params: seq<string>, os: seq<Outcome>)
    ensures !HasFunction(Zip(params, ValueBindings(os)))
  {
    ZipValues(params, ValueBindings(os));
  }

  /**
   The body evaluated in the caller's row with its parameters bound: a parameter has its argument's
   outcome, and calling a lambda parameter evaluates the lambda's body with its own parameters bound
   to the outcomes of the call's arguments.
   */
  ghost function EvalBound(env: Env, row: Row, b: Bindings, e: Expr): Outcome
    decreases HasFunction(b), e, 1, 0
  {
    if e.Column? then
      if e.table.None? && Upper(e.name) in b then
        (var x := b[Upper(e.name)]; if x.ValueOf? then x.outcome else Fail)
      else EvalColumn(env, e, row)
    else if e.Opaque? then env.opaqueForm(e.form, row)
    else
      ChildrenBelow(e);
      var os := EvalBoundAll(env, row, b, Children(e), e);
      if CallsFunction(b, e) then
        var f := b[Upper(e.fn.name)];
        ValuesHaveNoFunction(f.params, os);
        EvalBound(env, row, Zip(f.params, ValueBindings(os)), f.body)
      else Combine(env.prims, e, os)
  }

  ghost function EvalBoundAll(env: Env, row: Row, b: Bindings, es: seq<Expr>, parent: Expr): (os: seq<Outcome>)
    requires Below(es, parent)
    ensures |os| == |es|
    decreases HasFunction(b), parent, 0, |es|
  {
    if es == [] then []
    else
      var n := |es| - 1;
      EvalBoundAll(env, row, b, es[..n], parent) + [EvalBound(env, row, b, es[n])]
  }

  /** The bindings a call makes: an argument's outcome in the caller's row, or the lambda it is. */
  ghost function BindingOf(env: Env, row: Row, e: Expr): Binding {
    if e.Lambda? then Function(e.params, e.body) else ValueOf(Eval(env, e, row))
  }

  ghost function BindingsOf(env: Env, row: Row, m: Substitution): Bindings {
    map k | k in m :: BindingOf(env, row, m[k])
  }

  /** Zipping expressions and binding each is zipping the bindings. */
  lemma {:induction false} ZipBindings(env: Env, row: Row, names: seq<string>, cs: seq<Expr>, os: seq<Outcome>)
    requires |cs| == |os|
    requires forall i | 0 <= i < |cs| :: !cs[i].Lambda? && Eval(env, cs[i], row) == os[i]
    ensures BindingsOf(env, row, Zip(names, cs)) == Zip(names, ValueBindings(os))
    decreases |names|
  {
    hide Eval, Upper;
    if names != [] {
      var n := |names| - 1;
      ZipBindings(env, row, names[..n], cs, os);
      if n < |cs| {
        assert BindingOf(env, row, cs[n]) == ValueBindings(os)[n];
      }
    }
  }

  lemma SameCalls(env: Env, row: Row, m: Substitution, e: Expr)
    ensures CallsFunction(BindingsOf(env, row, m), e) <==> AppliesLambda(m, e)
    ensures AppliesLambda(m, e) ==> BindingsOf(env, row, m)[Upper(e.fn.name)] == Function(m[Upper(e.fn.name)].params, m[Upper(e.fn.name)].body)
  {
  }

  lemma ColumnSound(env: Env, row: Row, fuel: nat, m: Substitution, e: Expr)
    requires env.scope.RowScope? && e.Column?
    ensures Eval(env, Substitute(fuel, m, e).value, row) == EvalBound(env, row, BindingsOf(env, row, m), e)
  {
    if IsParameter(m, e) {
      var a := m[Upper(e.name)];
      hide Eval;
      assert BindingsOf(env, row, m)[Upper(e.name)] == BindingOf(env, row, a);
    }
  }

  lemma LeafSound(env: Env, row: Row, fuel: nat, m: Substitution, e: Expr)
    requires env.scope.RowScope? && (e.Literal? || e.Opaque?)
    ensures Substitute(fuel, m, e) == Some(e)
    ensures Eval(env, e, row) == EvalBound(env, row, BindingsOf(env, row, m), e)
  {
    if e.Literal? {
      EvalByChildren(env, e, row);
      ChildrenBelow(e);
      assert EvalBoundAll(env, row, BindingsOf(env, row, m), Children(e), e) == [];
      assert EvalAll(env, Children(e), row) == [];
    }
  }

  /**
   Inlining is correct: for first-order calls, the inlined body in the caller's row has the outcome
   of the body with its parameters bound, each argument evaluated in the caller's row and never
   substituted into again.
   */
  lemma {:induction false} SubstituteSound(env: Env, row: Row, fuel: nat, m: Substitution, e: Expr)
    requires env.scope.RowScope? && FirstOrder(m, e) && (fuel > 0 || NoLambdas(m))
    ensures Substitute(fuel, m, e).Some?
    ensures Eval(env, Substitute(fuel, m, e).value, row) == EvalBound(env, row, BindingsOf(env, row, m), e)
    decreases fuel, e, 2, 0
  {
    hide *;
    FirstOrderTerminates(fuel, m, e);
    if e.Column? {
      ColumnSound(env, row, fuel, m, e);
    } else if e.Literal? || e.Opaque? {
      LeafSound(env, row, fuel, m, e);
    } else {
      ChildrenFirstOrder(m, e);
      ChildrenBelow(e);
      AllSound(env, row, fuel, m, Children(e), e);
      NoLambdasNoCall(m, e);
      if AppliesLambda(m, e) {
        ApplicationSound(env, row, fuel, m, e);
      } else {
        FormSound(env, row, fuel, m, e);
      }
    }
  }

  lemma ChildrenFirstOrder(m: Substitution, e: Expr)
    requires FirstOrder(m, e)
    ensures forall i | 0 <= i < |Children(e)| :: FirstOrder(m, Children(e)[i])
    ensures AppliesLambda(m, e) ==> e.Scalar? && Children(e) == e.args && forall i | 0 <= i < |e.args| :: !YieldsLambda(m, e.args[i])
  {
    hide YieldsLambda;
    assert forall i | 0 <= i < |Children(e)| :: Children(e)[i] in Children(e);
  }

  ghost predicate ChildrenSound(env: Env, row: Row, fuel: nat, m: Substitution, es: seq<Expr>, parent: Expr)
    requires Below(es, parent)
  {
    && SubstituteAll(fuel, m, es, parent).Some?
    && forall i | 0 <= i < |es| ::
        Eval(env, SubstituteAll(fuel, m, es, parent).value[i], row) == EvalBoundAll(env, row, BindingsOf(env, row, m), es, parent)[i]
  }

  lemma {:induction false} AllSound(env: Env, row: Row, fuel: nat, m: Substitution, es: seq<Expr>, parent: Expr)
    requires env.scope.RowScope? && Below(es, parent) && (fuel > 0 || NoLambdas(m))
    requires forall i | 0 <= i < |es| :: FirstOrder(m, es[i])
    ensures ChildrenSound(env, row, fuel, m, es, parent)
    decreases fuel, parent, 0, |es|
  {
    hide *;
    if es != [] {
      var n := |es| - 1;
      FrontBelow(es, parent);
      AllSound(env, row, fuel, m, es[..n], parent);
      SubstituteSound(env, row, fuel, m, es[n]);
      OneMoreSound(env, row, fuel, m, es, parent);
    } else {
      NoneSound(env, row, fuel, m, parent);
    }
  }

  lemma FrontBelow(es: seq<Expr>, parent: Expr)
    requires Below(es, parent) && es != []
    ensures Below(es[..|es| - 1], parent) && es[|es| - 1] < parent
  {
  }

  lemma NoneSound(env: Env, row: Row, fuel: nat, m: Substitution, parent: Expr)
    ensures Below([], parent) && ChildrenSound(env, row, fuel, m, [], parent)
  {
  }

  lemma OneMoreSound(env: Env, row: Row, fuel: nat, m: Substitution, es: seq<Expr>, parent: Expr)
    requires es != [] && Below(es, parent) && Below(es[..|es| - 1], parent)
    requires ChildrenSound(env, row, fuel, m, es[..|es| - 1], parent)
    requires var e := es[|es| - 1];
             && Substitute(fuel, m, e).Some?
             && Eval(env, Substitute(fuel, m, e).value, row) == EvalBound(env, row, BindingsOf(env, row, m), e)
    ensures ChildrenSound(env, row, fuel, m, es, parent)
  {
    hide Eval, EvalBound, Substitute, BindingsOf, Below, SubstituteAll, EvalBoundAll;
    var n := |es| - 1;
    LastSubstituted(fuel, m, es, parent);
    LastEvaluated(env, row, BindingsOf(env, row, m), es, parent);
  }

  lemma LastSubstituted(fuel: nat, m: Substitution, es: seq<Expr>, parent: Expr)
    requires es != [] && Below(es, parent) && Below(es[..|es| - 1], parent)
    requires SubstituteAll(fuel, m, es[..|es| - 1], parent).Some? && Substitute(fuel, m, es[|es| - 1]).Some?
    ensures SubstituteAll(fuel, m, es, parent) == Some(SubstituteAll(fuel, m, es[..|es| - 1], parent).value + [Substitute(fuel, m, es[|es| - 1]).value])
  {
    hide Substitute;
  }

  lemma LastEvaluated(env: Env, row: Row, b: Bindings, es: seq<Expr>, parent: Expr)
    requires es != [] && Below(es, parent) && Below(es[..|es| - 1], parent)
    ensures EvalBoundAll(env, row, b, es, parent) == EvalBoundAll(env, row, b, es[..|es| - 1], parent) + [EvalBound(env, row, b, es[|es| - 1])]
  {
    hide EvalBound;
  }

  lemma FormSound(env: Env, row: Row, fuel: nat, m: Substitution, e: Expr)
    requires env.scope.RowScope? && !e.Column? && !e.Literal? && !e.Opaque? && !AppliesLambda(m, e)
    requires Below(Children(e), e) && ChildrenSound(env, row, fuel, m, Children(e), e)
    ensures Substitute(fuel, m, e).Some?
    ensures Eval(env, Substitute(fuel, m, e).value, row) == EvalBound(env, row, BindingsOf(env, row, m), e)
  {
    hide *;
    var cs, os := FormParts(env, row, fuel, m, e);
    var e' := WithChildren(e, cs);
    WithChildrenForm(e, cs);
    ChildrenOfWithChildren(e, cs);
    RowUnbound(env, e');
    EvalByChildren(env, e', row);
    assert EvalAll(env, cs, row) == os;
    CombineHead(env.prims, e, cs, os);
  }

  lemma RowUnbound(env: Env, e: Expr)
    requires env.scope.RowScope?
    ensures Bound(env.scope, e).None?
  {
  }

  /** What substituting into, and evaluating, any other form comes down to. */
  lemma FormParts(env: Env, row: Row, fuel: nat, m: Substitution, e: Expr) returns (cs: seq<Expr>, os: seq<Outcome>)
    requires !e.Column? && !e.Literal? && !e.Opaque? && !AppliesLambda(m, e)
    requires Below(Children(e), e) && ChildrenSound(env, row, fuel, m, Children(e), e)
    ensures |cs| == |os| == |Children(e)|
    ensures forall i | 0 <= i < |cs| :: Eval(env, cs[i], row) == os[i]
    ensures Substitute(fuel, m, e) == Some(WithChildren(e, cs))
    ensures EvalBound(env, row, BindingsOf(env, row, m), e) == Combine(env.prims, e, os)
  {
    SameCalls(env, row, m, e);
    hide SubstituteAll, EvalBoundAll, BindingsOf, Upper, Eval, Combine, WithChildren, Children;
    cs := SubstituteAll(fuel, m, Children(e), e).value;
    os := EvalBoundAll(env, row, BindingsOf(env, row, m), Children(e), e);
  }

  lemma WithChildrenForm(e: Expr, cs: seq<Expr>)
    requires |cs| == |Children(e)| && !e.Column? && !e.Opaque?
    ensures !WithChildren(e, cs).Column? && !WithChildren(e, cs).Opaque?
  {
  }

  lemma {:induction false} ApplicationSound(env: Env, row: Row, fuel: nat, m: Substitution, e: Expr)
    requires env.scope.RowScope? && AppliesLambda(m, e) && FirstOrder(m, e) && fuel > 0
    requires e.Scalar? && Below(e.args, e) && Children(e) == e.args && ChildrenSound(env, row, fuel, m, e.args, e)
    requires Substitute(fuel, m, e).Some?
    ensures Eval(env, Substitute(fuel, m, e).value, row) == EvalBound(env, row, BindingsOf(env, row, m), e)
    decreases fuel, e, 1, 0
  {
    hide *;
    var f, cs, os := ApplicationParts(env, row, fuel, m, e);
    ChildrenFirstOrder(m, e);
    AllStayNoLambda(fuel, m, e.args, e, cs);
    ZippedNoLambdas(f.params, cs);
    NoLambdasFirstOrder(Zip(f.params, cs), f.body);
    ZipBindings(env, row, f.params, cs, os);
    SubstituteSound(env, row, fuel - 1, Zip(f.params, cs), f.body);
  }

  /** What substituting into, and evaluating, a call of a lambda parameter comes down to. */
  lemma ApplicationParts(env: Env, row: Row, fuel: nat, m: Substitution, e: Expr) returns (f: Expr, cs: seq<Expr>, os: seq<Outcome>)
    requires AppliesLambda(m, e) && fuel > 0 && e.Scalar? && Below(e.args, e) && Children(e) == e.args
    requires ChildrenSound(env, row, fuel, m, e.args, e)
    ensures f.Lambda? && SubstituteAll(fuel, m, e.args, e) == Some(cs) && |cs| == |os|
    ensures forall i | 0 <= i < |cs| :: Eval(env, cs[i], row) == os[i]
    ensures Substitute(fuel, m, e) == Substitute(fuel - 1, Zip(f.params, cs), f.body)
    ensures EvalBound(env, row, BindingsOf(env, row, m), e) == EvalBound(env, row, Zip(f.params, ValueBindings(os)), f.body)
  {
    SameCalls(env, row, m, e);
    hide SubstituteAll, EvalBoundAll, Zip, BindingsOf, Upper, Eval;
    f, cs := m[Upper(e.fn.name)], SubstituteAll(fuel, m, e.args, e).value;
    os := EvalBoundAll(env, row, BindingsOf(env, row, m), e.args, e);
  }

  // ---------- A call ----------

  /** The argument or default a parameter gets; `None` leaves its name in the body as it is. */
  function ArgumentFor(params: seq<FunctionArg>, args: seq<Expr>, i: nat): Option<Expr>
    requires i < |params|
  {
    if i < |args| then Some(args[i]) else params[i].default
  }

  function ParameterMap(params: seq<FunctionArg>, args: seq<Expr>): Substitution
    decreases |params|
  {
    if params == [] then map[]
    else
      var n := |params| - 1;
      var front := ParameterMap(params[..n], args);
      var a := ArgumentFor(params, args, n);
      if a.Some? then front[Upper(params[n].name) := a.value] else front
  }

  /** The loop that binds parameters, and the substitution; enough fuel is the caller's. */
  method SubstituteParameters(fuel: nat, body: Expr, params: seq<FunctionArg>, args: seq<Expr>) returns (r: Option<Expr>)
    ensures r == Substitute(fuel, ParameterMap(params, args), body)
  {
    hide Substitute;
    var m: Substitution := map[];
    for i := 0 to |params|
      invariant m == ParameterMap(params[..i], args)
    {
      assert params[..i + 1][..i] == params[..i];
      if i < |args| {
        m := m[Upper(params[i].name) := args[i]];
      } else if params[i].default.Some? {
        m := m[Upper(params[i].name) := params[i].default.value];
      }
    }
    assert params[..|params|] == params;
    r := Substitute(fuel, m, body);
  }

  predicate DistinctNames(params: seq<FunctionArg>) {
    forall i, j | 0 <= i < j < |params| :: Upper(params[i].name) != Upper(params[j].name)
  }

  lemma {:induction false} BoundNames(params: seq<FunctionArg>, args: seq<Expr>)
    ensures forall k | k in ParameterMap(params, args) :: exists i :: 0 <= i < |params| && k == Upper(params[i].name)
    decreases |params|
  {
    hide Upper;
    if params != [] {
      var n := |params| - 1;
      var front := params[..n];
      BoundNames(front, args);
      forall k | k in ParameterMap(params, args)
        ensures exists i :: 0 <= i < |params| && k == Upper(params[i].name)
      {
        if k in ParameterMap(front, args) {
          var i :| 0 <= i < |front| && k == Upper(front[i].name);
          assert k == Upper(params[i].name);
        } else {
          assert k == Upper(params[n].name);
        }
      }
    }
  }

  /** With distinct names each parameter is bound to its own argument, or to its default, or not at all. */
  lemma {:induction false} EachParameterBound(params: seq<FunctionArg>, args: seq<Expr>, i: nat)
    requires DistinctNames(params) && i < |params|
    ensures var (name, m) := (Upper(params[i].name), ParameterMap(params, args));
            && (i < |args| ==> name in m && m[name] == args[i])
            && (i >= |args| && params[i].default.Some? ==> name in m && m[name] == params[i].default.value)
            && (i >= |args| && params[i].default.None? ==> name !in m)
    decreases |params|
  {
    hide Upper, ParameterMap, DistinctNames;
    var n := |params| - 1;
    var front := params[..n];
    MapStep(params, args);
    if i < n {
      DistinctFront(params, i);
      EachParameterBound(front, args, i);
    } else {
      LastUnbound(params, args);
    }
  }

  lemma MapStep(params: seq<FunctionArg>, args: seq<Expr>)
    requires params != []
    ensures var n := |params| - 1;
            var (front, name) := (ParameterMap(params[..n], args), Upper(params[n].name));
            ParameterMap(params, args)
            == if n < |args| then front[name := args[n]] else if params[n].default.Some? then front[name := params[n].default.value] else front
  {
    hide Upper;
  }

  lemma DistinctFront(params: seq<FunctionArg>, i: nat)
    requires DistinctNames(params) && i < |params| - 1
    ensures DistinctNames(params[..|params| - 1]) && params[..|params| - 1][i] == params[i]
    ensures Upper(params[i].name) != Upper(params[|params| - 1].name)
  {
    hide Upper;
  }

  lemma LastUnbound(params: seq<FunctionArg>, args: seq<Expr>)
    requires DistinctNames(params) && params != []
    ensures Upper(params[|params| - 1].name) !in ParameterMap(params[..|params| - 1], args)
  {
    hide Upper, ParameterMap;
    BoundNames(params[..|params| - 1], args);
  }

  /** A whole call: the inlined function means its body with the parameters bound to the call's arguments and defaults. */
  lemma CallSound(env: Env, row: Row, fuel: nat, body: Expr, params: seq<FunctionArg>, args: seq<Expr>)
    requires env.scope.RowScope? && fuel > 0 && FirstOrder(ParameterMap(params, args), body)
    ensures Substitute(fuel, ParameterMap(params, args), body).Some?
    ensures Eval(env, Substitute(fuel, ParameterMap(params, args), body).value, row)
            == EvalBound(env, row, BindingsOf(env, row, ParameterMap(params, args)), body)
  {
    hide *;
    SubstituteSound(env, row, fuel, ParameterMap(params, args), body);
  }

  /** A missing argument without a default: the parameter's name is looked up in the caller's row instead. */
  lemma MissingArgumentCaptured(fuel: nat, x: string, t: DataType, env: Env, row: Row)
    requires env.scope.RowScope?
    ensures var body := Column(None, x, None);
            var inlined := Substitute(fuel, ParameterMap([FunctionArg(x, t, None)], []), body);
            inlined == Some(body) && Eval(env, body, row) == env.byName(None, x, row)
  {
    var ps := [FunctionArg(x, t, None)];
    assert ps[..0] == [];
    assert ParameterMap(ps, []) == map[];
  }
}
