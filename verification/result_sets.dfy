/**
 Sets of possible results, and when two of them agree.  The sets are closed under the
 operators of a plan, so agreement of plans is proved operator by operator.
 */
module ResultSets {
  import opened Tables

  type Results = iset<TableResult>

  ghost function Lift(s: Results, f: TableResult -> TableResult): Results {
    iset t | t in s :: f(t)
  }

  ghost function Lift2(s: Results, u: Results, f: (TableResult, TableResult) -> TableResult): Results {
    iset t, v | t in s && v in u :: f(t, v)
  }

  ghost function LiftRel(s: Results, rel: (TableResult, TableResult) -> bool): Results {
    iset t, out | t in s && rel(t, out) :: out
  }

  /**
   The two agree where they do not fail: each table one may produce the other may produce too,
   unless the other may fail instead.
   */
  ghost predicate Agree(s: Results, u: Results) {
    forall out: TableResult | out.Table? ::
      && (out in u && Failed !in s ==> out in s)
      && (out in s && Failed !in u ==> out in u)
  }

  /** Two sets that cannot fail and agree are the same set. */
  lemma AgreeWithoutFailure(s: Results, u: Results)
    requires Agree(s, u) && Failed !in s && Failed !in u
    ensures s == u
  {
    forall t: TableResult
      ensures t in s <==> t in u
    {
    }
  }

  predicate Strict(f: TableResult -> TableResult) {
    f(Failed) == Failed
  }

  ghost predicate Strict2(f: (TableResult, TableResult) -> TableResult) {
    forall t: TableResult :: f(Failed, t) == Failed && f(t, Failed) == Failed
  }

  ghost predicate StrictRel(rel: (TableResult, TableResult) -> bool) {
    rel(Failed, Failed) && forall out: TableResult | rel(Failed, out) :: out.Failed?
  }

  lemma LiftAgrees(s: Results, u: Results, f: TableResult -> TableResult)
    requires Agree(s, u) && Strict(f)
    ensures Agree(Lift(s, f), Lift(u, f))
  {
    assert Failed in s ==> f(Failed) in Lift(s, f);
    assert Failed in u ==> f(Failed) in Lift(u, f);
  }

  /**
   Two binary operators that give the same table whenever both give one: if the inputs agree,
   so do the results.
   */
  lemma Lift2Agrees(s: Results, u: Results, s': Results, u': Results,
                    f: (TableResult, TableResult) -> TableResult, g: (TableResult, TableResult) -> TableResult)
    requires Agree(s, s') && Agree(u, u') && Strict2(f) && Strict2(g)
    requires forall t, v: TableResult | t in s && v in u && f(t, v).Table? && g(t, v).Table? :: f(t, v) == g(t, v)
    ensures Agree(Lift2(s, u, f), Lift2(s', u', g))
  {
    forall out: TableResult | out.Table? && out in Lift2(s', u', g) && Failed !in Lift2(s, u, f)
      ensures out in Lift2(s, u, f)
    {
      var t, v :| t in s' && v in u' && out == g(t, v);
      assert t.Table? && v.Table?;
      assert f(t, v) in Lift2(s, u, f);
    }
    forall out: TableResult | out.Table? && out in Lift2(s, u, f) && Failed !in Lift2(s', u', g)
      ensures out in Lift2(s', u', g)
    {
      var t, v :| t in s && v in u && out == f(t, v);
      assert t.Table? && v.Table?;
      assert g(t, v) in Lift2(s', u', g);
    }
  }

  // ---------- Compositions ----------

  lemma LiftAfterLift2(s: Results, u: Results, f: (TableResult, TableResult) -> TableResult, g: TableResult -> TableResult,
                       h: (TableResult, TableResult) -> TableResult)
    requires forall t, v: TableResult :: h(t, v) == g(f(t, v))
    ensures Lift(Lift2(s, u, f), g) == Lift2(s, u, h)
  {
    forall out | out in Lift(Lift2(s, u, f), g)
      ensures out in Lift2(s, u, h)
    {
      var m :| m in Lift2(s, u, f) && out == g(m);
      var t, v :| t in s && v in u && m == f(t, v);
      assert h(t, v) in Lift2(s, u, h);
    }
    forall out | out in Lift2(s, u, h)
      ensures out in Lift(Lift2(s, u, f), g)
    {
      var t, v :| t in s && v in u && out == h(t, v);
      assert f(t, v) in Lift2(s, u, f);
    }
  }

  lemma Lift2AfterLift(s: Results, u: Results, f: TableResult -> TableResult, g: TableResult -> TableResult,
                       j: (TableResult, TableResult) -> TableResult, h: (TableResult, TableResult) -> TableResult)
    requires forall t, v: TableResult :: h(t, v) == j(f(t), g(v))
    ensures Lift2(Lift(s, f), Lift(u, g), j) == Lift2(s, u, h)
  {
    forall out | out in Lift2(Lift(s, f), Lift(u, g), j)
      ensures out in Lift2(s, u, h)
    {
      var a, b :| a in Lift(s, f) && b in Lift(u, g) && out == j(a, b);
      var t :| t in s && a == f(t);
      var v :| v in u && b == g(v);
      assert h(t, v) in Lift2(s, u, h);
    }
    forall out | out in Lift2(s, u, h)
      ensures out in Lift2(Lift(s, f), Lift(u, g), j)
    {
      var t, v :| t in s && v in u && out == h(t, v);
      assert f(t) in Lift(s, f) && g(v) in Lift(u, g);
    }
  }

  lemma LiftAfterRel(s: Results, rel: (TableResult, TableResult) -> bool, f: TableResult -> TableResult, h: (TableResult, TableResult) -> bool)
    requires forall t, out: TableResult | t in s :: h(t, out) <==> exists m: TableResult :: rel(t, m) && out == f(m)
    ensures Lift(LiftRel(s, rel), f) == LiftRel(s, h)
  {
    forall out | out in Lift(LiftRel(s, rel), f)
      ensures out in LiftRel(s, h)
    {
      var m :| m in LiftRel(s, rel) && out == f(m);
      var t :| t in s && rel(t, m);
      assert h(t, out);
    }
    forall out | out in LiftRel(s, h)
      ensures out in Lift(LiftRel(s, rel), f)
    {
      var t :| t in s && h(t, out);
      var m: TableResult :| rel(t, m) && out == f(m);
      assert m in LiftRel(s, rel);
    }
  }

  lemma Lift2Same(s: Results, u: Results, f: (TableResult, TableResult) -> TableResult, g: (TableResult, TableResult) -> TableResult)
    requires forall t, v: TableResult | t in s && v in u :: f(t, v) == g(t, v)
    ensures Lift2(s, u, f) == Lift2(s, u, g)
  {
    forall out | out in Lift2(s, u, f)
      ensures out in Lift2(s, u, g)
    {
      var t, v :| t in s && v in u && out == f(t, v);
      assert g(t, v) in Lift2(s, u, g);
    }
    forall out | out in Lift2(s, u, g)
      ensures out in Lift2(s, u, f)
    {
      var t, v :| t in s && v in u && out == g(t, v);
      assert f(t, v) in Lift2(s, u, f);
    }
  }
}
