/**
 Failures and pushdown, on tables.  Filtering an inner join and joining filtered sides evaluate the
 predicates on different rows, so one may fail where the other does not; this is exactly when
 they do not differ.
 */
module ExactPushdown {
  import opened Wrappers
  import opened Ir
  import opened Evaluator
  import opened Predicates
  import opened EquiKeys
  import opened Tables
  import opened Sorting
  import opened PlanSemantics
  import opened Pushdown

  // ---------- Failures pair by pair ----------

  predicate FailsOn(env: Env, condition: Option<Expr>, row: Row) {
    condition.Some? && Eval(env, condition.value, row).Fail?
  }

  /** On this pair the join condition fails, or holds and the filter fails. */
  predicate PairFails(env: Env, on: Option<Expr>, condition: Option<Expr>, row: Row) {
    FailsOn(env, on, row) || (Passes(env, on, row) && FailsOn(env, condition, row))
  }

  ghost predicate NeverFails(env: Env, condition: Option<Expr>, types: seq<DataType>) {
    forall row | RowConforms(row, types) :: !FailsOn(env, condition, row)
  }

  /** A filtered join fails exactly when some pair does. */
  lemma JoinFailsIff(env: Env, on: Option<Expr>, condition: Option<Expr>, ls: seq<Row>, rs: seq<Row>, leftWidth: nat, rightWidth: nat)
    ensures FilterTableIf(env, condition, JoinTable(env, Inner, on, Table(ls), Table(rs), leftWidth, rightWidth)).Failed?
            <==> exists l, r :: l in ls && r in rs && PairFails(env, on, condition, l + r)
  {
    hide Eval, Pairs;
    var joined := JoinTable(env, Inner, on, Table(ls), Table(rs), leftWidth, rightWidth);
    if joined.Table? {
      assert joined.rows == Pairs(ls, rs, OnPair(env, on));
      assert forall l, r | l in ls && r in rs :: !FailsOn(env, on, l + r) && (OnPair(env, on)(l, r) <==> Passes(env, on, l + r));
    } else {
      var l, r :| l in ls && r in rs && FailsOn(env, on, l + r);
      assert PairFails(env, on, condition, l + r);
    }
  }

  /** A filter fails exactly when it does on some row. */
  lemma FilterFailsIff(env: Env, condition: Option<Expr>, rows: seq<Row>)
    ensures FilterTableIf(env, condition, Table(rows)).Failed? <==> exists row :: row in rows && FailsOn(env, condition, row)
  {
    hide Eval;
  }

  // ---------- When pushing is exact ----------

  /** Pairs fail alike under the whole filter, and where both sides pass, under what is left of it. */
  ghost predicate SameFailures(env: Env, e: Expr, on: Option<Expr>, parts: Partition, lts: seq<DataType>, rts: seq<DataType>) {
    forall l, r | RowConforms(l, lts) && RowConforms(r, rts) ::
      PairFails(env, on, Some(e), l + r)
      <==> && Passes(env, CombinePredicates(parts.left), l)
           && Passes(env, CombinePredicates(parts.right), r)
           && PairFails(env, on, CombinePredicates(parts.post), l + r)
  }

  ghost predicate PushesExactly(env: Env, e: Expr, on: Option<Expr>, lts: seq<DataType>, rts: seq<DataType>) {
    var parts := PartitionConjuncts(SplitAnd(e), |lts|);
    && NeverFails(env, CombinePredicates(parts.left), lts)
    && NeverFails(env, CombinePredicates(parts.right), rts)
    && SameFailures(env, e, on, parts, lts, rts)
  }

  predicate SameTable(env: Env, e: Expr, on: Option<Expr>, lt: TableResult, rt: TableResult, leftWidth: nat, rightWidth: nat) {
    FilterTable(env, e, JoinTable(env, Inner, on, lt, rt, leftWidth, rightWidth)) == PushedTable(env, e, on, lt, rt, leftWidth, rightWidth)
  }

  lemma PassedSides(env: Env, condition: Option<Expr>, rows: seq<Row>, types: seq<DataType>)
    requires RowsConform(rows, types) && NeverFails(env, condition, types)
    ensures var t := FilterTableIf(env, condition, Table(rows));
            t.Table? && RowsConform(t.rows, types) && forall row :: row in t.rows <==> row in rows && Passes(env, condition, row)
  {
    hide Eval, RowConforms;
    FilterFailsIff(env, condition, rows);
    FilterIfKeeps(env, condition, Table(rows));
  }

  /** Pushing the filter down: the same table, or the same failure. */
  lemma PushdownSame(env: Env, e: Expr, on: Option<Expr>, lt: TableResult, rt: TableResult, lts: seq<DataType>, rts: seq<DataType>)
    requires lt.Table? ==> RowsConform(lt.rows, lts)
    requires rt.Table? ==> RowsConform(rt.rows, rts)
    requires EquiJoinSafe(on, lts, rts) && Resolved(e, |lts| + |rts|) && PushesExactly(env, e, on, lts, rts)
    ensures SameTable(env, e, on, lt, rt, |lts|, |rts|)
  {
    hide *;
    if lt.Failed? || rt.Failed? {
      PushedFails(env, e, on, lt, rt, |lts|, |rts|);
      SameIf(env, e, on, lt, rt, |lts|, |rts|);
    } else {
      FailTogether(env, e, on, lt.rows, rt.rows, lts, rts);
      PushdownExact(env, e, on, lt, rt, lts, rts);
      SameIf(env, e, on, lt, rt, |lts|, |rts|);
    }
  }

  lemma SameIf(env: Env, e: Expr, on: Option<Expr>, lt: TableResult, rt: TableResult, leftWidth: nat, rightWidth: nat)
    ensures var whole := FilterTable(env, e, JoinTable(env, Inner, on, lt, rt, leftWidth, rightWidth));
            var pushed := PushedTable(env, e, on, lt, rt, leftWidth, rightWidth);
            SameTable(env, e, on, lt, rt, leftWidth, rightWidth) <==> (whole.Failed? <==> pushed.Failed?) && (whole.Table? && pushed.Table? ==> whole == pushed)
  {
  }

  /** The pushed plan, once its sides are known to be filtered. */
  lemma PushedFailsIff(env: Env, e: Expr, on: Option<Expr>, ls: seq<Row>, rs: seq<Row>, lts: seq<DataType>, rts: seq<DataType>)
    requires RowsConform(ls, lts) && RowsConform(rs, rts) && EquiJoinSafe(on, lts, rts)
    requires var parts := PartitionConjuncts(SplitAnd(e), |lts|);
             NeverFails(env, CombinePredicates(parts.left), lts) && NeverFails(env, CombinePredicates(parts.right), rts)
    ensures var parts := PartitionConjuncts(SplitAnd(e), |lts|);
            PushedTable(env, e, on, Table(ls), Table(rs), |lts|, |rts|).Failed?
            <==> exists l, r :: && l in ls && Passes(env, CombinePredicates(parts.left), l)
                                && r in rs && Passes(env, CombinePredicates(parts.right), r)
                                && PairFails(env, on, CombinePredicates(parts.post), l + r)
  {
    hide FilterTableIf, JoinTable, InnerJoinTable, Passes, PairFails, NeverFails, RowConforms, EquiJoinSafe, CombinePredicates, SplitAnd, PartitionConjuncts;
    var parts := PartitionConjuncts(SplitAnd(e), |lts|);
    var lp, rp, pp := CombinePredicates(parts.left), CombinePredicates(parts.right), CombinePredicates(parts.post);
    PassedSides(env, lp, ls, lts);
    PassedSides(env, rp, rs, rts);
    var lf, rf := FilterTableIf(env, lp, Table(ls)), FilterTableIf(env, rp, Table(rs));
    InnerJoinExact(env, on, lf, rf, lts, rts);
    JoinFailsIff(env, on, pp, lf.rows, rf.rows, |lts|, |rts|);
  }

  lemma FailTogether(env: Env, e: Expr, on: Option<Expr>, ls: seq<Row>, rs: seq<Row>, lts: seq<DataType>, rts: seq<DataType>)
    requires RowsConform(ls, lts) && RowsConform(rs, rts) && EquiJoinSafe(on, lts, rts) && PushesExactly(env, e, on, lts, rts)
    ensures FilterTable(env, e, JoinTable(env, Inner, on, Table(ls), Table(rs), |lts|, |rts|)).Failed?
            <==> PushedTable(env, e, on, Table(ls), Table(rs), |lts|, |rts|).Failed?
  {
    hide FilterTable, JoinTable, PushedTable, Passes, PairFails, NeverFails, RowConforms, EquiJoinSafe, CombinePredicates, SplitAnd, PartitionConjuncts;
    JoinFailsIff(env, on, Some(e), ls, rs, |lts|, |rts|);
    PushedFailsIff(env, e, on, ls, rs, lts, rts);
    assert forall l | l in ls :: RowConforms(l, lts);
    assert forall r | r in rs :: RowConforms(r, rts);
  }

  // ---------- And when it is not ----------

  lemma FilterSome(env: Env, e: Expr, t: TableResult)
    ensures FilterTableIf(env, Some(e), t) == FilterTable(env, e, t)
  {
  }

  lemma SideFails(env: Env, e: Expr, on: Option<Expr>, lt: TableResult, rt: TableResult, leftWidth: nat, rightWidth: nat)
    requires var parts := PartitionConjuncts(SplitAnd(e), leftWidth);
             FilterTableIf(env, CombinePredicates(parts.left), lt).Failed? || FilterTableIf(env, CombinePredicates(parts.right), rt).Failed?
    ensures PushedTable(env, e, on, lt, rt, leftWidth, rightWidth).Failed?
  {
    hide CombinePredicates, SplitAnd, PartitionConjuncts, KeysOf, AllEval, AllPairsEval;
  }

  /** A side whose predicate fails, joined with no rows: the query gives no rows, the pushed plan fails. */
  lemma FailingLeft(env: Env, e: Expr, on: Option<Expr>, l: Row, lts: seq<DataType>, rts: seq<DataType>)
    requires FailsOn(env, CombinePredicates(PartitionConjuncts(SplitAnd(e), |lts|).left), l)
    ensures !SameTable(env, e, on, Table([l]), Table([]), |lts|, |rts|)
  {
    hide *;
    assert l in [l];
    JoinFailsIff(env, on, Some(e), [l], [], |lts|, |rts|);
    FilterFailsIff(env, CombinePredicates(PartitionConjuncts(SplitAnd(e), |lts|).left), [l]);
    SideFails(env, e, on, Table([l]), Table([]), |lts|, |rts|);
    SameIf(env, e, on, Table([l]), Table([]), |lts|, |rts|);
    FilterSome(env, e, JoinTable(env, Inner, on, Table([l]), Table([]), |lts|, |rts|));
  }

  lemma FailingRight(env: Env, e: Expr, on: Option<Expr>, r: Row, lts: seq<DataType>, rts: seq<DataType>)
    requires FailsOn(env, CombinePredicates(PartitionConjuncts(SplitAnd(e), |lts|).right), r)
    ensures !SameTable(env, e, on, Table([]), Table([r]), |lts|, |rts|)
  {
    hide *;
    assert r in [r];
    JoinFailsIff(env, on, Some(e), [], [r], |lts|, |rts|);
    FilterFailsIff(env, CombinePredicates(PartitionConjuncts(SplitAnd(e), |lts|).right), [r]);
    SideFails(env, e, on, Table([]), Table([r]), |lts|, |rts|);
    SameIf(env, e, on, Table([]), Table([r]), |lts|, |rts|);
    FilterSome(env, e, JoinTable(env, Inner, on, Table([]), Table([r]), |lts|, |rts|));
  }

  /** One row on each side: the two fail alike on the pair exactly when they give the same. */
  lemma OnePair(env: Env, e: Expr, on: Option<Expr>, l: Row, r: Row, lts: seq<DataType>, rts: seq<DataType>)
    requires RowConforms(l, lts) && RowConforms(r, rts) && EquiJoinSafe(on, lts, rts)
    requires var parts := PartitionConjuncts(SplitAnd(e), |lts|);
             NeverFails(env, CombinePredicates(parts.left), lts) && NeverFails(env, CombinePredicates(parts.right), rts)
    requires SameTable(env, e, on, Table([l]), Table([r]), |lts|, |rts|)
    ensures var parts := PartitionConjuncts(SplitAnd(e), |lts|);
            PairFails(env, on, Some(e), l + r)
            <==> && Passes(env, CombinePredicates(parts.left), l)
                 && Passes(env, CombinePredicates(parts.right), r)
                 && PairFails(env, on, CombinePredicates(parts.post), l + r)
  {
    hide FilterTable, JoinTable, PushedTable, Passes, PairFails, NeverFails, RowConforms, EquiJoinSafe, CombinePredicates, SplitAnd, PartitionConjuncts;
    JoinFailsIff(env, on, Some(e), [l], [r], |lts|, |rts|);
    PushedFailsIff(env, e, on, [l], [r], lts, rts);
    assert l in [l] && r in [r];
  }

  ghost predicate SameOnAllTables(env: Env, e: Expr, on: Option<Expr>, lts: seq<DataType>, rts: seq<DataType>) {
    forall ls, rs | RowsConform(ls, lts) && RowsConform(rs, rts) :: SameTable(env, e, on, Table(ls), Table(rs), |lts|, |rts|)
  }

  /**
   On all tables of these types the pushed plan gives what the query gives, failures included, exactly
   when no moved predicate can fail on its side, and each pair fails under the query if and only if its
   sides pass and it fails under what stayed above the join.
   */
  lemma PushdownExactIff(env: Env, e: Expr, on: Option<Expr>, lts: seq<DataType>, rts: seq<DataType>)
    requires EquiJoinSafe(on, lts, rts) && Resolved(e, |lts| + |rts|)
    ensures SameOnAllTables(env, e, on, lts, rts) <==> PushesExactly(env, e, on, lts, rts)
  {
    hide SameTable, PushesExactly, EquiJoinSafe, Resolved, RowsConform;
    if PushesExactly(env, e, on, lts, rts) {
      forall ls, rs | RowsConform(ls, lts) && RowsConform(rs, rts)
        ensures SameTable(env, e, on, Table(ls), Table(rs), |lts|, |rts|)
      {
        PushdownSame(env, e, on, Table(ls), Table(rs), lts, rts);
      }
    }
    if SameOnAllTables(env, e, on, lts, rts) {
      AlwaysSameExact(env, e, on, lts, rts);
    }
  }

  lemma AlwaysSameExact(env: Env, e: Expr, on: Option<Expr>, lts: seq<DataType>, rts: seq<DataType>)
    requires EquiJoinSafe(on, lts, rts) && SameOnAllTables(env, e, on, lts, rts)
    ensures PushesExactly(env, e, on, lts, rts)
  {
    hide FailsOn, SameTable, Passes, PairFails, RowConforms, EquiJoinSafe, CombinePredicates, SplitAnd, PartitionConjuncts;
    var parts := PartitionConjuncts(SplitAnd(e), |lts|);
    forall l | RowConforms(l, lts)
      ensures !FailsOn(env, CombinePredicates(parts.left), l)
    {
      if FailsOn(env, CombinePredicates(parts.left), l) {
        assert RowsConform([l], lts) && RowsConform([], rts);
        FailingLeft(env, e, on, l, lts, rts);
      }
    }
    forall r | RowConforms(r, rts)
      ensures !FailsOn(env, CombinePredicates(parts.right), r)
    {
      if FailsOn(env, CombinePredicates(parts.right), r) {
        assert RowsConform([], lts) && RowsConform([r], rts);
        FailingRight(env, e, on, r, lts, rts);
      }
    }
    forall l, r | RowConforms(l, lts) && RowConforms(r, rts)
      ensures PairFails(env, on, Some(e), l + r)
              <==> && Passes(env, CombinePredicates(parts.left), l)
                   && Passes(env, CombinePredicates(parts.right), r)
                   && PairFails(env, on, CombinePredicates(parts.post), l + r)
    {
      assert RowsConform([l], lts) && RowsConform([r], rts);
      OnePair(env, e, on, l, r, lts, rts);
    }
  }

  /** A left-nested filter no conjunct of which moves is pushed exactly, whatever fails. */
  lemma StayingExact(env: Env, e: Expr, on: Option<Expr>, lts: seq<DataType>, rts: seq<DataType>)
    requires var parts := PartitionConjuncts(SplitAnd(e), |lts|);
             parts.left == [] && parts.right == [] && CombinePredicates(parts.post) == Some(e)
    ensures PushesExactly(env, e, on, lts, rts)
  {
    hide Eval, PartitionConjuncts, SplitAnd;
    assert CombinePredicates([]) == None;
  }
}
