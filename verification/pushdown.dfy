/**
 Inner joins and filters on tables: when a hash join computes what the nested loop does, and
 when filtering a join is joining filtered sides.
 */
module Pushdown {
  import opened Wrappers
  import opened Ir
  import opened Evaluator
  import opened Predicates
  import opened EquiKeys
  import opened KeyTypes
  import opened Tables
  import opened Sorting
  import opened PlanSemantics

  // ---------- Joins on tables ----------

  /** What an inner join computes once planned. */
  function InnerJoinTable(env: Env, on: Option<Expr>, lt: TableResult, rt: TableResult, leftWidth: nat, rightWidth: nat): TableResult {
    if on.Some? && KeysOf(on.value, leftWidth).Some? then HashJoinTable(env, KeysOf(on.value, leftWidth).value, lt, rt)
    else JoinTable(env, Inner, on, lt, rt, leftWidth, rightWidth)
  }

  lemma HashPairExact(env: Env, e: Expr, l: Row, r: Row, lts: seq<DataType>, rts: seq<DataType>)
    requires RowConforms(l, lts) && RowConforms(r, rts)
    requires EquiJoinSafe(Some(e), lts, rts) && KeysOf(e, |lts|).Some?
    ensures OnKeys(env, KeysOf(e, |lts|).value)(l, r) == OnPair(env, Some(e))(l, r)
    ensures Eval(env, e, l + r).Val?
  {
    hide *;
    var k := KeysOf(e, |lts|).value;
    KeysSafe(e, lts, rts);
    SameWidth(l, lts);
    SameWidth(r, rts);
    EquiKeysExact(env, e, l, r);
    if IsTrue(Eval(env, e, l + r)) {
      AcceptedNotMixed(env, e, l, r, lts, rts);
    }
    JoinConditions(env, k, e, l, r);
  }

  lemma SameWidth(row: Row, types: seq<DataType>)
    requires RowConforms(row, types)
    ensures |row| == |types|
  {
  }

  lemma JoinConditions(env: Env, k: JoinKeys, e: Expr, l: Row, r: Row)
    requires |k.left| == |k.right|
    ensures OnKeys(env, k)(l, r) == HashMatch(env, k, l, r)
    ensures OnPair(env, Some(e))(l, r) == IsTrue(Eval(env, e, l + r))
    ensures IsTruth(Eval(env, e, l + r)) ==> Eval(env, e, l + r).Val?
  {
    hide HashMatch, Eval;
  }

  /** On rows of safe key types a hash join computes, and fails on, what the nested loop does. */
  lemma HashJoinExact(env: Env, e: Expr, lt: TableResult, rt: TableResult, lts: seq<DataType>, rts: seq<DataType>)
    requires lt.Table? ==> RowsConform(lt.rows, lts)
    requires rt.Table? ==> RowsConform(rt.rows, rts)
    requires EquiJoinSafe(Some(e), lts, rts) && KeysOf(e, |lts|).Some?
    ensures HashJoinTable(env, KeysOf(e, |lts|).value, lt, rt) == JoinTable(env, Inner, Some(e), lt, rt, |lts|, |rts|)
  {
    hide Eval, KeysOf, RowConforms, EquiJoinSafe, HashMatch, Pairs;
    if lt.Table? && rt.Table? {
      var k := KeysOf(e, |lts|).value;
      KeysSafe(e, lts, rts);
      hide KeyTypesSafe;
      var f, g := OnKeys(env, k), OnPair(env, Some(e));
      forall l, r | l in lt.rows && r in rt.rows
        ensures f(l, r) == g(l, r) && Eval(env, e, l + r).Val?
      {
        HashPairExact(env, e, l, r, lts, rts);
      }
      PairsCongruence(lt.rows, rt.rows, f, g);
      KeysNeverFail(env, k, lt.rows, rt.rows, lts, rts);
    }
  }

  ghost predicate AlwaysHashJoins(env: Env, e: Expr, lts: seq<DataType>, rts: seq<DataType>)
    requires KeysOf(e, |lts|).Some?
  {
    forall ls, rs | RowsConform(ls, lts) && RowsConform(rs, rts) :: SameJoin(env, e, ls, rs, |lts|, |rts|)
  }

  predicate SameJoin(env: Env, e: Expr, ls: seq<Row>, rs: seq<Row>, leftWidth: nat, rightWidth: nat)
    requires KeysOf(e, leftWidth).Some?
  {
    HashJoinTable(env, KeysOf(e, leftWidth).value, Table(ls), Table(rs)) == JoinTable(env, Inner, Some(e), Table(ls), Table(rs), leftWidth, rightWidth)
  }

  /** On all tables of the declared types the hash join computes what the nested loop does exactly when the types are safe, all keys taken together. */
  lemma HashJoinIff(env: Env, e: Expr, lts: seq<DataType>, rts: seq<DataType>)
    requires KeysOf(e, |lts|).Some? && Resolved(e, |lts| + |rts|)
    ensures AlwaysHashJoins(env, e, lts, rts) <==> KeyTypesSafe(KeysOf(e, |lts|).value, lts, rts)
  {
    hide KeysOf, Resolved, KeyTypesSafe, HashJoinTable, JoinTable, RowsConform, Eval;
    if KeyTypesSafe(KeysOf(e, |lts|).value, lts, rts) {
      forall ls, rs | RowsConform(ls, lts) && RowsConform(rs, rts)
        ensures SameJoin(env, e, ls, rs, |lts|, |rts|)
      {
        HashJoinExact(env, e, Table(ls), Table(rs), lts, rts);
      }
    } else {
      var l, r := MixedAccepted(env, e, lts, rts);
      OneRowTables(l, r, lts, rts);
      PairMissed(env, e, l, r, |lts|, |rts|);
      assert !SameJoin(env, e, [l], [r], |lts|, |rts|);
    }
  }

  lemma OneRowTables(l: Row, r: Row, lts: seq<DataType>, rts: seq<DataType>)
    requires RowConforms(l, lts) && RowConforms(r, rts)
    ensures RowsConform([l], lts) && RowsConform([r], rts) && |l| == |lts| && |r| == |rts|
  {
  }

  /** A pair that is accepted and mixed is in the nested loop's result and not in the hash join's. */
  lemma PairMissed(env: Env, e: Expr, l: Row, r: Row, leftWidth: nat, rightWidth: nat)
    requires |l| == leftWidth && |r| == rightWidth && KeysOf(e, leftWidth).Some? && Resolved(e, leftWidth + rightWidth)
    requires IsTrue(Eval(env, e, l + r)) && !NoMixedKeys(env, KeysOf(e, leftWidth).value, l, r)
    ensures !SameJoin(env, e, [l], [r], leftWidth, rightWidth)
  {
    hide Eval, KeysOf, Resolved, NoMixedKeys, HashMatch, IsTrue;
    var k := KeysOf(e, leftWidth).value;
    EquiKeysExact(env, e, l, r);
    JoinConditions(env, k, e, l, r);
    PairsOfOne(l, r, OnKeys(env, k));
    PairsOfOne(l, r, OnPair(env, Some(e)));
    assert [l][0] == l && [r][0] == r;
  }

  lemma PairsOfOne(l: Row, r: Row, f: (Row, Row) -> bool)
    ensures Pairs([l], [r], f) == if f(l, r) then [l + r] else []
  {
    assert [l][1..] == [] && [r][1..] == [];
    assert Matches(l, [], f) == [];
    assert Pairs([], [r], f) == [];
    assert Matches(l, [r], f) == if f(l, r) then [l + r] else [];
  }

  lemma KeysSafe(e: Expr, lts: seq<DataType>, rts: seq<DataType>)
    requires EquiJoinSafe(Some(e), lts, rts) && KeysOf(e, |lts|).Some?
    ensures KeyTypesSafe(KeysOf(e, |lts|).value, lts, rts) && Resolved(e, |lts| + |rts|)
  {
    hide KeysOf, KeyTypesSafe, Resolved;
  }

  lemma KeysNeverFail(env: Env, k: JoinKeys, ls: seq<Row>, rs: seq<Row>, lts: seq<DataType>, rts: seq<DataType>)
    requires KeyTypesSafe(k, lts, rts) && RowsConform(ls, lts) && RowsConform(rs, rts)
    ensures KeysEval(env, k.left, ls) && KeysEval(env, k.right, rs)
  {
    forall e, l | e in k.left && l in ls
      ensures Eval(env, e, l).Val?
    {
      EvalIndexed(env, e, l);
    }
    forall e, r | e in k.right && r in rs
      ensures Eval(env, e, r).Val?
    {
      EvalIndexed(env, e, r);
    }
  }

  lemma InnerJoinExact(env: Env, on: Option<Expr>, lt: TableResult, rt: TableResult, lts: seq<DataType>, rts: seq<DataType>)
    requires lt.Table? ==> RowsConform(lt.rows, lts)
    requires rt.Table? ==> RowsConform(rt.rows, rts)
    requires EquiJoinSafe(on, lts, rts)
    ensures InnerJoinTable(env, on, lt, rt, |lts|, |rts|) == JoinTable(env, Inner, on, lt, rt, |lts|, |rts|)
  {
    if on.Some? && KeysOf(on.value, |lts|).Some? {
      HashJoinExact(env, on.value, lt, rt, lts, rts);
    }
  }

  // ---------- Pushdown on tables ----------

  function FilterTableIf(env: Env, condition: Option<Expr>, t: TableResult): TableResult {
    if condition.Some? then FilterTable(env, condition.value, t) else t
  }

  predicate Passes(env: Env, condition: Option<Expr>, row: Row) {
    condition.Some? ==> IsTrue(Eval(env, condition.value, row))
  }

  lemma FilterIfKeeps(env: Env, condition: Option<Expr>, t: TableResult)
    requires FilterTableIf(env, condition, t).Table?
    ensures t.Table? && FilterTableIf(env, condition, t).rows == Keep(t.rows, r => Passes(env, condition, r))
  {
    if condition.Some? {
      KeepCongruence(t.rows, r => IsTrue(Eval(env, condition.value, r)), r => Passes(env, condition, r));
    } else {
      KeepAll(t.rows, r => Passes(env, condition, r));
    }
  }

  lemma CombinedPasses(env: Env, ps: seq<Expr>, row: Row)
    ensures Passes(env, CombinePredicates(ps), row) <==> AllTrue(env, ps, row)
  {
    if ps != [] {
      CombineIsTrue(env, ps, row);
    }
  }

  lemma ConditionSplits(env: Env, e: Expr, parts: Partition, l: Row, r: Row)
    requires Resolved(e, |l| + |r|) && parts == PartitionConjuncts(SplitAnd(e), |l|)
    ensures IsTrue(Eval(env, e, l + r))
            <==> && Passes(env, CombinePredicates(parts.left), l)
                 && Passes(env, CombinePredicates(parts.right), r)
                 && Passes(env, CombinePredicates(parts.post), l + r)
  {
    ResolvedConjuncts(e, |l| + |r|);
    SplitIsTrue(env, e, l + r);
    PartitionSound(env, SplitAnd(e), l, r);
    CombinedPasses(env, parts.left, l);
    CombinedPasses(env, parts.right, r);
    CombinedPasses(env, parts.post, l + r);
  }

  /** The table the Filter arm computes: sides filtered first, joined, then filtered by the rest. */
  function PushedTable(env: Env, e: Expr, on: Option<Expr>, lt: TableResult, rt: TableResult, leftWidth: nat, rightWidth: nat): TableResult {
    var parts := PartitionConjuncts(SplitAnd(e), leftWidth);
    FilterTableIf(env, CombinePredicates(parts.post),
                  InnerJoinTable(env, on, FilterTableIf(env, CombinePredicates(parts.left), lt),
                                 FilterTableIf(env, CombinePredicates(parts.right), rt), leftWidth, rightWidth))
  }

  lemma FilteredConforms(env: Env, condition: Option<Expr>, t: TableResult, types: seq<DataType>)
    requires t.Table? ==> RowsConform(t.rows, types)
    ensures var f := FilterTableIf(env, condition, t); f.Table? ==> RowsConform(f.rows, types)
  {
  }

  lemma PushdownRows(env: Env, e: Expr, parts: Partition, c: (Row, Row) -> bool, ls: seq<Row>, rs: seq<Row>, lts: seq<DataType>, rts: seq<DataType>)
    requires RowsConform(ls, lts) && RowsConform(rs, rts)
    requires Resolved(e, |lts| + |rts|) && parts == PartitionConjuncts(SplitAnd(e), |lts|)
    ensures Keep(Pairs(ls, rs, c), x => IsTrue(Eval(env, e, x)))
            == Keep(Pairs(Keep(ls, x => Passes(env, CombinePredicates(parts.left), x)),
                          Keep(rs, x => Passes(env, CombinePredicates(parts.right), x)), c),
                    x => Passes(env, CombinePredicates(parts.post), x))
  {
    hide Eval, IsTrue, Passes, CombinePredicates, PartitionConjuncts, SplitAnd, Resolved, RowConforms, Pairs, Keep;
    var p := (x: Row) => IsTrue(Eval(env, e, x));
    var pl := (x: Row) => Passes(env, CombinePredicates(parts.left), x);
    var pr := (x: Row) => Passes(env, CombinePredicates(parts.right), x);
    var q := (x: Row) => Passes(env, CombinePredicates(parts.post), x);
    forall l, r | l in ls && r in rs
      ensures p(l + r) <==> pl(l) && pr(r) && q(l + r)
    {
      SameWidth(l, lts);
      SameWidth(r, rts);
      ConditionSplits(env, e, parts, l, r);
    }
    KeepPairs(ls, rs, c, p, pl, pr, q);
  }

  lemma InnerJoinRows(env: Env, on: Option<Expr>, lt: TableResult, rt: TableResult, leftWidth: nat, rightWidth: nat)
    requires JoinTable(env, Inner, on, lt, rt, leftWidth, rightWidth).Table?
    ensures lt.Table? && rt.Table?
    ensures JoinTable(env, Inner, on, lt, rt, leftWidth, rightWidth).rows == Pairs(lt.rows, rt.rows, OnPair(env, on))
  {
  }

  /**
   Predicate pushdown on tables: where neither order of evaluation meets a failure, filtering
   the join gives the same rows, in the same order, as joining filtered sides.
   */
  lemma PushdownExact(env: Env, e: Expr, on: Option<Expr>, lt: TableResult, rt: TableResult, lts: seq<DataType>, rts: seq<DataType>)
    requires lt.Table? ==> RowsConform(lt.rows, lts)
    requires rt.Table? ==> RowsConform(rt.rows, rts)
    requires EquiJoinSafe(on, lts, rts) && Resolved(e, |lts| + |rts|)
    ensures var whole := FilterTable(env, e, JoinTable(env, Inner, on, lt, rt, |lts|, |rts|));
            var pushed := PushedTable(env, e, on, lt, rt, |lts|, |rts|);
            whole.Table? && pushed.Table? ==> whole == pushed
  {
    var parts := PartitionConjuncts(SplitAnd(e), |lts|);
    var lp, rp, pp := CombinePredicates(parts.left), CombinePredicates(parts.right), CombinePredicates(parts.post);
    var lf, rf := FilterTableIf(env, lp, lt), FilterTableIf(env, rp, rt);
    FilteredConforms(env, lp, lt, lts);
    FilteredConforms(env, rp, rt, rts);
    InnerJoinExact(env, on, lf, rf, lts, rts);
    var all := JoinTable(env, Inner, on, lt, rt, |lts|, |rts|);
    var joined := JoinTable(env, Inner, on, lf, rf, |lts|, |rts|);
    if FilterTable(env, e, all).Table? && FilterTableIf(env, pp, joined).Table? {
      FilterIfKeeps(env, pp, joined);
      InnerJoinRows(env, on, lt, rt, |lts|, |rts|);
      InnerJoinRows(env, on, lf, rf, |lts|, |rts|);
      FilterIfKeeps(env, lp, lt);
      FilterIfKeeps(env, rp, rt);
      PushdownRows(env, e, parts, OnPair(env, on), lt.rows, rt.rows, lts, rts);
    }
  }

  /** Pushing a filter down cannot make a failing side succeed. */
  lemma PushedFails(env: Env, e: Expr, on: Option<Expr>, lt: TableResult, rt: TableResult, leftWidth: nat, rightWidth: nat)
    requires lt.Failed? || rt.Failed?
    ensures PushedTable(env, e, on, lt, rt, leftWidth, rightWidth) == Failed
    ensures FilterTable(env, e, JoinTable(env, Inner, on, lt, rt, leftWidth, rightWidth)) == Failed
  {
  }
}
