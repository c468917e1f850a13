/**
 What the relational operators of `tables.dfy` mean as bags of rows: outer joins add exactly the rows without
 a match, set operations with ALL are those of bags, without ALL those of sets, and a limit is a stretch.
 */
module TableLaws {
  import opened Wrappers
  import opened Ir
  import opened Evaluator
  import opened EquiKeys
  import opened Tables

  // ---------- Filters, projections and constant rows ----------

  lemma {:induction false} KeptTimes(rows: seq<Row>, f: Row -> bool, x: Row)
    ensures multiset(Keep(rows, f))[x] == if f(x) then multiset(rows)[x] else 0
  {
    if rows != [] {
      assert rows == [rows[0]] + rows[1..];
      KeptTimes(rows[1..], f, x);
    }
  }

  /** A filter fails exactly where its condition fails on some row, and keeps each row as often as it is there if the condition is TRUE on it. */
  lemma FilterMeans(env: Env, e: Expr, rows: seq<Row>)
    ensures var t := FilterTable(env, e, Table(rows));
            && (t.Failed? <==> exists r :: r in rows && Eval(env, e, r).Fail?)
            && (t.Table? ==> forall x :: multiset(t.rows)[x] == if IsTrue(Eval(env, e, x)) then multiset(rows)[x] else 0)
  {
    hide Eval, Keep;
    var f := (r: Row) => IsTrue(Eval(env, e, r));
    if AllEval(env, e, rows) {
      KeepCongruence(rows, r => IsTrue(Eval(env, e, r)), f);
      forall x
        ensures multiset(FilterTable(env, e, Table(rows)).rows)[x] == if IsTrue(Eval(env, e, x)) then multiset(rows)[x] else 0
      {
        KeptTimes(rows, f, x);
      }
    }
  }

  /** A projection fails exactly where an item fails on some row, and else has on each row the values of the items. */
  lemma ProjectMeans(env: Env, es: seq<Expr>, rows: seq<Row>)
    ensures var t := ProjectTable(env, es, Table(rows));
            && (t.Failed? <==> exists e, r :: e in es && r in rows && Eval(env, e, r).Fail?)
            && (t.Table? ==> |t.rows| == |rows| && forall i | 0 <= i < |rows| ::
                  |t.rows[i]| == |es| && forall k | 0 <= k < |es| :: Eval(env, es[k], rows[i]) == Val(t.rows[i][k]))
  {
    hide Eval;
    if !exists e, r :: e in es && r in rows && Eval(env, e, r).Fail? {
      forall e | e in es
        ensures AllEval(env, e, rows)
      {
      }
      forall i, k | 0 <= i < |rows| && 0 <= k < |es|
        ensures Eval(env, es[k], rows[i]).Val?
      {
        assert es[k] in es && rows[i] in rows;
      }
      forall i | 0 <= i < |rows|
        ensures AllVal(EvalAll(env, es, rows[i]))
      {
      }
    }
  }

  /** Constant rows fail exactly where one of their expressions does, and else are the values of the expressions. */
  lemma ValuesMeans(env: Env, values: seq<seq<Expr>>)
    ensures var t := ValuesTable(env, values);
            && (t.Failed? <==> exists i, k | 0 <= i < |values| && 0 <= k < |values[i]| :: Eval(env, values[i][k], []).Fail?)
            && (t.Table? ==> |t.rows| == |values| && forall i | 0 <= i < |values| ::
                  |t.rows[i]| == |values[i]| && forall k | 0 <= k < |values[i]| :: Eval(env, values[i][k], []) == Val(t.rows[i][k]))
  {
    hide Eval;
    if i, k :| 0 <= i < |values| && 0 <= k < |values[i]| && Eval(env, values[i][k], []).Fail? {
      assert values[i] in values && EvalAll(env, values[i], [])[k] in EvalAll(env, values[i], []);
    } else {
      forall es | es in values
        ensures AllVal(EvalAll(env, es, []))
      {
        var i :| 0 <= i < |values| && values[i] == es;
      }
    }
  }

  // ---------- Joins ----------

  /** The pairs of one right row. */
  lemma {:induction false} PairsOfOne(ls: seq<Row>, r: Row, f: (Row, Row) -> bool)
    ensures Pairs(ls, [r], f) == MatchesOnLeft(ls, r, f)
  {
    if ls != [] {
      PairsOfOne(ls[1..], r, f);
      assert [r][1..] == [];
      assert Matches(ls[0], [r], f) == if f(ls[0], r) then [ls[0] + r] else [];
    }
  }

  lemma {:induction false} MatchesConcat(l: Row, a: seq<Row>, b: seq<Row>, f: (Row, Row) -> bool)
    ensures Matches(l, a + b, f) == Matches(l, a, f) + Matches(l, b, f)
    decreases |a|
  {
    if a == [] {
      assert a + b == b;
    } else {
      assert (a + b)[0] == a[0] && (a + b)[1..] == a[1..] + b;
      MatchesConcat(l, a[1..], b, f);
    }
  }

  /** As bags, pairs split on the right too. */
  lemma {:induction false} PairsSplitRight(ls: seq<Row>, a: seq<Row>, b: seq<Row>, f: (Row, Row) -> bool)
    ensures multiset(Pairs(ls, a + b, f)) == multiset(Pairs(ls, a, f)) + multiset(Pairs(ls, b, f))
  {
    if ls != [] {
      MatchesConcat(ls[0], a, b, f);
      PairsSplitRight(ls[1..], a, b, f);
    }
  }

  predicate HasMatch(l: Row, rs: seq<Row>, f: (Row, Row) -> bool) {
    exists r :: r in rs && f(l, r)
  }

  predicate HasLeftMatch(ls: seq<Row>, r: Row, f: (Row, Row) -> bool) {
    exists l :: l in ls && f(l, r)
  }

  /** The left rows without a match, in order. */
  function Unmatched(ls: seq<Row>, rs: seq<Row>, f: (Row, Row) -> bool): seq<Row> {
    Keep(ls, l => !HasMatch(l, rs, f))
  }

  function UnmatchedOnRight(ls: seq<Row>, rs: seq<Row>, f: (Row, Row) -> bool): seq<Row> {
    Keep(rs, r => !HasLeftMatch(ls, r, f))
  }

  function PadRight(rows: seq<Row>, width: nat): (r: seq<Row>)
    ensures |r| == |rows|
    ensures forall i | 0 <= i < |r| :: r[i] == rows[i] + Nulls(width)
  {
    seq(|rows|, i requires 0 <= i < |rows| => rows[i] + Nulls(width))
  }

  function PadLeft(rows: seq<Row>, width: nat): (r: seq<Row>)
    ensures |r| == |rows|
    ensures forall i | 0 <= i < |r| :: r[i] == Nulls(width) + rows[i]
  {
    seq(|rows|, i requires 0 <= i < |rows| => Nulls(width) + rows[i])
  }

  lemma NoMatchIff(l: Row, rs: seq<Row>, f: (Row, Row) -> bool)
    ensures Matches(l, rs, f) == [] <==> !HasMatch(l, rs, f)
  {
    if Matches(l, rs, f) != [] {
      assert Matches(l, rs, f)[0] in Matches(l, rs, f);
    }
    if r :| r in rs && f(l, r) {
      assert l + r in Matches(l, rs, f);
    }
  }

  lemma {:induction false} NoLeftMatchIff(ls: seq<Row>, r: Row, f: (Row, Row) -> bool)
    ensures MatchesOnLeft(ls, r, f) == [] <==> !HasLeftMatch(ls, r, f)
  {
    if ls != [] {
      NoLeftMatchIff(ls[1..], r, f);
      assert ls == [ls[0]] + ls[1..];
    }
  }

  /** What a left row without a match becomes. */
  function PaddedLeft(l: Row, rs: seq<Row>, f: (Row, Row) -> bool, width: nat): seq<Row> {
    if HasMatch(l, rs, f) then [] else [l + Nulls(width)]
  }

  function PaddedRight(ls: seq<Row>, r: Row, f: (Row, Row) -> bool, width: nat): seq<Row> {
    if HasLeftMatch(ls, r, f) then [] else [Nulls(width) + r]
  }

  lemma LeftJoinStep(ls: seq<Row>, rs: seq<Row>, f: (Row, Row) -> bool, width: nat)
    requires ls != []
    ensures LeftJoinRows(ls, rs, f, width) == Matches(ls[0], rs, f) + PaddedLeft(ls[0], rs, f, width) + LeftJoinRows(ls[1..], rs, f, width)
    ensures Pairs(ls, rs, f) == Matches(ls[0], rs, f) + Pairs(ls[1..], rs, f)
  {
    NoMatchIff(ls[0], rs, f);
    hide HasMatch, Matches;
    var m, padded := Matches(ls[0], rs, f), PaddedLeft(ls[0], rs, f, width);
    assert m + padded == if m == [] then padded else m;
  }

  lemma PadRightStep(ls: seq<Row>, rs: seq<Row>, f: (Row, Row) -> bool, width: nat)
    requires ls != []
    ensures PadRight(Unmatched(ls, rs, f), width) == PaddedLeft(ls[0], rs, f, width) + PadRight(Unmatched(ls[1..], rs, f), width)
  {
    UnmatchedStep(ls, rs, f);
    hide HasMatch, Unmatched;
  }

  /** A left outer join has the matching pairs, and each left row without a match once, with NULLs on the right. */
  lemma {:induction false} LeftJoinMeans(ls: seq<Row>, rs: seq<Row>, f: (Row, Row) -> bool, rightWidth: nat)
    ensures multiset(LeftJoinRows(ls, rs, f, rightWidth))
            == multiset(Pairs(ls, rs, f)) + multiset(PadRight(Unmatched(ls, rs, f), rightWidth))
  {
    if ls != [] {
      hide *;
      LeftJoinStep(ls, rs, f, rightWidth);
      PadRightStep(ls, rs, f, rightWidth);
      LeftJoinMeans(ls[1..], rs, f, rightWidth);
    }
  }

  lemma UnmatchedStep(ls: seq<Row>, rs: seq<Row>, f: (Row, Row) -> bool)
    requires ls != []
    ensures Unmatched(ls, rs, f) == (if HasMatch(ls[0], rs, f) then [] else [ls[0]]) + Unmatched(ls[1..], rs, f)
  {
  }

  lemma UnmatchedOnRightStep(ls: seq<Row>, rs: seq<Row>, f: (Row, Row) -> bool)
    requires rs != []
    ensures UnmatchedOnRight(ls, rs, f) == (if HasLeftMatch(ls, rs[0], f) then [] else [rs[0]]) + UnmatchedOnRight(ls, rs[1..], f)
  {
  }

  lemma RightJoinStep(ls: seq<Row>, rs: seq<Row>, f: (Row, Row) -> bool, width: nat)
    requires rs != []
    ensures RightJoinRows(ls, rs, f, width) == MatchesOnLeft(ls, rs[0], f) + PaddedRight(ls, rs[0], f, width) + RightJoinRows(ls, rs[1..], f, width)
  {
    NoLeftMatchIff(ls, rs[0], f);
    hide HasLeftMatch, MatchesOnLeft;
    var m, padded := MatchesOnLeft(ls, rs[0], f), PaddedRight(ls, rs[0], f, width);
    assert m + padded == if m == [] then padded else m;
  }

  lemma RightPairsStep(ls: seq<Row>, rs: seq<Row>, f: (Row, Row) -> bool)
    requires rs != []
    ensures multiset(Pairs(ls, rs, f)) == multiset(MatchesOnLeft(ls, rs[0], f)) + multiset(Pairs(ls, rs[1..], f))
  {
    hide *;
    PairsOfOne(ls, rs[0], f);
    PairsSplitRight(ls, [rs[0]], rs[1..], f);
    assert [rs[0]] + rs[1..] == rs;
  }

  lemma PadLeftStep(ls: seq<Row>, rs: seq<Row>, f: (Row, Row) -> bool, width: nat)
    requires rs != []
    ensures PadLeft(UnmatchedOnRight(ls, rs, f), width) == PaddedRight(ls, rs[0], f, width) + PadLeft(UnmatchedOnRight(ls, rs[1..], f), width)
  {
    UnmatchedOnRightStep(ls, rs, f);
    hide HasLeftMatch, UnmatchedOnRight;
  }

  /** A right outer join has the matching pairs, and each right row without a match once, with NULLs on the left. */
  lemma {:induction false} RightJoinMeans(ls: seq<Row>, rs: seq<Row>, f: (Row, Row) -> bool, leftWidth: nat)
    ensures multiset(RightJoinRows(ls, rs, f, leftWidth))
            == multiset(Pairs(ls, rs, f)) + multiset(PadLeft(UnmatchedOnRight(ls, rs, f), leftWidth))
  {
    if rs == [] {
      NoRightRows(ls, f);
    } else {
      hide *;
      RightJoinStep(ls, rs, f, leftWidth);
      RightPairsStep(ls, rs, f);
      PadLeftStep(ls, rs, f, leftWidth);
      RightJoinMeans(ls, rs[1..], f, leftWidth);
    }
  }

  lemma {:induction false} NoRightRows(ls: seq<Row>, f: (Row, Row) -> bool)
    ensures Pairs(ls, [], f) == []
  {
    if ls != [] {
      NoRightRows(ls[1..], f);
    }
  }

  lemma {:induction false} UnmatchedRightIs(ls: seq<Row>, rs: seq<Row>, f: (Row, Row) -> bool, leftWidth: nat)
    ensures UnmatchedRight(ls, rs, f, leftWidth) == PadLeft(UnmatchedOnRight(ls, rs, f), leftWidth)
  {
    if rs != [] {
      UnmatchedRightIs(ls, rs[1..], f, leftWidth);
      NoLeftMatchIff(ls, rs[0], f);
      hide HasLeftMatch, MatchesOnLeft, Keep;
      UnmatchedOnRightStep(ls, rs, f);
    }
  }

  /** A join fails exactly where its condition fails on some pair. */
  lemma JoinFails(env: Env, joinType: JoinType, condition: Option<Expr>, ls: seq<Row>, rs: seq<Row>, leftWidth: nat, rightWidth: nat)
    requires !joinType.Cross?
    ensures JoinTable(env, joinType, condition, Table(ls), Table(rs), leftWidth, rightWidth).Failed?
            <==> condition.Some? && exists l, r :: l in ls && r in rs && Eval(env, condition.value, l + r).Fail?
  {
    hide Eval, Pairs, LeftJoinRows, RightJoinRows, UnmatchedRight;
  }

  /** The rows an outer join adds to the matching pairs. */
  function PaddedRows(joinType: JoinType, ls: seq<Row>, rs: seq<Row>, f: (Row, Row) -> bool, leftWidth: nat, rightWidth: nat): seq<Row> {
    (if joinType.LeftOuter? || joinType.FullOuter? then PadRight(Unmatched(ls, rs, f), rightWidth) else [])
    + (if joinType.RightOuter? || joinType.FullOuter? then PadLeft(UnmatchedOnRight(ls, rs, f), leftWidth) else [])
  }

  lemma LeftRowsMean(ls: seq<Row>, rs: seq<Row>, f: (Row, Row) -> bool, leftWidth: nat, rightWidth: nat)
    ensures multiset(LeftJoinRows(ls, rs, f, rightWidth)) == multiset(Pairs(ls, rs, f)) + multiset(PaddedRows(LeftOuter, ls, rs, f, leftWidth, rightWidth))
  {
    assert PaddedRows(LeftOuter, ls, rs, f, leftWidth, rightWidth) == PadRight(Unmatched(ls, rs, f), rightWidth);
    hide *;
    LeftJoinMeans(ls, rs, f, rightWidth);
  }

  lemma RightRowsMean(ls: seq<Row>, rs: seq<Row>, f: (Row, Row) -> bool, leftWidth: nat, rightWidth: nat)
    ensures multiset(RightJoinRows(ls, rs, f, leftWidth)) == multiset(Pairs(ls, rs, f)) + multiset(PaddedRows(RightOuter, ls, rs, f, leftWidth, rightWidth))
  {
    assert PaddedRows(RightOuter, ls, rs, f, leftWidth, rightWidth) == PadLeft(UnmatchedOnRight(ls, rs, f), leftWidth);
    hide *;
    RightJoinMeans(ls, rs, f, leftWidth);
  }

  lemma FullRowsMean(ls: seq<Row>, rs: seq<Row>, f: (Row, Row) -> bool, leftWidth: nat, rightWidth: nat)
    ensures multiset(LeftJoinRows(ls, rs, f, rightWidth) + UnmatchedRight(ls, rs, f, leftWidth))
            == multiset(Pairs(ls, rs, f)) + multiset(PaddedRows(FullOuter, ls, rs, f, leftWidth, rightWidth))
  {
    assert PaddedRows(FullOuter, ls, rs, f, leftWidth, rightWidth)
        == PadRight(Unmatched(ls, rs, f), rightWidth) + PadLeft(UnmatchedOnRight(ls, rs, f), leftWidth);
    hide *;
    LeftJoinMeans(ls, rs, f, rightWidth);
    UnmatchedRightIs(ls, rs, f, leftWidth);
  }

  /** The rows of each type of join but a cross join. */
  function JoinRows(joinType: JoinType, ls: seq<Row>, rs: seq<Row>, f: (Row, Row) -> bool, leftWidth: nat, rightWidth: nat): seq<Row> {
    match joinType
    case LeftOuter => LeftJoinRows(ls, rs, f, rightWidth)
    case RightOuter => RightJoinRows(ls, rs, f, leftWidth)
    case FullOuter => LeftJoinRows(ls, rs, f, rightWidth) + UnmatchedRight(ls, rs, f, leftWidth)
    case _ => Pairs(ls, rs, f)
  }

  lemma JoinForm(env: Env, joinType: JoinType, condition: Option<Expr>, ls: seq<Row>, rs: seq<Row>, leftWidth: nat, rightWidth: nat)
    requires !joinType.Cross? && AllPairsEval(env, condition, ls, rs)
    ensures JoinTable(env, joinType, condition, Table(ls), Table(rs), leftWidth, rightWidth)
            == Table(JoinRows(joinType, ls, rs, OnPair(env, condition), leftWidth, rightWidth))
  {
    hide AllPairsEval, OnPair, Pairs, LeftJoinRows, RightJoinRows, UnmatchedRight;
  }

  lemma JoinRowsMean(joinType: JoinType, ls: seq<Row>, rs: seq<Row>, f: (Row, Row) -> bool, leftWidth: nat, rightWidth: nat)
    ensures multiset(JoinRows(joinType, ls, rs, f, leftWidth, rightWidth))
            == multiset(Pairs(ls, rs, f)) + multiset(PaddedRows(joinType, ls, rs, f, leftWidth, rightWidth))
  {
    if joinType.LeftOuter? {
      LeftRowsMean(ls, rs, f, leftWidth, rightWidth);
    } else if joinType.RightOuter? {
      RightRowsMean(ls, rs, f, leftWidth, rightWidth);
    } else if joinType.FullOuter? {
      FullRowsMean(ls, rs, f, leftWidth, rightWidth);
    } else {
      assert PaddedRows(joinType, ls, rs, f, leftWidth, rightWidth) == [];
    }
    hide Pairs, LeftJoinRows, RightJoinRows, UnmatchedRight, PaddedRows;
  }

  /** Otherwise it is the bag of its matching pairs, and for outer sides of the rows there without a match. */
  lemma JoinMeans(env: Env, joinType: JoinType, condition: Option<Expr>, ls: seq<Row>, rs: seq<Row>, leftWidth: nat, rightWidth: nat)
    requires !joinType.Cross? && AllPairsEval(env, condition, ls, rs)
    ensures var f := OnPair(env, condition);
            var t := JoinTable(env, joinType, condition, Table(ls), Table(rs), leftWidth, rightWidth);
            t.Table? && multiset(t.rows) == multiset(Pairs(ls, rs, f)) + multiset(PaddedRows(joinType, ls, rs, f, leftWidth, rightWidth))
  {
    hide *;
    JoinForm(env, joinType, condition, ls, rs, leftWidth, rightWidth);
    JoinRowsMean(joinType, ls, rs, OnPair(env, condition), leftWidth, rightWidth);
  }

  /** A cross join pairs every left row with every right one, whatever condition it is given. */
  lemma {:induction false} CrossMeans(env: Env, condition: Option<Expr>, ls: seq<Row>, rs: seq<Row>, leftWidth: nat, rightWidth: nat)
    ensures var t := JoinTable(env, Cross, condition, Table(ls), Table(rs), leftWidth, rightWidth);
            && t.Table? && |t.rows| == |ls| * |rs|
            && forall i, j | 0 <= i < |ls| && 0 <= j < |rs| :: ls[i] + rs[j] in t.rows
  {
    var f: (Row, Row) -> bool := (l, r) => true;
    PairsCongruence(ls, rs, (l, r) => true, f);
    AllPairs(ls, rs, f);
    hide Pairs;
    assert JoinTable(env, Cross, condition, Table(ls), Table(rs), leftWidth, rightWidth).rows == Pairs(ls, rs, f);
  }

  lemma {:induction false} AllPairs(ls: seq<Row>, rs: seq<Row>, f: (Row, Row) -> bool)
    requires forall l, r :: f(l, r)
    ensures |Pairs(ls, rs, f)| == |ls| * |rs|
  {
    if ls != [] {
      AllPairs(ls[1..], rs, f);
      AllMatches(ls[0], rs, f);
      hide Pairs;
      assert (|ls| - 1) * |rs| + |rs| == |ls| * |rs|;
      PairsHead(ls, rs, f);
    }
  }

  lemma PairsHead(ls: seq<Row>, rs: seq<Row>, f: (Row, Row) -> bool)
    requires ls != []
    ensures Pairs(ls, rs, f) == Matches(ls[0], rs, f) + Pairs(ls[1..], rs, f)
  {
  }

  lemma {:induction false} AllMatches(l: Row, rs: seq<Row>, f: (Row, Row) -> bool)
    requires forall r :: f(l, r)
    ensures |Matches(l, rs, f)| == |rs|
  {
    if rs != [] {
      AllMatches(l, rs[1..], f);
    }
  }

  // ---------- Set operations ----------

  predicate NoRepeats(rows: seq<Row>) {
    forall i, j | 0 <= i < j < |rows| :: rows[i] != rows[j]
  }

  lemma {:induction false} DedupOnce(rows: seq<Row>)
    ensures NoRepeats(Dedup(rows))
    decreases |rows|
  {
    if rows != [] {
      var front, last := rows[..|rows| - 1], rows[|rows| - 1];
      DedupOnce(front);
      assert last in Dedup(front) <==> last in front;
    }
  }

  /** Dropping repeats keeps first occurrences in order: what it keeps of a beginning it keeps first of the whole. */
  lemma {:induction false} DedupPrefix(rows: seq<Row>, k: nat)
    requires k <= |rows|
    ensures Dedup(rows[..k]) <= Dedup(rows)
    decreases |rows|
  {
    if k < |rows| {
      var n := |rows| - 1;
      DedupPrefix(rows[..n], k);
      assert rows[..n][..k] == rows[..k];
    } else {
      assert rows[..k] == rows;
    }
  }

  lemma {:induction false} IntersectAllIs(ls: seq<Row>, counts: multiset<Row>)
    ensures multiset(IntersectAll(ls, counts)) == multiset(ls) * counts
  {
    if ls != [] {
      assert ls == [ls[0]] + ls[1..];
      IntersectAllIs(ls[1..], if ls[0] in counts then counts - multiset{ls[0]} else counts);
    }
  }

  lemma {:induction false} ExceptAllIs(ls: seq<Row>, counts: multiset<Row>)
    ensures multiset(ExceptAll(ls, counts)) == multiset(ls) - counts
  {
    if ls != [] {
      assert ls == [ls[0]] + ls[1..];
      ExceptAllIs(ls[1..], if ls[0] in counts then counts - multiset{ls[0]} else counts);
    }
  }

  /** UNION, INTERSECT and EXCEPT: with ALL sum, meet and difference of bags, otherwise those of sets, each row once. */
  lemma SetOpMeans(op: SetOperationType, all: bool, l: seq<Row>, r: seq<Row>)
    ensures var t := SetOpTable(op, all, Table(l), Table(r));
            && t.Table?
            && (all ==> multiset(t.rows) == match op
                                            case Union => multiset(l) + multiset(r)
                                            case Intersect => multiset(l) * multiset(r)
                                            case Except => multiset(l) - multiset(r))
            && (!all ==> NoRepeats(t.rows) && forall x :: x in t.rows <==> match op
                                                                           case Union => x in l || x in r
                                                                           case Intersect => x in l && x in r
                                                                           case Except => x in l && x !in r)
  {
    IntersectAllIs(l, multiset(r));
    ExceptAllIs(l, multiset(r));
    hide Dedup, IntersectAll, ExceptAll, Keep;
    DedupOnce(l + r);
    DedupOnce(Keep(l, x => x in r));
    DedupOnce(Keep(l, x => x !in r));
  }

  // ---------- LIMIT and OFFSET ----------

  /** The rows from the offset on, as many as the limit allows. */
  lemma LimitMeans(limit: Option<nat>, offset: Option<nat>, rows: seq<Row>)
    ensures var t := LimitTable(limit, offset, Table(rows));
            var skipped := if offset.Some? then offset.value else 0;
            var left := if skipped < |rows| then |rows| - skipped else 0;
            && t.Table?
            && |t.rows| == (if limit.Some? && limit.value < left then limit.value else left)
            && forall i | 0 <= i < |t.rows| :: t.rows[i] == rows[skipped + i]
  {
  }
}
