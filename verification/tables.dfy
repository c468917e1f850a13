/**
 What the executors of `crates/executor/src/executor` compute for each relational operator:
 sequences of rows, or failure when an expression fails on some row.
 */
module Tables {
  import opened Wrappers
  import opened Ir
  import opened Evaluator
  import opened EquiKeys

  datatype TableResult = Table(rows: seq<Row>) | Failed

  datatype JoinType = Inner | LeftOuter | RightOuter | FullOuter | Cross

  datatype SetOperationType = Union | Intersect | Except

  // ---------- Row sequences ----------

  function Keep(rows: seq<Row>, f: Row -> bool): (r: seq<Row>)
    ensures forall x :: x in r <==> x in rows && f(x)
  {
    if rows == [] then [] else (if f(rows[0]) then [rows[0]] else []) + Keep(rows[1..], f)
  }

  function Matches(l: Row, rs: seq<Row>, f: (Row, Row) -> bool): (r: seq<Row>)
    ensures forall x :: x in r <==> exists q :: q in rs && f(l, q) && x == l + q
  {
    if rs == [] then [] else (if f(l, rs[0]) then [l + rs[0]] else []) + Matches(l, rs[1..], f)
  }

  /** Matching pairs, left-major, as both the nested loop and the probe of a hash table produce them. */
  function Pairs(ls: seq<Row>, rs: seq<Row>, f: (Row, Row) -> bool): (r: seq<Row>)
    ensures forall x :: x in r <==> exists l, q :: l in ls && q in rs && f(l, q) && x == l + q
  {
    if ls == [] then [] else Matches(ls[0], rs, f) + Pairs(ls[1..], rs, f)
  }

  function Nulls(n: nat): (r: Row)
    ensures |r| == n && forall v | v in r :: v.Null?
  {
    seq(n, i => Null)
  }

  function LeftJoinRows(ls: seq<Row>, rs: seq<Row>, f: (Row, Row) -> bool, rightWidth: nat): seq<Row> {
    if ls == [] then []
    else
      var m := Matches(ls[0], rs, f);
      (if m == [] then [ls[0] + Nulls(rightWidth)] else m) + LeftJoinRows(ls[1..], rs, f, rightWidth)
  }

  function MatchesOnLeft(ls: seq<Row>, r: Row, f: (Row, Row) -> bool): seq<Row> {
    if ls == [] then [] else (if f(ls[0], r) then [ls[0] + r] else []) + MatchesOnLeft(ls[1..], r, f)
  }

  function RightJoinRows(ls: seq<Row>, rs: seq<Row>, f: (Row, Row) -> bool, leftWidth: nat): seq<Row> {
    if rs == [] then []
    else
      var m := MatchesOnLeft(ls, rs[0], f);
      (if m == [] then [Nulls(leftWidth) + rs[0]] else m) + RightJoinRows(ls, rs[1..], f, leftWidth)
  }

  function UnmatchedRight(ls: seq<Row>, rs: seq<Row>, f: (Row, Row) -> bool, leftWidth: nat): seq<Row> {
    if rs == [] then []
    else (if MatchesOnLeft(ls, rs[0], f) == [] then [Nulls(leftWidth) + rs[0]] else []) + UnmatchedRight(ls, rs[1..], f, leftWidth)
  }

  /** First occurrences, in order. */
  function Dedup(rows: seq<Row>): (r: seq<Row>)
    ensures forall x :: x in r <==> x in rows
    decreases |rows|
  {
    if rows == [] then []
    else
      var front, last := rows[..|rows| - 1], rows[|rows| - 1];
      assert rows == front + [last];
      Dedup(front) + (if last in front then [] else [last])
  }

  function IntersectAll(ls: seq<Row>, counts: multiset<Row>): seq<Row> {
    if ls == [] then []
    else if ls[0] in counts then [ls[0]] + IntersectAll(ls[1..], counts - multiset{ls[0]})
    else IntersectAll(ls[1..], counts)
  }

  function ExceptAll(ls: seq<Row>, counts: multiset<Row>): seq<Row> {
    if ls == [] then []
    else if ls[0] in counts then ExceptAll(ls[1..], counts - multiset{ls[0]})
    else [ls[0]] + ExceptAll(ls[1..], counts)
  }

  // ---------- Operators ----------

  predicate AllEval(env: Env, e: Expr, rows: seq<Row>) {
    forall r | r in rows :: Eval(env, e, r).Val?
  }

  function FilterTable(env: Env, predicate_: Expr, t: TableResult): TableResult {
    if t.Failed? || !AllEval(env, predicate_, t.rows) then Failed
    else Table(Keep(t.rows, r => IsTrue(Eval(env, predicate_, r))))
  }

  function ProjectTable(env: Env, es: seq<Expr>, t: TableResult): TableResult {
    if t.Failed? || exists e | e in es :: !AllEval(env, e, t.rows) then Failed
    else Table(seq(|t.rows|, i requires 0 <= i < |t.rows| => ValuesOf(Successes(EvalAll(env, es, t.rows[i])))))
  }

  /** Outcomes known to be values; a failure, which the caller has excluded, reads as NULL. */
  function Successes(rs: seq<Outcome>): (r: seq<Outcome>)
    ensures AllVal(r) && |r| == |rs|
    ensures AllVal(rs) ==> r == rs
  {
    seq(|rs|, i requires 0 <= i < |rs| => if rs[i].Val? then rs[i] else Val(Null))
  }

  predicate AllPairsEval(env: Env, condition: Option<Expr>, ls: seq<Row>, rs: seq<Row>) {
    condition.Some? ==> forall l, r | l in ls && r in rs :: Eval(env, condition.value, l + r).Val?
  }

  function OnPair(env: Env, condition: Option<Expr>): (Row, Row) -> bool {
    (l, r) => condition.Some? ==> IsTrue(Eval(env, condition.value, l + r))
  }

  function JoinTable(env: Env, joinType: JoinType, condition: Option<Expr>, lt: TableResult, rt: TableResult,
                     leftWidth: nat, rightWidth: nat): TableResult
  {
    if lt.Failed? || rt.Failed? then Failed
    else if joinType.Cross? then Table(Pairs(lt.rows, rt.rows, (l, r) => true))
    else if !AllPairsEval(env, condition, lt.rows, rt.rows) then Failed
    else
      var f := OnPair(env, condition);
      Table(match joinType
            case LeftOuter => LeftJoinRows(lt.rows, rt.rows, f, rightWidth)
            case RightOuter => RightJoinRows(lt.rows, rt.rows, f, leftWidth)
            case FullOuter => LeftJoinRows(lt.rows, rt.rows, f, rightWidth) + UnmatchedRight(lt.rows, rt.rows, f, leftWidth)
            case _ => Pairs(lt.rows, rt.rows, f))
  }

  predicate KeysEval(env: Env, keys: seq<Expr>, rows: seq<Row>) {
    forall e | e in keys :: AllEval(env, e, rows)
  }

  function OnKeys(env: Env, k: JoinKeys): (Row, Row) -> bool {
    (l, r) => |k.left| == |k.right| && HashMatch(env, k, l, r)
  }

  function HashJoinTable(env: Env, k: JoinKeys, lt: TableResult, rt: TableResult): TableResult {
    if lt.Failed? || rt.Failed? || !KeysEval(env, k.left, lt.rows) || !KeysEval(env, k.right, rt.rows) then Failed
    else Table(Pairs(lt.rows, rt.rows, OnKeys(env, k)))
  }

  function Min(a: nat, b: nat): nat {
    if a < b then a else b
  }

  function LimitTable(limit: Option<nat>, offset: Option<nat>, t: TableResult): TableResult {
    if t.Failed? then Failed
    else
      var start := Min(if offset.Some? then offset.value else 0, |t.rows|);
      var rest := t.rows[start..];
      Table(if limit.Some? then rest[..Min(limit.value, |rest|)] else rest)
  }

  function DistinctTable(t: TableResult): TableResult {
    if t.Failed? then Failed else Table(Dedup(t.rows))
  }

  function SetOpTable(op: SetOperationType, all: bool, lt: TableResult, rt: TableResult): TableResult {
    if lt.Failed? || rt.Failed? then Failed
    else
      var l, r := lt.rows, rt.rows;
      Table(match op
            case Union => if all then l + r else Dedup(l + r)
            case Intersect => if all then IntersectAll(l, multiset(r)) else Dedup(Keep(l, x => x in r))
            case Except => if all then ExceptAll(l, multiset(r)) else Dedup(Keep(l, x => x !in r)))
  }

  /** The executor's union of any number of inputs: concatenate, then drop repeats unless ALL. */
  function UnionTable(all: bool, ts: seq<TableResult>): TableResult {
    if exists t | t in ts :: t.Failed? then Failed
    else Table(if all then ConcatRows(ts) else Dedup(ConcatRows(ts)))
  }

  function ConcatRows(ts: seq<TableResult>): seq<Row>
    requires forall t | t in ts :: t.Table?
    decreases |ts|
  {
    if ts == [] then [] else ConcatRows(ts[..|ts| - 1]) + ts[|ts| - 1].rows
  }

  function ValuesTable(env: Env, values: seq<seq<Expr>>): TableResult {
    if exists es | es in values :: !AllVal(EvalAll(env, es, [])) then Failed
    else Table(seq(|values|, i requires 0 <= i < |values| => ValuesOf(Successes(EvalAll(env, values[i], [])))))
  }

  // ---------- Lemmas about row sequences ----------

  lemma {:induction false} KeepCongruence(rows: seq<Row>, f: Row -> bool, g: Row -> bool)
    requires forall r | r in rows :: f(r) == g(r)
    ensures Keep(rows, f) == Keep(rows, g)
  {
    if rows != [] {
      KeepCongruence(rows[1..], f, g);
    }
  }

  lemma {:induction false} KeepConcat(a: seq<Row>, b: seq<Row>, f: Row -> bool)
    ensures Keep(a + b, f) == Keep(a, f) + Keep(b, f)
  {
    if a == [] {
      assert a + b == b;
    } else {
      assert (a + b)[0] == a[0] && (a + b)[1..] == a[1..] + b;
      KeepConcat(a[1..], b, f);
    }
  }

  lemma {:induction false} KeepAll(rows: seq<Row>, f: Row -> bool)
    requires forall r | r in rows :: f(r)
    ensures Keep(rows, f) == rows
  {
    if rows != [] {
      KeepAll(rows[1..], f);
    }
  }

  lemma {:induction false} MatchesCongruence(l: Row, rs: seq<Row>, f: (Row, Row) -> bool, g: (Row, Row) -> bool)
    requires forall r | r in rs :: f(l, r) == g(l, r)
    ensures Matches(l, rs, f) == Matches(l, rs, g)
  {
    if rs != [] {
      MatchesCongruence(l, rs[1..], f, g);
    }
  }

  lemma {:induction false} PairsCongruence(ls: seq<Row>, rs: seq<Row>, f: (Row, Row) -> bool, g: (Row, Row) -> bool)
    requires forall l, r | l in ls && r in rs :: f(l, r) == g(l, r)
    ensures Pairs(ls, rs, f) == Pairs(ls, rs, g)
  {
    if ls != [] {
      MatchesCongruence(ls[0], rs, f, g);
      PairsCongruence(ls[1..], rs, f, g);
    }
  }

  /** Filtering the matches of one left row, when the filter splits into a right part and a rest. */
  lemma {:induction false} KeepMatches(l: Row, rs: seq<Row>, c: (Row, Row) -> bool, p: Row -> bool, pr: Row -> bool, q: Row -> bool)
    requires forall r | r in rs && c(l, r) :: p(l + r) <==> pr(r) && q(l + r)
    ensures Keep(Matches(l, rs, c), p) == Keep(Matches(l, Keep(rs, pr), c), q)
  {
    if rs != [] {
      var r, rest := rs[0], rs[1..];
      KeepMatches(l, rest, c, p, pr, q);
      KeepConcat(if c(l, r) then [l + r] else [], Matches(l, rest, c), p);
      var kept := Keep(rest, pr);
      if pr(r) {
        assert Keep(rs, pr) == [r] + kept && ([r] + kept)[1..] == kept;
        KeepConcat(if c(l, r) then [l + r] else [], Matches(l, kept, c), q);
      } else {
        assert Keep(rs, pr) == kept;
      }
      assert Keep([l + r], p) == (if p(l + r) then [l + r] else []);
      assert Keep([l + r], q) == (if q(l + r) then [l + r] else []);
    }
  }

  lemma {:induction false} NoMatches(l: Row, rs: seq<Row>, c: (Row, Row) -> bool, p: Row -> bool)
    requires forall r | r in rs && c(l, r) :: !p(l + r)
    ensures Keep(Matches(l, rs, c), p) == []
  {
    if rs != [] {
      NoMatches(l, rs[1..], c, p);
      KeepConcat(if c(l, rs[0]) then [l + rs[0]] else [], Matches(l, rs[1..], c), p);
    }
  }

  /**
   Filter pushdown on row sequences: filtering the matching pairs by `p` is joining the
   filtered sides and filtering by the rest, in the same order.
   */
  lemma {:induction false} KeepPairs(ls: seq<Row>, rs: seq<Row>, c: (Row, Row) -> bool,
                                     p: Row -> bool, pl: Row -> bool, pr: Row -> bool, q: Row -> bool)
    requires forall l, r | l in ls && r in rs && c(l, r) :: p(l + r) <==> pl(l) && pr(r) && q(l + r)
    ensures Keep(Pairs(ls, rs, c), p) == Keep(Pairs(Keep(ls, pl), Keep(rs, pr), c), q)
  {
    if ls != [] {
      var l, rest := ls[0], ls[1..];
      KeepPairs(rest, rs, c, p, pl, pr, q);
      KeepConcat(Matches(l, rs, c), Pairs(rest, rs, c), p);
      var kept := Keep(rest, pl);
      if pl(l) {
        assert Keep(ls, pl) == [l] + kept && ([l] + kept)[1..] == kept;
        KeepMatches(l, rs, c, p, pr, q);
        KeepConcat(Matches(l, Keep(rs, pr), c), Pairs(kept, Keep(rs, pr), c), q);
      } else {
        assert Keep(ls, pl) == kept;
        NoMatches(l, rs, c, p);
      }
    }
  }

  /** Dropping repeats early changes nothing: the front of a concatenation may be deduplicated first. */
  lemma {:induction false} DedupAbsorbs(a: seq<Row>, b: seq<Row>)
    ensures Dedup(Dedup(a) + b) == Dedup(a + b)
    decreases |b|
  {
    hide Dedup;
    if b == [] {
      assert a + b == a && Dedup(a) + b == Dedup(a);
      DedupIdempotent(a);
    } else {
      var front, last := b[..|b| - 1], b[|b| - 1];
      DedupAbsorbs(a, front);
      assert Dedup(a) + b == (Dedup(a) + front) + [last] && a + b == (a + front) + [last];
      DedupAppend(Dedup(a) + front, last);
      DedupAppend(a + front, last);
      assert last in Dedup(a) + front <==> last in a + front;
    }
  }

  lemma DedupAppend(front: seq<Row>, last: Row)
    ensures Dedup(front + [last]) == Dedup(front) + (if last in front then [] else [last])
  {
    assert (front + [last])[..|front|] == front;
  }

  lemma {:induction false} DedupIdempotent(a: seq<Row>)
    ensures Dedup(Dedup(a)) == Dedup(a)
    decreases |a|
  {
    if a != [] {
      var front, last := a[..|a| - 1], a[|a| - 1];
      DedupIdempotent(front);
      if last !in front {
        assert Dedup(a) == Dedup(front) + [last];
        assert (Dedup(front) + [last])[..|Dedup(front)|] == Dedup(front);
      } else {
        assert Dedup(a) == Dedup(front);
      }
    }
  }
}
