/**
 Equi-join keys of `crates/optimizer/src/planner.rs`: extracting hash keys from a join
 condition, the meaning of a hash match, and rebuilding the condition from the keys.
 */
module EquiKeys {
  import opened Wrappers
  import opened Ir
  import opened Evaluator
  import opened Predicates

  datatype ExprSide = LeftSide | RightSide

  datatype JoinKeys = JoinKeys(left: seq<Expr>, right: seq<Expr>)

  function ClassifyExprSide(e: Expr, leftWidth: nat): Option<ExprSide> {
    if e.Column? && e.index.Some? then Some(if e.index.value < leftWidth then LeftSide else RightSide) else None
  }

  /** A column moved from the joined row to the right row. */
  function AdjustRightExpr(e: Expr, leftWidth: nat): Expr {
    if e.Column? then Column(e.table, e.name, if e.index.None? then None else Some(SaturatingSub(e.index.value, leftWidth)))
    else e
  }

  /** The key pair of one conjunct: a left column equated with a right one, in either order. */
  function KeyOf(e: Expr, leftWidth: nat): Option<(Expr, Expr)> {
    if e.Binary? && e.op == Eq then
      match (ClassifyExprSide(e.left, leftWidth), ClassifyExprSide(e.right, leftWidth))
      case (Some(LeftSide), Some(RightSide)) => Some((e.left, AdjustRightExpr(e.right, leftWidth)))
      case (Some(RightSide), Some(LeftSide)) => Some((e.right, AdjustRightExpr(e.left, leftWidth)))
      case _ => None
    else None
  }

  /** The keys of a condition, if every conjunct is a key pair. */
  function KeysOf(e: Expr, leftWidth: nat): (r: Option<JoinKeys>)
    ensures r.Some? ==> |r.value.left| == |r.value.right| == |SplitAnd(e)|
  {
    if IsAnd(e) then
      var l := KeysOf(e.left, leftWidth);
      var r := KeysOf(e.right, leftWidth);
      if l.None? || r.None? then None
      else Some(JoinKeys(l.value.left + r.value.left, l.value.right + r.value.right))
    else
      var k := KeyOf(e, leftWidth);
      if k.None? then None else Some(JoinKeys([k.value.0], [k.value.1]))
  }

  /** The source's recursion, which pushes onto the two key lists as it goes and stops at the first conjunct that is no key. */
  method CollectEquiKeys(e: Expr, leftWidth: nat, leftKeys: seq<Expr>, rightKeys: seq<Expr>)
    returns (ok: bool, left: seq<Expr>, right: seq<Expr>)
    ensures ok == KeysOf(e, leftWidth).Some?
    ensures ok ==> left == leftKeys + KeysOf(e, leftWidth).value.left
    ensures ok ==> right == rightKeys + KeysOf(e, leftWidth).value.right
    decreases e
  {
    hide ClassifyExprSide, AdjustRightExpr, SplitAnd;
    left, right := leftKeys, rightKeys;
    if !e.Binary? {
      return false, left, right;
    }
    if e.op == And {
      ok, left, right := CollectEquiKeys(e.left, leftWidth, left, right);
      if ok {
        ok, left, right := CollectEquiKeys(e.right, leftWidth, left, right);
      }
    } else if e.op == Eq {
      match (ClassifyExprSide(e.left, leftWidth), ClassifyExprSide(e.right, leftWidth)) {
        case (Some(LeftSide), Some(RightSide)) =>
          left, right, ok := left + [e.left], right + [AdjustRightExpr(e.right, leftWidth)], true;
        case (Some(RightSide), Some(LeftSide)) =>
          left, right, ok := left + [e.right], right + [AdjustRightExpr(e.left, leftWidth)], true;
        case _ =>
          ok := false;
      }
    } else {
      ok := false;
    }
  }

  method ExtractEquiJoinKeys(e: Expr, leftWidth: nat) returns (r: Option<JoinKeys>)
    ensures r == KeysOf(e, leftWidth)
  {
    var ok, left, right := CollectEquiKeys(e, leftWidth, [], []);
    assert ok ==> left == KeysOf(e, leftWidth).value.left && right == KeysOf(e, leftWidth).value.right;
    if !ok || left == [] {
      return None;
    }
    return Some(JoinKeys(left, right));
  }

  // ---------- Hash matches ----------

  /** Both key values are there, not NULL, and the same value: what the hash table compares. */
  predicate KeyMatch(a: Outcome, b: Outcome) {
    a.Val? && b.Val? && !a.v.Null? && !b.v.Null? && a.v == b.v
  }

  predicate HashMatch(env: Env, k: JoinKeys, l: Row, r: Row)
    requires |k.left| == |k.right|
  {
    forall i | 0 <= i < |k.left| :: KeyMatch(Eval(env, k.left[i], l), Eval(env, k.right[i], r))
  }

  /** An INT64 meets a FLOAT64: SQL equality compares them as numbers, the hash table never finds them equal. */
  predicate MixedNumbers(a: Outcome, b: Outcome) {
    a.Val? && b.Val? && ((a.v.Int64? && b.v.Float64?) || (a.v.Float64? && b.v.Int64?))
  }

  predicate NoMixedKeys(env: Env, k: JoinKeys, l: Row, r: Row)
    requires |k.left| == |k.right|
  {
    forall i | 0 <= i < |k.left| :: !MixedNumbers(Eval(env, k.left[i], l), Eval(env, k.right[i], r))
  }

  /** Keys are columns within the two rows. */
  predicate KeysInRange(k: JoinKeys, leftWidth: nat, rightWidth: nat) {
    && |k.left| == |k.right| > 0
    && (forall e | e in k.left :: e.Column? && e.index.Some? && e.index.value < leftWidth)
    && (forall e | e in k.right :: e.Column? && e.index.Some? && e.index.value < rightWidth)
  }

  predicate IsTruth(o: Outcome) {
    o.Val? && (o.v.Null? || o.v.Bool?)
  }

  lemma BinaryResolved(e: Expr, width: nat)
    requires e.Binary?
    ensures Resolved(e, width) <==> Resolved(e.left, width) && Resolved(e.right, width)
  {
    assert Children(e) == [e.left, e.right];
    assert e.left in Children(e) && e.right in Children(e);
  }

  lemma {:induction false} ExtractedKeysInRange(e: Expr, leftWidth: nat, rightWidth: nat)
    requires KeysOf(e, leftWidth).Some? && Resolved(e, leftWidth + rightWidth)
    ensures KeysInRange(KeysOf(e, leftWidth).value, leftWidth, rightWidth)
    decreases e
  {
    BinaryResolved(e, leftWidth + rightWidth);
    if IsAnd(e) {
      ExtractedKeysInRange(e.left, leftWidth, rightWidth);
      ExtractedKeysInRange(e.right, leftWidth, rightWidth);
    }
  }

  lemma {:induction false} ResolvedConjuncts(e: Expr, width: nat)
    requires Resolved(e, width)
    ensures forall c | c in SplitAnd(e) :: Resolved(c, width)
    decreases e
  {
    if IsAnd(e) {
      BinaryResolved(e, width);
      ResolvedConjuncts(e.left, width);
      ResolvedConjuncts(e.right, width);
    }
  }

  lemma EvalIndexed(env: Env, e: Expr, row: Row)
    requires e.Column? && e.index.Some? && e.index.value < |row|
    ensures Eval(env, e, row) == Val(row[e.index.value])
  {
  }

  /** The two columns of a key have the values the two sides of the condition have on the joined row, in one order or the other. */
  lemma KeySides(env: Env, e: Expr, l: Row, r: Row)
    requires KeyOf(e, |l|).Some? && Resolved(e, |l| + |r|)
    ensures e.Binary? && e.op == Eq
    ensures var k := KeyOf(e, |l|).value;
            var a, b := Eval(env, k.0, l), Eval(env, k.1, r);
            var x, y := Eval(env, e.left, l + r), Eval(env, e.right, l + r);
            a.Val? && b.Val? && ((x == a && y == b) || (x == b && y == a))
  {
    BinaryResolved(e, |l| + |r|);
    EvalIndexed(env, e.left, l + r);
    EvalIndexed(env, e.right, l + r);
  }

  lemma EqOfSides(env: Env, e: Expr, row: Row)
    requires e.Binary? && e.op == Eq && Eval(env, e.left, row).Val? && Eval(env, e.right, row).Val?
    ensures Eval(env, e, row) == Val(EqValues(Eval(env, e.left, row).v, Eval(env, e.right, row).v))
  {
    hide Eval, EqValues;
    EvalByChildren(env, e, row);
    var rs := EvalAll(env, Children(e), row);
    assert rs[0] == Eval(env, e.left, row) && rs[1] == Eval(env, e.right, row);
    assert AllVal(rs);
  }

  lemma EqMatches(x: Value, y: Value)
    ensures IsTruth(Val(EqValues(x, y))) && EqValues(x, y) == EqValues(y, x)
    ensures KeyMatch(Val(x), Val(y)) <==> IsTrue(Val(EqValues(x, y))) && !MixedNumbers(Val(x), Val(y))
  {
  }

  lemma KeyExact(env: Env, e: Expr, l: Row, r: Row)
    requires KeyOf(e, |l|).Some? && Resolved(e, |l| + |r|)
    ensures var k := KeyOf(e, |l|).value;
            var a, b := Eval(env, k.0, l), Eval(env, k.1, r);
            && IsTruth(Eval(env, e, l + r))
            && (KeyMatch(a, b) <==> IsTrue(Eval(env, e, l + r)) && !MixedNumbers(a, b))
  {
    hide *;
    var k := KeyOf(e, |l|).value;
    KeySides(env, e, l, r);
    EqOfSides(env, e, l + r);
    EqMatches(Eval(env, k.0, l).v, Eval(env, k.1, r).v);
  }

  lemma AndOfTruths(env: Env, e: Expr, row: Row)
    requires IsAnd(e) && IsTruth(Eval(env, e.left, row)) && IsTruth(Eval(env, e.right, row))
    ensures IsTruth(Eval(env, e, row))
  {
    EvalByChildren(env, e, row);
    var rs := EvalAll(env, Children(e), row);
    assert rs[0] == Eval(env, e.left, row) && rs[1] == Eval(env, e.right, row);
    assert AllVal(rs);
  }

  /** Matching the concatenation of two key lists is matching both. */
  lemma HashMatchConcat(env: Env, k: JoinKeys, k1: JoinKeys, k2: JoinKeys, l: Row, r: Row)
    requires |k1.left| == |k1.right| && |k2.left| == |k2.right|
    requires k == JoinKeys(k1.left + k2.left, k1.right + k2.right)
    ensures HashMatch(env, k, l, r) <==> HashMatch(env, k1, l, r) && HashMatch(env, k2, l, r)
  {
    hide Eval, KeyMatch;
    var n := |k1.left|;
    if HashMatch(env, k, l, r) {
      forall i | 0 <= i < n
        ensures KeyMatch(Eval(env, k1.left[i], l), Eval(env, k1.right[i], r))
      {
        assert k.left[i] == k1.left[i] && k.right[i] == k1.right[i];
      }
      forall i | 0 <= i < |k2.left|
        ensures KeyMatch(Eval(env, k2.left[i], l), Eval(env, k2.right[i], r))
      {
        assert k.left[n + i] == k2.left[i] && k.right[n + i] == k2.right[i];
      }
    }
  }

  lemma NoMixedConcat(env: Env, k: JoinKeys, k1: JoinKeys, k2: JoinKeys, l: Row, r: Row)
    requires |k1.left| == |k1.right| && |k2.left| == |k2.right|
    requires k == JoinKeys(k1.left + k2.left, k1.right + k2.right)
    ensures NoMixedKeys(env, k, l, r) <==> NoMixedKeys(env, k1, l, r) && NoMixedKeys(env, k2, l, r)
  {
    hide Eval, MixedNumbers;
    var n := |k1.left|;
    if NoMixedKeys(env, k, l, r) {
      forall i | 0 <= i < n
        ensures !MixedNumbers(Eval(env, k1.left[i], l), Eval(env, k1.right[i], r))
      {
        assert k.left[i] == k1.left[i] && k.right[i] == k1.right[i];
      }
      forall i | 0 <= i < |k2.left|
        ensures !MixedNumbers(Eval(env, k2.left[i], l), Eval(env, k2.right[i], r))
      {
        assert k.left[n + i] == k2.left[i] && k.right[n + i] == k2.right[i];
      }
    }
  }

  /**
   Key extraction, exactly: the condition never fails on a resolved row pair, and the pair
   is a hash match if and only if the condition is TRUE and no key pair mixes INT64 with FLOAT64.
   */
  lemma {:induction false} EquiKeysExact(env: Env, e: Expr, l: Row, r: Row)
    requires KeysOf(e, |l|).Some? && Resolved(e, |l| + |r|)
    ensures var k := KeysOf(e, |l|).value;
            && IsTruth(Eval(env, e, l + r))
            && (HashMatch(env, k, l, r) <==> IsTrue(Eval(env, e, l + r)) && NoMixedKeys(env, k, l, r))
    decreases e
  {
    if IsAnd(e) {
      BinaryResolved(e, |l| + |r|);
      EquiKeysExact(env, e.left, l, r);
      EquiKeysExact(env, e.right, l, r);
      AndOfTruths(env, e, l + r);
      AndIsTrue(env, e, l + r);
      var k, k1, k2 := KeysOf(e, |l|).value, KeysOf(e.left, |l|).value, KeysOf(e.right, |l|).value;
      HashMatchConcat(env, k, k1, k2, l, r);
      NoMixedConcat(env, k, k1, k2, l, r);
    } else {
      KeyExact(env, e, l, r);
      var k, p := KeysOf(e, |l|).value, KeyOf(e, |l|).value;
      assert k.left == [p.0] && k.right == [p.1];
      assert HashMatch(env, k, l, r) <==> KeyMatch(Eval(env, k.left[0], l), Eval(env, k.right[0], r));
      assert NoMixedKeys(env, k, l, r) <==> !MixedNumbers(Eval(env, k.left[0], l), Eval(env, k.right[0], r));
    }
  }

  /** The join of an INT64 column with a FLOAT64 column: the condition holds, the hash table misses the pair. */
  lemma MixedKeysMissed(env: Env)
    ensures var e := Binary(Column(None, "a", Some(0)), Eq, Column(None, "b", Some(1)));
            var l, r := [Int64(1)], [Float64(1.0)];
            && KeysOf(e, 1).Some?
            && IsTrue(Eval(env, e, l + r))
            && !HashMatch(env, KeysOf(e, 1).value, l, r)
  {
    var e := Binary(Column(None, "a", Some(0)), Eq, Column(None, "b", Some(1)));
    var l, r := [Int64(1)], [Float64(1.0)];
    EvalByChildren(env, e, l + r);
    EvalIndexed(env, e.left, l + r);
    EvalIndexed(env, e.right, l + r);
    assert AllVal(EvalAll(env, Children(e), l + r));
    var k := KeysOf(e, 1).value;
    assert k.left == [e.left] && k.right == [Column(None, "b", Some(0))];
    EvalIndexed(env, k.left[0], l);
    EvalIndexed(env, k.right[0], r);
    assert !KeyMatch(Eval(env, k.left[0], l), Eval(env, k.right[0], r));
  }

  // ---------- Declared types that make hashing exact ----------

  /** A value of a declared type; an unknown type admits every value. */
  predicate Conforms(v: Value, t: DataType) {
    v.Null? ||
    match t
    case Unknown => true
    case BoolType => v.Bool?
    case Int64Type => v.Int64?
    case Float64Type => v.Float64?
    case NumericType => v.Numeric?
    case StringType => v.Str?
  }

  predicate AdmitsInt(t: DataType) {
    t.Unknown? || t.Int64Type?
  }

  predicate AdmitsFloat(t: DataType) {
    t.Unknown? || t.Float64Type?
  }

  /** One side cannot hold an INT64 while the other holds a FLOAT64. */
  predicate SafeKeyTypes(t: DataType, u: DataType) {
    !(AdmitsInt(t) && AdmitsFloat(u)) && !(AdmitsFloat(t) && AdmitsInt(u))
  }

  /** For two declared types, SQL equality and hash equality agree on all their values exactly when the types are safe. */
  lemma SafeKeyTypesExact(t: DataType, u: DataType)
    ensures SafeKeyTypes(t, u) <==>
            forall a, b | Conforms(a, t) && Conforms(b, u) :: KeyMatch(Val(a), Val(b)) <==> EqValues(a, b) == Bool(true)
  {
    if !SafeKeyTypes(t, u) {
      var i, f := Int64(0), Float64(0.0);
      assert EqValues(i, f) == Bool(true) && EqValues(f, i) == Bool(true);
      if AdmitsInt(t) && AdmitsFloat(u) {
        assert Conforms(i, t) && Conforms(f, u) && !KeyMatch(Val(i), Val(f));
      } else {
        assert Conforms(f, t) && Conforms(i, u) && !KeyMatch(Val(f), Val(i));
      }
    }
  }

  // ---------- Rebuilding the condition ----------

  function RestoreRightIndex(e: Expr, leftWidth: nat): Expr {
    if e.Column? then Column(e.table, e.name, if e.index.None? then None else Some(e.index.value + leftWidth)) else e
  }

  function Equalities(k: JoinKeys, leftWidth: nat): (r: seq<Expr>)
    requires |k.left| == |k.right|
    ensures |r| == |k.left|
    ensures forall c | c in r :: !IsAnd(c)
  {
    seq(|k.left|, i requires 0 <= i < |k.left| => Binary(k.left[i], Eq, RestoreRightIndex(k.right[i], leftWidth)))
  }

  /** The condition `into_logical` gives a hash join. */
  function RestoredCondition(k: JoinKeys, leftWidth: nat): Option<Expr>
    requires |k.left| == |k.right|
  {
    CombinePredicates(Equalities(k, leftWidth))
  }

  lemma RestoredConjunct(k: JoinKeys, leftWidth: nat, rightWidth: nat, i: nat)
    requires KeysInRange(k, leftWidth, rightWidth) && i < |k.left|
    ensures var c := Equalities(k, leftWidth)[i];
            && KeyOf(c, leftWidth) == Some((k.left[i], k.right[i]))
            && Resolved(c, leftWidth + rightWidth)
  {
    assert k.left[i] in k.left && k.right[i] in k.right;
    BinaryResolved(Equalities(k, leftWidth)[i], leftWidth + rightWidth);
  }

  lemma RestoredStep(k: JoinKeys, front: JoinKeys, leftWidth: nat)
    requires |k.left| == |k.right| > 1
    requires front == JoinKeys(k.left[..|k.left| - 1], k.right[..|k.left| - 1])
    ensures RestoredCondition(front, leftWidth).Some?
    ensures RestoredCondition(k, leftWidth)
            == Some(Binary(RestoredCondition(front, leftWidth).value, And, Equalities(k, leftWidth)[|k.left| - 1]))
  {
    assert Equalities(k, leftWidth)[..|k.left| - 1] == Equalities(front, leftWidth);
  }

  lemma KeysOfAnd(a: Expr, c: Expr, k: JoinKeys, p: (Expr, Expr), leftWidth: nat)
    requires KeysOf(a, leftWidth) == Some(k) && KeyOf(c, leftWidth) == Some(p)
    ensures KeysOf(Binary(a, And, c), leftWidth) == Some(JoinKeys(k.left + [p.0], k.right + [p.1]))
  {
    assert KeysOf(c, leftWidth) == Some(JoinKeys([p.0], [p.1]));
  }

  lemma FrontInRange(k: JoinKeys, front: JoinKeys, leftWidth: nat, rightWidth: nat)
    requires KeysInRange(k, leftWidth, rightWidth) && |k.left| > 1
    requires front == JoinKeys(k.left[..|k.left| - 1], k.right[..|k.left| - 1])
    ensures KeysInRange(front, leftWidth, rightWidth)
  {
  }

  lemma {:induction false} RestoredResolved(k: JoinKeys, leftWidth: nat, rightWidth: nat)
    requires KeysInRange(k, leftWidth, rightWidth)
    ensures RestoredCondition(k, leftWidth).Some?
    ensures Resolved(RestoredCondition(k, leftWidth).value, leftWidth + rightWidth)
    decreases |k.left|
  {
    var n := |k.left| - 1;
    var c := Equalities(k, leftWidth)[n];
    RestoredConjunct(k, leftWidth, rightWidth, n);
    if n > 0 {
      var front := JoinKeys(k.left[..n], k.right[..n]);
      FrontInRange(k, front, leftWidth, rightWidth);
      RestoredStep(k, front, leftWidth);
      RestoredResolved(front, leftWidth, rightWidth);
    }
  }

  /** Extracting keys from a rebuilt condition gives the keys back. */
  lemma {:induction false} ExtractRestored(k: JoinKeys, leftWidth: nat, rightWidth: nat)
    requires KeysInRange(k, leftWidth, rightWidth)
    ensures RestoredCondition(k, leftWidth).Some?
    ensures KeysOf(RestoredCondition(k, leftWidth).value, leftWidth) == Some(k)
    decreases |k.left|
  {
    hide *;
    SameLengths(k, leftWidth, rightWidth);
    var n := |k.left| - 1;
    var c := Equalities(k, leftWidth)[n];
    RestoredConjunct(k, leftWidth, rightWidth, n);
    if n > 0 {
      var front := JoinKeys(k.left[..n], k.right[..n]);
      FrontInRange(k, front, leftWidth, rightWidth);
      RestoredStep(k, front, leftWidth);
      ExtractRestored(front, leftWidth, rightWidth);
      KeysOfAnd(RestoredCondition(front, leftWidth).value, c, front, (k.left[n], k.right[n]), leftWidth);
      assert k.left == front.left + [k.left[n]] && k.right == front.right + [k.right[n]];
    } else {
      OneRestored(k, leftWidth);
    }
  }

  lemma SameLengths(k: JoinKeys, leftWidth: nat, rightWidth: nat)
    requires KeysInRange(k, leftWidth, rightWidth)
    ensures |k.left| == |k.right| > 0
  {
  }

  lemma OneRestored(k: JoinKeys, leftWidth: nat)
    requires |k.left| == |k.right| == 1 && KeyOf(Equalities(k, leftWidth)[0], leftWidth) == Some((k.left[0], k.right[0]))
    ensures RestoredCondition(k, leftWidth).Some? && KeysOf(RestoredCondition(k, leftWidth).value, leftWidth) == Some(k)
  {
    hide KeyOf;
    assert k.left == [k.left[0]] && k.right == [k.right[0]];
    assert RestoredCondition(k, leftWidth) == Some(Equalities(k, leftWidth)[0]);
  }

  /** A conjunct already in the form left column = right column. */
  predicate Oriented(c: Expr, leftWidth: nat) {
    c.Binary? && ClassifyExprSide(c.left, leftWidth) == Some(LeftSide)
  }

  lemma {:induction false} EqualitiesOfKeys(e: Expr, leftWidth: nat, i: nat)
    requires KeysOf(e, leftWidth).Some? && i < |SplitAnd(e)|
    ensures var k := KeysOf(e, leftWidth).value;
            var c := SplitAnd(e)[i];
            && KeyOf(c, leftWidth) == Some((k.left[i], k.right[i]))
            && (Equalities(k, leftWidth)[i] == c <==> Oriented(c, leftWidth))
    decreases e
  {
    hide KeyOf, Oriented, Equalities, RestoreRightIndex;
    EqualityAt(KeysOf(e, leftWidth).value, leftWidth, i);
    if IsAnd(e) {
      var n := |SplitAnd(e.left)|;
      if i < n {
        EqualitiesOfKeys(e.left, leftWidth, i);
        EqualityAt(KeysOf(e.left, leftWidth).value, leftWidth, i);
      } else {
        EqualitiesOfKeys(e.right, leftWidth, i - n);
        EqualityAt(KeysOf(e.right, leftWidth).value, leftWidth, i - n);
      }
    } else {
      EqualityOfKey(e, leftWidth);
    }
  }

  lemma EqualityAt(k: JoinKeys, leftWidth: nat, i: nat)
    requires |k.left| == |k.right| && i < |k.left|
    ensures Equalities(k, leftWidth)[i] == Binary(k.left[i], Eq, RestoreRightIndex(k.right[i], leftWidth))
  {
    hide RestoreRightIndex;
  }

  lemma EqualityOfKey(e: Expr, leftWidth: nat)
    requires KeyOf(e, leftWidth).Some?
    ensures var k := KeyOf(e, leftWidth).value;
            Binary(k.0, Eq, RestoreRightIndex(k.1, leftWidth)) == e <==> Oriented(e, leftWidth)
  {
  }

  /** Rebuilding the condition from its own keys gives it back exactly when it is a left-nested chain of left = right. */
  lemma RestoreExtracted(e: Expr, leftWidth: nat)
    requires KeysOf(e, leftWidth).Some?
    ensures RestoredCondition(KeysOf(e, leftWidth).value, leftWidth) == Some(e)
            <==> LeftNested(e) && forall c | c in SplitAnd(e) :: Oriented(c, leftWidth)
  {
    hide KeysOf, Equalities, SplitAnd, Oriented;
    var k := KeysOf(e, leftWidth).value;
    var es, s := Equalities(k, leftWidth), SplitAnd(e);
    forall i | 0 <= i < |s|
      ensures es[i] == s[i] <==> Oriented(s[i], leftWidth)
    {
      EqualitiesOfKeys(e, leftWidth, i);
    }
    CombineSplit(e);
    if CombinePredicates(es) == Some(e) {
      SplitCombine(es);
      assert es == s;
    }
    if forall c | c in s :: Oriented(c, leftWidth) {
      assert forall i | 0 <= i < |s| :: s[i] in s;
      assert es == s;
    }
  }
}
