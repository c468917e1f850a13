/**
 Declared types of hash join keys.  Hash equality and SQL equality part where an INT64 meets a FLOAT64;
 whether that can happen in a row pair the condition accepts depends on all the keys together: a key
 whose types share no equal values leaves nothing to accept.
 */
module KeyTypes {
  import opened Wrappers
  import opened Ir
  import opened Evaluator
  import opened Predicates
  import opened EquiKeys
  import opened Sorting

  // ---------- Kinds of values ----------

  datatype ValueKind = BoolKind | IntKind | FloatKind | NumericKind | TextKind

  function KindOf(v: Value): ValueKind
    requires !v.Null?
  {
    match v
    case Bool(_) => BoolKind
    case Int64(_) => IntKind
    case Float64(_) => FloatKind
    case Numeric(_) => NumericKind
    case Str(_) => TextKind
  }

  /** Values of comparable kinds that are equal in SQL. */
  function Sample(k: ValueKind): Value {
    match k
    case BoolKind => Bool(true)
    case IntKind => Int64(0)
    case FloatKind => Float64(0.0)
    case NumericKind => Numeric(0.0)
    case TextKind => Str("")
  }

  predicate Admits(t: DataType, k: ValueKind) {
    match t
    case Unknown => true
    case BoolType => k.BoolKind?
    case Int64Type => k.IntKind?
    case Float64Type => k.FloatKind?
    case NumericType => k.NumericKind?
    case StringType => k.TextKind?
  }

  predicate Mix(a: ValueKind, b: ValueKind) {
    (a.IntKind? && b.FloatKind?) || (a.FloatKind? && b.IntKind?)
  }

  /** Some values of these kinds are equal in SQL. */
  predicate Meet(a: ValueKind, b: ValueKind) {
    a == b || Mix(a, b)
  }

  lemma MeetIff(a: ValueKind, b: ValueKind)
    ensures Meet(a, b) <==> EqValues(Sample(a), Sample(b)) == Bool(true)
    ensures Mix(a, b) <==> MixedNumbers(Val(Sample(a)), Val(Sample(b)))
  {
  }

  lemma EqualKindsMeet(x: Value, y: Value)
    requires EqValues(x, y) == Bool(true)
    ensures !x.Null? && !y.Null? && Meet(KindOf(x), KindOf(y))
    ensures MixedNumbers(Val(x), Val(y)) <==> Mix(KindOf(x), KindOf(y))
  {
  }

  // ---------- One kind for every column ----------

  predicate Assigns(kinds: seq<ValueKind>, types: seq<DataType>) {
    |kinds| == |types| && forall i | 0 <= i < |kinds| :: Admits(types[i], kinds[i])
  }

  predicate MeetAt(k: JoinKeys, lks: seq<ValueKind>, rks: seq<ValueKind>, i: nat)
    requires KeysInRange(k, |lks|, |rks|) && i < |k.left|
  {
    assert k.left[i] in k.left && k.right[i] in k.right;
    Meet(lks[k.left[i].index.value], rks[k.right[i].index.value])
  }

  predicate MixAt(k: JoinKeys, lks: seq<ValueKind>, rks: seq<ValueKind>, i: nat)
    requires KeysInRange(k, |lks|, |rks|) && i < |k.left|
  {
    assert k.left[i] in k.left && k.right[i] in k.right;
    Mix(lks[k.left[i].index.value], rks[k.right[i].index.value])
  }

  /** With columns of these kinds every key can match. */
  predicate KeysMeet(k: JoinKeys, lks: seq<ValueKind>, rks: seq<ValueKind>)
    requires KeysInRange(k, |lks|, |rks|)
  {
    forall i | 0 <= i < |k.left| :: MeetAt(k, lks, rks, i)
  }

  predicate KeysMix(k: JoinKeys, lks: seq<ValueKind>, rks: seq<ValueKind>)
    requires KeysInRange(k, |lks|, |rks|)
  {
    exists i :: 0 <= i < |k.left| && MixAt(k, lks, rks, i)
  }

  /** No choice of kinds the declared types admit lets every key match and one of them mix INT64 with FLOAT64. */
  ghost predicate KeyTypesSafe(k: JoinKeys, lts: seq<DataType>, rts: seq<DataType>) {
    && KeysInRange(k, |lts|, |rts|)
    && forall lks, rks | Assigns(lks, lts) && Assigns(rks, rts) && KeysMeet(k, lks, rks) :: !KeysMix(k, lks, rks)
  }

  predicate SafeAt(k: JoinKeys, lts: seq<DataType>, rts: seq<DataType>, i: nat)
    requires KeysInRange(k, |lts|, |rts|) && i < |k.left|
  {
    assert k.left[i] in k.left && k.right[i] in k.right;
    SafeKeyTypes(lts[k.left[i].index.value], rts[k.right[i].index.value])
  }

  /** The types of this key share no equal values. */
  predicate NeverAt(k: JoinKeys, lts: seq<DataType>, rts: seq<DataType>, i: nat)
    requires KeysInRange(k, |lts|, |rts|) && i < |k.left|
  {
    assert k.left[i] in k.left && k.right[i] in k.right;
    var t, u := lts[k.left[i].index.value], rts[k.right[i].index.value];
    !t.Unknown? && !u.Unknown? && t != u && SafeKeyTypes(t, u)
  }

  lemma KindsAt(t: DataType, u: DataType, a: ValueKind, b: ValueKind)
    requires Admits(t, a) && Admits(u, b)
    ensures SafeKeyTypes(t, u) ==> !Mix(a, b)
    ensures !t.Unknown? && !u.Unknown? && t != u && SafeKeyTypes(t, u) ==> !Meet(a, b)
  {
  }

  /** It is enough that each key is safe by itself, or that one of them can never match. */
  lemma SafeKeysSuffice(k: JoinKeys, lts: seq<DataType>, rts: seq<DataType>)
    requires KeysInRange(k, |lts|, |rts|)
    requires (forall i | 0 <= i < |k.left| :: SafeAt(k, lts, rts, i)) || exists i :: 0 <= i < |k.left| && NeverAt(k, lts, rts, i)
    ensures KeyTypesSafe(k, lts, rts)
  {
    hide KeysInRange, Admits, Mix, Meet, SafeKeyTypes;
    forall lks, rks | Assigns(lks, lts) && Assigns(rks, rts) && KeysMeet(k, lks, rks)
      ensures !KeysMix(k, lks, rks)
    {
      forall i | 0 <= i < |k.left|
        ensures SafeAt(k, lts, rts, i) ==> !MixAt(k, lks, rks, i)
        ensures NeverAt(k, lts, rts, i) ==> !MeetAt(k, lks, rks, i)
      {
        KeyColumns(k, |lts|, |rts|, i);
        var m, n := k.left[i].index.value, k.right[i].index.value;
        KindsAt(lts[m], rts[n], lks[m], rks[n]);
      }
    }
  }

  lemma KeyColumns(k: JoinKeys, leftWidth: nat, rightWidth: nat, i: nat)
    requires KeysInRange(k, leftWidth, rightWidth) && i < |k.left|
    ensures i < |k.right| && k.left[i].Column? && k.left[i].index.Some? && k.left[i].index.value < leftWidth
    ensures k.right[i].Column? && k.right[i].index.Some? && k.right[i].index.value < rightWidth
  {
    assert k.left[i] in k.left && k.right[i] in k.right;
  }

  // ---------- Rows of given kinds ----------

  function SampleRow(kinds: seq<ValueKind>): (row: Row)
    ensures |row| == |kinds|
    ensures forall i | 0 <= i < |row| :: row[i] == Sample(kinds[i])
  {
    seq(|kinds|, i requires 0 <= i < |kinds| => Sample(kinds[i]))
  }

  lemma SampleConforms(kinds: seq<ValueKind>, types: seq<DataType>)
    requires Assigns(kinds, types)
    ensures RowConforms(SampleRow(kinds), types)
  {
  }

  function AnyKind(t: DataType): (k: ValueKind)
    ensures Admits(t, k)
  {
    match t
    case Unknown => BoolKind
    case BoolType => BoolKind
    case Int64Type => IntKind
    case Float64Type => FloatKind
    case NumericType => NumericKind
    case StringType => TextKind
  }

  /** The kinds of a row's values, and some admitted kind for a NULL. */
  function KindsOf(row: Row, types: seq<DataType>): (kinds: seq<ValueKind>)
    requires RowConforms(row, types)
    ensures Assigns(kinds, types)
    ensures forall i | 0 <= i < |row| && !row[i].Null? :: kinds[i] == KindOf(row[i])
  {
    seq(|row|, i requires 0 <= i < |row| => if row[i].Null? then AnyKind(types[i]) else KindOf(row[i]))
  }

  // ---------- A condition, key by key ----------

  /** The condition is TRUE exactly when each pair of key values is equal in SQL. */
  lemma KeysTrue(env: Env, e: Expr, l: Row, r: Row)
    requires KeysOf(e, |l|).Some? && Resolved(e, |l| + |r|)
    ensures var k := KeysOf(e, |l|).value;
            && KeysInRange(k, |l|, |r|)
            && (IsTrue(Eval(env, e, l + r)) <==>
                forall i | 0 <= i < |k.left| :: KeyEqual(k, l, r, i))
  {
    hide Eval, KeyOf, KeysOf, SplitAnd, Resolved, KeyEqual, IsTrue;
    var k := KeysOf(e, |l|).value;
    ExtractedKeysInRange(e, |l|, |r|);
    SplitIsTrue(env, e, l + r);
    ResolvedConjuncts(e, |l| + |r|);
    forall i | 0 <= i < |k.left|
      ensures IsTrue(Eval(env, SplitAnd(e)[i], l + r)) <==> KeyEqual(k, l, r, i)
    {
      ConjunctTrue(env, e, l, r, i);
    }
    AllTrueAt(env, SplitAnd(e), l + r);
  }

  predicate KeyEqual(k: JoinKeys, l: Row, r: Row, i: nat)
    requires KeysInRange(k, |l|, |r|) && i < |k.left|
  {
    assert k.left[i] in k.left && k.right[i] in k.right;
    EqValues(l[k.left[i].index.value], r[k.right[i].index.value]) == Bool(true)
  }

  lemma AllTrueAt(env: Env, ps: seq<Expr>, row: Row)
    ensures AllTrue(env, ps, row) <==> forall i | 0 <= i < |ps| :: IsTrue(Eval(env, ps[i], row))
  {
    hide Eval, IsTrue;
  }

  lemma ConjunctTrue(env: Env, e: Expr, l: Row, r: Row, i: nat)
    requires KeysOf(e, |l|).Some? && KeysInRange(KeysOf(e, |l|).value, |l|, |r|) && i < |SplitAnd(e)| == |KeysOf(e, |l|).value.left|
    requires SplitAnd(e)[i] in SplitAnd(e) && forall c | c in SplitAnd(e) :: Resolved(c, |l| + |r|)
    ensures IsTrue(Eval(env, SplitAnd(e)[i], l + r)) <==> KeyEqual(KeysOf(e, |l|).value, l, r, i)
  {
    hide Eval, KeyOf, KeysOf, SplitAnd, Resolved, EqValues;
    var k, c := KeysOf(e, |l|).value, SplitAnd(e)[i];
    EqualitiesOfKeys(e, |l|, i);
    assert k.left[i] in k.left && k.right[i] in k.right;
    EvalIndexed(env, k.left[i], l);
    EvalIndexed(env, k.right[i], r);
    KeySides(env, c, l, r);
    EqOfSides(env, c, l + r);
    EqMatches(l[k.left[i].index.value], r[k.right[i].index.value]);
  }

  // ---------- What the types say of rows ----------

  /** Where the types are safe, a pair the condition accepts mixes no key. */
  lemma AcceptedNotMixed(env: Env, e: Expr, l: Row, r: Row, lts: seq<DataType>, rts: seq<DataType>)
    requires RowConforms(l, lts) && RowConforms(r, rts) && KeysOf(e, |l|).Some? && Resolved(e, |l| + |r|)
    requires KeyTypesSafe(KeysOf(e, |l|).value, lts, rts) && IsTrue(Eval(env, e, l + r))
    ensures NoMixedKeys(env, KeysOf(e, |l|).value, l, r)
  {
    hide Eval, KeysOf, Resolved, MixedNumbers, Meet, Mix, IsTrue, EqValues;
    var k := KeysOf(e, |l|).value;
    KeysTrue(env, e, l, r);
    var lks, rks := KindsOf(l, lts), KindsOf(r, rts);
    forall i | 0 <= i < |k.left|
      ensures MeetAt(k, lks, rks, i)
      ensures MixedNumbers(Eval(env, k.left[i], l), Eval(env, k.right[i], r)) <==> MixAt(k, lks, rks, i)
    {
      assert k.left[i] in k.left && k.right[i] in k.right;
      assert KeyEqual(k, l, r, i);
      EqualKindsMeet(l[k.left[i].index.value], r[k.right[i].index.value]);
      EvalIndexed(env, k.left[i], l);
      EvalIndexed(env, k.right[i], r);
    }
    assert KeysMeet(k, lks, rks);
    assert !KeysMix(k, lks, rks);
  }

  /** Where they are not, some pair is accepted and mixed. */
  lemma MixedAccepted(env: Env, e: Expr, lts: seq<DataType>, rts: seq<DataType>) returns (l: Row, r: Row)
    requires KeysOf(e, |lts|).Some? && Resolved(e, |lts| + |rts|) && !KeyTypesSafe(KeysOf(e, |lts|).value, lts, rts)
    ensures RowConforms(l, lts) && RowConforms(r, rts)
    ensures IsTrue(Eval(env, e, l + r)) && !NoMixedKeys(env, KeysOf(e, |lts|).value, l, r)
  {
    hide Eval, KeysOf, Resolved, MixedNumbers, IsTrue, KeysMeet, KeysMix, KeyEqual, NoMixedKeys;
    var k := KeysOf(e, |lts|).value;
    ExtractedKeysInRange(e, |lts|, |rts|);
    var lks, rks :| Assigns(lks, lts) && Assigns(rks, rts) && KeysMeet(k, lks, rks) && KeysMix(k, lks, rks);
    l, r := SampleRow(lks), SampleRow(rks);
    SampleConforms(lks, lts);
    SampleConforms(rks, rts);
    AssignsWidth(lks, lts);
    AssignsWidth(rks, rts);
    SamplesMeet(k, lks, rks);
    SamplesMix(env, k, lks, rks);
    KeysTrue(env, e, l, r);
  }

  lemma AssignsWidth(kinds: seq<ValueKind>, types: seq<DataType>)
    requires Assigns(kinds, types)
    ensures |kinds| == |types|
  {
  }

  lemma SamplesMeet(k: JoinKeys, lks: seq<ValueKind>, rks: seq<ValueKind>)
    requires KeysInRange(k, |lks|, |rks|) && KeysMeet(k, lks, rks)
    ensures forall i | 0 <= i < |k.left| :: KeyEqual(k, SampleRow(lks), SampleRow(rks), i)
  {
    hide KeysInRange, Meet, EqValues, SampleRow;
    forall i | 0 <= i < |k.left|
      ensures KeyEqual(k, SampleRow(lks), SampleRow(rks), i)
    {
      assert MeetAt(k, lks, rks, i);
      KeyColumns(k, |lks|, |rks|, i);
      MeetIff(lks[k.left[i].index.value], rks[k.right[i].index.value]);
    }
  }

  lemma SamplesMix(env: Env, k: JoinKeys, lks: seq<ValueKind>, rks: seq<ValueKind>)
    requires KeysInRange(k, |lks|, |rks|) && KeysMix(k, lks, rks)
    ensures !NoMixedKeys(env, k, SampleRow(lks), SampleRow(rks))
  {
    hide KeysInRange, Mix, Eval, MixedNumbers, SampleRow;
    var i :| 0 <= i < |k.left| && MixAt(k, lks, rks, i);
    KeyColumns(k, |lks|, |rks|, i);
    MeetIff(lks[k.left[i].index.value], rks[k.right[i].index.value]);
    EvalIndexed(env, k.left[i], SampleRow(lks));
    EvalIndexed(env, k.right[i], SampleRow(rks));
  }
}
