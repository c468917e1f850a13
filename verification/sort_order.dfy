/**
 What ASC, DESC, NULLS FIRST and NULLS LAST mean for a Sort and a TopN, on the values of their keys
 (`execute_sort` and `execute_topn` of `concurrent/dql.rs`).
 */
module SortOrder {
  import opened Wrappers
  import opened Ir
  import opened Evaluator
  import opened EquiKeys
  import opened Tables
  import opened Sorting

  // ---------- The order of values ----------

  /** The text ends where they still agree, or has the smaller character where they first differ. */
  ghost predicate TextAtMost(a: string, b: string) {
    exists k: nat :: k <= |a| && k <= |b| && a[..k] == b[..k] && (k == |a| || (k < |b| && a[k] < b[k]))
  }

  /** Two values of one kind in ascending order; FALSE comes before TRUE. */
  ghost predicate AtMost(a: Value, b: Value) {
    match a
    case Int64(x) => b.Int64? && x <= b.i
    case Float64(x) => b.Float64? && x <= b.f
    case Numeric(x) => b.Numeric? && x <= b.d
    case Bool(x) => b.Bool? && (x ==> b.b)
    case Str(x) => b.Str? && TextAtMost(x, b.s)
    case Null => false
  }

  lemma {:induction false} TextOrder(a: string, b: string)
    ensures CompareStrings(a, b) <= 0 <==> TextAtMost(a, b)
    ensures CompareStrings(a, b) == 0 <==> a == b
  {
    if a == [] {
      assert a[..0] == b[..0];
    } else if b != [] {
      TextOrder(a[1..], b[1..]);
      if a[0] == b[0] {
        TextStep(a, b);
        assert a == [a[0]] + a[1..] && b == [b[0]] + b[1..];
      } else {
        assert a[..0] == b[..0];
        assert forall k: nat | 0 < k <= |a| && k <= |b| :: a[..k][0] != b[..k][0];
      }
    }
  }

  lemma TextStep(a: string, b: string)
    requires a != [] && b != [] && a[0] == b[0]
    ensures TextAtMost(a, b) <==> TextAtMost(a[1..], b[1..])
  {
    if k: nat :| k <= |a| && k <= |b| && a[..k] == b[..k] && (k == |a| || (k < |b| && a[k] < b[k])) {
      assert k > 0 && a[1..][..k - 1] == a[..k][1..] && b[1..][..k - 1] == b[..k][1..];
    }
    if k: nat :| k < |a| && k < |b| && a[1..][..k] == b[1..][..k] && (k == |a| - 1 || (k < |b| - 1 && a[1..][k] < b[1..][k])) {
      assert a[..k + 1] == [a[0]] + a[1..][..k] && b[..k + 1] == [b[0]] + b[1..][..k];
    }
  }

  lemma ValueOrder(t: DataType, a: Value, b: Value)
    requires !t.Unknown? && Conforms(a, t) && Conforms(b, t) && !a.Null? && !b.Null?
    ensures CompareForSort(a, b) <= 0 <==> AtMost(a, b)
    ensures CompareForSort(a, b) == 0 <==> a == b
    ensures CompareForSort(b, a) == -CompareForSort(a, b)
  {
    if t.StringType? {
      TextOrder(a.s, b.s);
      StringOrder(a.s, b.s, []);
    }
  }

  // ---------- One key ----------

  /** The values a sort goes by: those of the key, and NULL where it fails. */
  function KeyColumn(env: Env, key: SortExpr, rows: seq<Row>): (vs: seq<Value>)
    ensures |vs| == |rows|
    ensures forall i | 0 <= i < |vs| :: Eval(env, key.expr, rows[i]) == if Eval(env, key.expr, rows[i]).Val? then Val(vs[i]) else Fail
    ensures forall i | 0 <= i < |vs| :: Eval(env, key.expr, rows[i]).Fail? ==> vs[i] == Null
    ensures forall i | 0 <= i < |vs| :: vs[i] == SortValue(env, key.expr, rows[i])
  {
    seq(|rows|, i requires 0 <= i < |rows| => SortValue(env, key.expr, rows[i]))
  }

  ghost predicate Ascend(vs: seq<Value>) {
    forall i, j | 0 <= i < j < |vs| && !vs[i].Null? && !vs[j].Null? :: AtMost(vs[i], vs[j])
  }

  ghost predicate Descend(vs: seq<Value>) {
    forall i, j | 0 <= i < j < |vs| && !vs[i].Null? && !vs[j].Null? :: AtMost(vs[j], vs[i])
  }

  predicate NullsBefore(vs: seq<Value>) {
    forall i, j | 0 <= i < j < |vs| && vs[j].Null? :: vs[i].Null?
  }

  predicate NullsAfter(vs: seq<Value>) {
    forall i, j | 0 <= i < j < |vs| && vs[i].Null? :: vs[j].Null?
  }

  /** A value strictly before another under one key. */
  ghost predicate Before(key: SortExpr, a: Value, b: Value) {
    if a.Null? then !b.Null? && key.nullsFirst
    else if b.Null? then !key.nullsFirst
    else if key.asc then !AtMost(b, a)
    else !AtMost(a, b)
  }

  lemma KeyMeans(key: SortExpr, t: DataType, a: Value, b: Value)
    requires !t.Unknown? && Conforms(a, t) && Conforms(b, t)
    ensures CompareKey(key, a, b) < 0 <==> Before(key, a, b)
    ensures CompareKey(key, a, b) == 0 <==> a == b
    ensures CompareKey(key, a, b) > 0 <==> Before(key, b, a)
  {
    if !a.Null? && !b.Null? {
      ValueOrder(t, a, b);
      ValueOrder(t, b, a);
    }
    hide CompareForSort, AtMost, Conforms;
  }

  /** The values of the key are of one known type. */
  ghost predicate KeyTyped(env: Env, key: SortExpr, t: DataType, rows: seq<Row>) {
    !t.Unknown? && forall r | r in rows :: Conforms(SortValue(env, key.expr, r), t)
  }

  lemma OneKeyCompares(env: Env, key: SortExpr, t: DataType, a: Row, b: Row)
    requires KeyTyped(env, key, t, [a, b])
    ensures CompareRows(env, [key], a, b) <= 0 <==> !Before(key, SortValue(env, key.expr, b), SortValue(env, key.expr, a))
  {
    hide SortValue, Conforms, CompareKey, Before;
    assert a in [a, b] && b in [a, b];
    KeyMeans(key, t, SortValue(env, key.expr, a), SortValue(env, key.expr, b));
    assert [key][1..] == [];
    assert CompareRows(env, [], a, b) == 0;
  }

  /**
   Rows are sorted by one key exactly when its values that are not NULL ascend for ASC and descend for DESC,
   and its NULLs come first for NULLS FIRST and last for NULLS LAST, whatever the direction.
   */
  lemma OneKeySorted(env: Env, key: SortExpr, t: DataType, rows: seq<Row>)
    requires KeyTyped(env, key, t, rows)
    ensures var vs := KeyColumn(env, key, rows);
            Sorted(env, [key], rows)
            <==> && (if key.asc then Ascend(vs) else Descend(vs))
                 && (if key.nullsFirst then NullsBefore(vs) else NullsAfter(vs))
  {
    hide SortValue, CompareRows, AtMost, Conforms;
    var vs := KeyColumn(env, key, rows);
    forall i, j | 0 <= i < j < |rows|
      ensures CompareRows(env, [key], rows[i], rows[j]) <= 0 <==> !Before(key, vs[j], vs[i])
    {
      assert rows[i] in rows && rows[j] in rows;
      OneKeyCompares(env, key, t, rows[i], rows[j]);
    }
    assert Sorted(env, [key], rows) <==> forall i, j | 0 <= i < j < |vs| :: !Before(key, vs[j], vs[i]);
  }

  // ---------- Several keys ----------

  /** Some key puts the one row before the other, and they agree on all keys before it. */
  ghost predicate FirstDifference(env: Env, keys: seq<SortExpr>, a: Row, b: Row) {
    exists k | 0 <= k < |keys| ::
      && Before(keys[k], SortValue(env, keys[k].expr, a), SortValue(env, keys[k].expr, b))
      && AgreeOn(env, keys[..k], a, b)
  }

  predicate AgreeOn(env: Env, keys: seq<SortExpr>, a: Row, b: Row) {
    forall key | key in keys :: SortValue(env, key.expr, a) == SortValue(env, key.expr, b)
  }

  lemma FirstDifferenceStep(env: Env, keys: seq<SortExpr>, a: Row, b: Row)
    requires keys != []
    ensures FirstDifference(env, keys, a, b)
            <==> var u, v := SortValue(env, keys[0].expr, a), SortValue(env, keys[0].expr, b);
                 Before(keys[0], u, v) || (u == v && FirstDifference(env, keys[1..], a, b))
    ensures AgreeOn(env, keys, a, b)
            <==> SortValue(env, keys[0].expr, a) == SortValue(env, keys[0].expr, b) && AgreeOn(env, keys[1..], a, b)
  {
    hide SortValue, Before;
    assert keys == [keys[0]] + keys[1..] && keys[..0] == [];
    var u, v := SortValue(env, keys[0].expr, a), SortValue(env, keys[0].expr, b);
    if Before(keys[0], u, v) {
      assert AgreeOn(env, keys[..0], a, b);
    }
    if k :| 0 <= k < |keys| && Before(keys[k], SortValue(env, keys[k].expr, a), SortValue(env, keys[k].expr, b)) && AgreeOn(env, keys[..k], a, b) {
      if k > 0 {
        assert keys[0] in keys[..k] && keys[..k] == [keys[0]] + keys[1..][..k - 1];
        assert keys[1..][k - 1] == keys[k] && AgreeOn(env, keys[1..][..k - 1], a, b);
      }
    }
    if k :| 0 <= k < |keys| - 1 && Before(keys[1..][k], SortValue(env, keys[1..][k].expr, a), SortValue(env, keys[1..][k].expr, b)) && AgreeOn(env, keys[1..][..k], a, b) {
      if u == v {
        assert keys[..k + 1] == [keys[0]] + keys[1..][..k];
        assert keys[k + 1] == keys[1..][k] && AgreeOn(env, keys[..k + 1], a, b);
      }
    }
  }

  /** A row may stand before another exactly when they agree on all keys, or the first key on which they do not puts it there. */
  lemma {:induction false} RowsCompare(env: Env, keys: seq<SortExpr>, types: seq<DataType>, a: Row, b: Row)
    requires KeysSortable(env, keys, types) && RowConforms(a, types) && RowConforms(b, types)
    ensures CompareRows(env, keys, a, b) < 0 <==> FirstDifference(env, keys, a, b)
    ensures CompareRows(env, keys, a, b) == 0 <==> AgreeOn(env, keys, a, b)
  {
    hide SortValue, Before, CompareKey, Conforms, AgreeOn, FirstDifference;
    if keys == [] {
      NoKeys(env, a, b);
    } else {
      var k := keys[0];
      assert KeySortable(env, k, types);
      var t: DataType :| !t.Unknown? && forall row | RowConforms(row, types) :: Conforms(SortValue(env, k.expr, row), t);
      KeyMeans(k, t, SortValue(env, k.expr, a), SortValue(env, k.expr, b));
      RowsCompare(env, keys[1..], types, a, b);
      FirstDifferenceStep(env, keys, a, b);
      BeforeDiffers(k, t, SortValue(env, k.expr, a), SortValue(env, k.expr, b));
    }
  }

  lemma NoKeys(env: Env, a: Row, b: Row)
    ensures !FirstDifference(env, [], a, b) && AgreeOn(env, [], a, b)
  {
  }

  lemma BeforeDiffers(key: SortExpr, t: DataType, a: Value, b: Value)
    requires !t.Unknown? && Conforms(a, t) && Conforms(b, t)
    ensures Before(key, a, b) ==> a != b
  {
    hide Before, Conforms, CompareKey;
    KeyMeans(key, t, a, b);
  }

  /** Rows are sorted by several keys exactly when, of any two, the first agrees with the second on all keys or is before it on the first they differ on. */
  lemma SeveralKeysSorted(env: Env, keys: seq<SortExpr>, types: seq<DataType>, rows: seq<Row>)
    requires KeysSortable(env, keys, types) && RowsConform(rows, types)
    ensures Sorted(env, keys, rows)
            <==> forall i, j | 0 <= i < j < |rows| :: AgreeOn(env, keys, rows[i], rows[j]) || FirstDifference(env, keys, rows[i], rows[j])
  {
    hide CompareRows, KeysSortable, RowConforms, AgreeOn, FirstDifference;
    forall i, j | 0 <= i < j < |rows|
      ensures CompareRows(env, keys, rows[i], rows[j]) <= 0
              <==> AgreeOn(env, keys, rows[i], rows[j]) || FirstDifference(env, keys, rows[i], rows[j])
    {
      RowsCompare(env, keys, types, rows[i], rows[j]);
    }
  }

  // ---------- TopN ----------

  /** The rest of the rows, none of which the key puts before one kept. */
  ghost predicate LeftOut(env: Env, key: SortExpr, rows: seq<Row>, kept: seq<Row>, rest: seq<Row>) {
    && multiset(kept + rest) == multiset(rows)
    && forall a, b | a in kept && b in rest :: !Before(key, SortValue(env, key.expr, b), SortValue(env, key.expr, a))
  }

  /** A TopN by one key keeps, in order, as many rows as there are up to the limit, and leaves out none that the key puts before one kept. */
  lemma TopNKeepsFirst(env: Env, key: SortExpr, t: DataType, limit: nat, rows: seq<Row>, out: seq<Row>)
    requires KeyTyped(env, key, t, rows)
    ensures var vs := KeyColumn(env, key, out);
            TopNYields(env, [key], limit, Table(rows), Table(out))
            <==> && |out| == (if limit < |rows| then limit else |rows|)
                 && (if key.asc then Ascend(vs) else Descend(vs))
                 && (if key.nullsFirst then NullsBefore(vs) else NullsAfter(vs))
                 && exists rest :: LeftOut(env, key, rows, out, rest)
  {
    hide SortValue, CompareRows, Conforms, Before, Ascend, Descend, NullsBefore, NullsAfter, Sorted;
    forall rest | multiset(out + rest) == multiset(rows)
      ensures Remainder(env, [key], rows, out, rest) <==> LeftOut(env, key, rows, out, rest)
      ensures KeyTyped(env, key, t, out)
    {
      SameSize(out + rest, rows);
      assert forall r | r in out :: r in out + rest;
      forall a, b | a in out && b in rest
        ensures CompareRows(env, [key], a, b) <= 0 <==> !Before(key, SortValue(env, key.expr, b), SortValue(env, key.expr, a))
      {
        assert b in out + rest;
        OneKeyCompares(env, key, t, a, b);
      }
    }
    if rest :| multiset(out + rest) == multiset(rows) {
      OneKeySorted(env, key, t, out);
    }
  }

  /** By one ascending key no row left out has a smaller value than one kept. */
  lemma TopNAscending(env: Env, key: SortExpr, t: DataType, limit: nat, rows: seq<Row>, out: seq<Row>) returns (rest: seq<Row>)
    requires KeyTyped(env, key, t, rows) && key.asc && TopNYields(env, [key], limit, Table(rows), Table(out))
    ensures multiset(out + rest) == multiset(rows) && |out| <= limit
    ensures forall a, b | a in out && b in rest ::
              var u, v := SortValue(env, key.expr, a), SortValue(env, key.expr, b);
              !u.Null? && !v.Null? ==> AtMost(u, v)
  {
    hide SortValue, CompareRows, Conforms, AtMost, Sorted;
    rest :| Remainder(env, [key], rows, out, rest);
    SameSize(out + rest, rows);
    forall a, b | a in out && b in rest
      ensures var u, v := SortValue(env, key.expr, a), SortValue(env, key.expr, b); !u.Null? && !v.Null? ==> AtMost(u, v)
    {
      assert a in out + rest && b in out + rest;
      OneKeyCompares(env, key, t, a, b);
    }
  }
}
