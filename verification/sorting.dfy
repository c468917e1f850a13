/**
 Sorting and TopN.  The order of rows with equal keys is left open: the concurrent executor's
 TopN sorts and takes the first rows (`concurrent/dql.rs`), the sequential one selects them and
 does not keep ties in place (`limit.rs`).  So a sort is any ordered arrangement of its input and
 a TopN any ordered selection of its smallest rows.
 */
module Sorting {
  import opened Wrappers
  import opened Ir
  import opened Evaluator
  import opened EquiKeys
  import opened Tables

  // ---------- Comparing rows ----------

  /** `compare_values` of the sort executors, on values that are not NULL. */
  function CompareForSort(a: Value, b: Value): int
    requires !a.Null? && !b.Null?
  {
    match (a, b)
    case (Int64(x), Int64(y)) => CompareInts(x, y)
    case (Float64(x), Float64(y)) => CompareReals(x, y)
    case (Int64(x), Float64(y)) => CompareReals(x as real, y)
    case (Float64(x), Int64(y)) => CompareReals(x, y as real)
    case (Str(x), Str(y)) => CompareStrings(x, y)
    case (Numeric(x), Numeric(y)) => CompareReals(x, y)
    case (Bool(x), Bool(y)) => CompareBools(x, y)
    case _ => 0
  }

  function CompareKey(key: SortExpr, a: Value, b: Value): int {
    if a.Null? && b.Null? then 0
    else if a.Null? then (if key.nullsFirst then -1 else 1)
    else if b.Null? then (if key.nullsFirst then 1 else -1)
    else
      var c := CompareForSort(a, b);
      if key.asc then c else -c
  }

  /** A sort key that fails to evaluate sorts as NULL. */
  function SortValue(env: Env, e: Expr, row: Row): Value {
    var o := Eval(env, e, row);
    if o.Val? then o.v else Null
  }

  function CompareRows(env: Env, keys: seq<SortExpr>, a: Row, b: Row): int {
    if keys == [] then 0
    else
      var c := CompareKey(keys[0], SortValue(env, keys[0].expr, a), SortValue(env, keys[0].expr, b));
      if c != 0 then c else CompareRows(env, keys[1..], a, b)
  }

  predicate Sorted(env: Env, keys: seq<SortExpr>, rows: seq<Row>) {
    forall i, j | 0 <= i < j < |rows| :: CompareRows(env, keys, rows[i], rows[j]) <= 0
  }

  // ---------- Operators ----------

  ghost predicate SortYields(env: Env, keys: seq<SortExpr>, t: TableResult, out: TableResult) {
    if t.Failed? then out.Failed?
    else out.Table? && multiset(out.rows) == multiset(t.rows) && Sorted(env, keys, out.rows)
  }

  /** The rows kept are sorted, the right number, and none is above a row left out. */
  ghost predicate TopNYields(env: Env, keys: seq<SortExpr>, limit: nat, t: TableResult, out: TableResult) {
    if t.Failed? then out.Failed?
    else
      && out.Table?
      && |out.rows| == Min(limit, |t.rows|)
      && Sorted(env, keys, out.rows)
      && exists rest :: Remainder(env, keys, t.rows, out.rows, rest)
  }

  ghost predicate Remainder(env: Env, keys: seq<SortExpr>, all: seq<Row>, kept: seq<Row>, rest: seq<Row>) {
    && multiset(kept + rest) == multiset(all)
    && forall a, b | a in kept && b in rest :: CompareRows(env, keys, a, b) <= 0
  }

  // ---------- The order is total on rows of declared types ----------

  predicate RowConforms(row: Row, types: seq<DataType>) {
    |row| == |types| && forall i | 0 <= i < |row| :: Conforms(row[i], types[i])
  }

  predicate RowsConform(rows: seq<Row>, types: seq<DataType>) {
    forall r | r in rows :: RowConforms(r, types)
  }

  /** On rows of these types the key always has one known type, so its values can be ordered. */
  ghost predicate KeySortable(env: Env, key: SortExpr, types: seq<DataType>) {
    exists t: DataType :: !t.Unknown? && forall row | RowConforms(row, types) :: Conforms(SortValue(env, key.expr, row), t)
  }

  ghost predicate KeysSortable(env: Env, keys: seq<SortExpr>, types: seq<DataType>) {
    forall k | k in keys :: KeySortable(env, k, types)
  }

  /** Outcomes of comparing a with b, b with c and a with c that a total preorder allows. */
  predicate Transitive(ab: int, bc: int, ac: int) {
    ab <= 0 && bc <= 0 ==> ac <= 0 && (ac == 0 ==> ab == 0 && bc == 0)
  }

  lemma {:induction false} StringOrder(a: string, b: string, c: string)
    ensures CompareStrings(b, a) == -CompareStrings(a, b)
    ensures Transitive(CompareStrings(a, b), CompareStrings(b, c), CompareStrings(a, c))
  {
    if a != [] && b != [] && c != [] {
      StringOrder(a[1..], b[1..], c[1..]);
    } else if a != [] && b != [] {
      StringOrder(a[1..], b[1..], []);
    }
  }

  lemma KeyOrder(key: SortExpr, t: DataType, a: Value, b: Value, c: Value)
    requires !t.Unknown? && Conforms(a, t) && Conforms(b, t) && Conforms(c, t)
    ensures CompareKey(key, b, a) == -CompareKey(key, a, b)
    ensures Transitive(CompareKey(key, a, b), CompareKey(key, b, c), CompareKey(key, a, c))
  {
    if t.StringType? {
      if a.Str? && b.Str? {
        StringOrder(a.s, b.s, if c.Str? then c.s else []);
      }
      if a.Str? && b.Str? && c.Str? {
        StringOrder(c.s, b.s, a.s);
        StringOrder(b.s, c.s, a.s);
        StringOrder(a.s, c.s, b.s);
      }
    }
  }

  lemma {:induction false} RowOrder(env: Env, keys: seq<SortExpr>, types: seq<DataType>, a: Row, b: Row, c: Row)
    requires KeysSortable(env, keys, types)
    requires RowConforms(a, types) && RowConforms(b, types) && RowConforms(c, types)
    ensures CompareRows(env, keys, b, a) == -CompareRows(env, keys, a, b)
    ensures Transitive(CompareRows(env, keys, a, b), CompareRows(env, keys, b, c), CompareRows(env, keys, a, c))
  {
    if keys != [] {
      var k := keys[0];
      assert KeySortable(env, k, types);
      var t: DataType :| !t.Unknown? && forall row | RowConforms(row, types) :: Conforms(SortValue(env, k.expr, row), t);
      KeyOrder(k, t, SortValue(env, k.expr, a), SortValue(env, k.expr, b), SortValue(env, k.expr, c));
      RowOrder(env, keys[1..], types, a, b, c);
    }
  }

  // ---------- A sorted arrangement exists ----------

  lemma SameSize(a: seq<Row>, b: seq<Row>)
    requires multiset(a) == multiset(b)
    ensures |a| == |b|
    ensures forall x :: x in a <==> x in b
  {
    assert |a| == |multiset(a)| == |multiset(b)| == |b|;
    assert forall x :: x in a <==> x in multiset(a);
    assert forall x :: x in b <==> x in multiset(b);
  }

  function InsertRow(env: Env, keys: seq<SortExpr>, x: Row, rows: seq<Row>): seq<Row> {
    if rows == [] then [x]
    else if CompareRows(env, keys, x, rows[0]) <= 0 then [x] + rows
    else [rows[0]] + InsertRow(env, keys, x, rows[1..])
  }

  /** The stable sort of the rows. */
  function SortRows(env: Env, keys: seq<SortExpr>, rows: seq<Row>): seq<Row> {
    if rows == [] then [] else InsertRow(env, keys, rows[0], SortRows(env, keys, rows[1..]))
  }

  lemma {:induction false} InsertRowContents(env: Env, keys: seq<SortExpr>, x: Row, rows: seq<Row>)
    ensures multiset(InsertRow(env, keys, x, rows)) == multiset(rows) + multiset{x}
  {
    if rows != [] {
      assert rows == [rows[0]] + rows[1..];
      InsertRowContents(env, keys, x, rows[1..]);
    }
  }

  lemma {:induction false} InsertRowSorted(env: Env, keys: seq<SortExpr>, types: seq<DataType>, x: Row, rows: seq<Row>)
    requires KeysSortable(env, keys, types) && RowConforms(x, types) && RowsConform(rows, types)
    requires Sorted(env, keys, rows)
    ensures Sorted(env, keys, InsertRow(env, keys, x, rows))
  {
    hide CompareRows;
    if rows != [] {
      RowOrder(env, keys, types, x, rows[0], rows[0]);
      if CompareRows(env, keys, x, rows[0]) <= 0 {
        forall j | 0 <= j < |rows|
          ensures CompareRows(env, keys, x, rows[j]) <= 0
        {
          RowOrder(env, keys, types, x, rows[0], rows[j]);
          RowOrder(env, keys, types, rows[0], rows[0], x);
        }
      } else {
        InsertRowSorted(env, keys, types, x, rows[1..]);
        var rest := InsertRow(env, keys, x, rows[1..]);
        InsertRowContents(env, keys, x, rows[1..]);
        forall r | r in rest
          ensures CompareRows(env, keys, rows[0], r) <= 0
        {
          assert r in multiset(rest);
          if r != x {
            assert r in rows[1..];
          }
        }
      }
    }
  }

  lemma {:induction false} SortRowsContents(env: Env, keys: seq<SortExpr>, rows: seq<Row>)
    ensures multiset(SortRows(env, keys, rows)) == multiset(rows)
  {
    hide InsertRow;
    if rows != [] {
      var rest := SortRows(env, keys, rows[1..]);
      SortRowsContents(env, keys, rows[1..]);
      InsertRowContents(env, keys, rows[0], rest);
      assert rows == [rows[0]] + rows[1..];
    }
  }

  lemma {:induction false} SortRowsSorted(env: Env, keys: seq<SortExpr>, types: seq<DataType>, rows: seq<Row>)
    requires KeysSortable(env, keys, types) && RowsConform(rows, types)
    ensures Sorted(env, keys, SortRows(env, keys, rows))
  {
    hide InsertRow, KeysSortable, RowConforms, CompareRows;
    if rows != [] {
      var rest := SortRows(env, keys, rows[1..]);
      SortRowsSorted(env, keys, types, rows[1..]);
      SortRowsContents(env, keys, rows[1..]);
      SameSize(rest, rows[1..]);
      hide Sorted;
      InsertRowSorted(env, keys, types, rows[0], rest);
    }
  }

  /** On rows whose keys can be ordered, the stable sort is one of the sorted arrangements. */
  lemma SortRowsSorts(env: Env, keys: seq<SortExpr>, types: seq<DataType>, rows: seq<Row>)
    requires KeysSortable(env, keys, types) && RowsConform(rows, types)
    ensures SortYields(env, keys, Table(rows), Table(SortRows(env, keys, rows)))
  {
    hide SortRows, Sorted, KeysSortable, RowsConform;
    SortRowsContents(env, keys, rows);
    SortRowsSorted(env, keys, types, rows);
  }

  /** The rows that tie with a given one. */
  function Ties(env: Env, keys: seq<SortExpr>, x: Row): Row -> bool {
    r => CompareRows(env, keys, x, r) == 0
  }

  lemma {:induction false} InsertRowStable(env: Env, keys: seq<SortExpr>, types: seq<DataType>, x: Row, y: Row, rows: seq<Row>)
    requires KeysSortable(env, keys, types) && RowConforms(x, types) && RowConforms(y, types) && RowsConform(rows, types)
    ensures Keep(InsertRow(env, keys, y, rows), Ties(env, keys, x)) == Keep([y] + rows, Ties(env, keys, x))
  {
    hide CompareRows, KeysSortable, RowConforms, Keep, Ties;
    if rows != [] && CompareRows(env, keys, y, rows[0]) > 0 {
      assert rows[0] in rows;
      var f, z, rest := Ties(env, keys, x), rows[0], rows[1..];
      InsertRowStable(env, keys, types, x, y, rest);
      NotBothTie(env, keys, types, x, y, z);
      assert InsertRow(env, keys, y, rows) == [z] + InsertRow(env, keys, y, rest) && rows == [z] + rest;
      KeepConcat([z], InsertRow(env, keys, y, rest), f);
      KeepConcat([z], [y] + rest, f);
      KeepSwap(y, z, rest, f);
    } else {
      assert InsertRow(env, keys, y, rows) == [y] + rows;
    }
  }

  /** Two neighbours of which one is dropped may change places. */
  lemma KeepSwap(y: Row, z: Row, rest: seq<Row>, f: Row -> bool)
    requires !(f(y) && f(z))
    ensures Keep([z] + ([y] + rest), f) == Keep([y] + ([z] + rest), f)
  {
    KeepOne(y, f);
    KeepOne(z, f);
    hide Keep;
    KeepConcat([z], [y] + rest, f);
    KeepConcat([y], [z] + rest, f);
    KeepConcat([y], rest, f);
    KeepConcat([z], rest, f);
  }

  lemma KeepOne(r: Row, f: Row -> bool)
    ensures Keep([r], f) == if f(r) then [r] else []
  {
    assert [r][1..] == [];
  }

  lemma NotBothTie(env: Env, keys: seq<SortExpr>, types: seq<DataType>, x: Row, y: Row, z: Row)
    requires KeysSortable(env, keys, types) && RowConforms(x, types) && RowConforms(y, types) && RowConforms(z, types)
    requires CompareRows(env, keys, y, z) > 0
    ensures !(Ties(env, keys, x)(y) && Ties(env, keys, x)(z))
  {
    hide CompareRows, KeysSortable, RowConforms;
    RowOrder(env, keys, types, x, y, z);
    RowOrder(env, keys, types, y, x, z);
  }

  /** Rows with equal keys stay in the order they came in. */
  lemma {:induction false} SortRowsStable(env: Env, keys: seq<SortExpr>, types: seq<DataType>, x: Row, rows: seq<Row>)
    requires KeysSortable(env, keys, types) && RowConforms(x, types) && RowsConform(rows, types)
    ensures Keep(SortRows(env, keys, rows), Ties(env, keys, x)) == Keep(rows, Ties(env, keys, x))
  {
    hide CompareRows, KeysSortable, RowConforms, InsertRow;
    if rows != [] {
      var rest, f := SortRows(env, keys, rows[1..]), Ties(env, keys, x);
      SortRowsStable(env, keys, types, x, rows[1..]);
      SortRowsContents(env, keys, rows[1..]);
      SameSize(rest, rows[1..]);
      assert rows[0] in rows;
      InsertRowStable(env, keys, types, x, rows[0], rest);
      KeepConcat([rows[0]], rest, f);
      KeepConcat([rows[0]], rows[1..], f);
      assert [rows[0]] + rows[1..] == rows;
    }
  }

  // ---------- Sort then Limit is TopN ----------

  lemma SortLimitIsTopN(env: Env, keys: seq<SortExpr>, limit: nat, t: TableResult, s: TableResult)
    requires SortYields(env, keys, t, s)
    ensures TopNYields(env, keys, limit, t, LimitTable(Some(limit), None, s))
  {
    if t.Table? {
      SameSize(s.rows, t.rows);
      var n := Min(limit, |s.rows|);
      hide CompareRows, Sorted;
      var kept, rest := s.rows[..n], s.rows[n..];
      assert s.rows[0..] == s.rows && s.rows == kept + rest;
      assert LimitTable(Some(limit), None, s).rows == kept;
      assert Remainder(env, keys, t.rows, kept, rest);
    }
  }

  lemma TopNIsSortLimit(env: Env, keys: seq<SortExpr>, types: seq<DataType>, limit: nat, t: TableResult, out: TableResult)
    returns (s: TableResult)
    requires KeysSortable(env, keys, types) && (t.Table? ==> RowsConform(t.rows, types))
    requires TopNYields(env, keys, limit, t, out)
    ensures SortYields(env, keys, t, s) && out == LimitTable(Some(limit), None, s)
  {
    hide CompareRows, SortRows, RowConforms, KeysSortable;
    if t.Failed? {
      return Failed;
    }
    var rest :| Remainder(env, keys, t.rows, out.rows, rest);
    SameSize(out.rows + rest, t.rows);
    SortRowsSorts(env, keys, types, rest);
    var sorted := SortRows(env, keys, rest);
    SameSize(sorted, rest);
    s := Table(out.rows + sorted);
    assert multiset(out.rows + sorted) == multiset(out.rows + rest);
    assert s.rows[0..] == s.rows && s.rows[..|out.rows|] == out.rows;
  }

  /** The TopN fusion: a TopN may produce exactly what a Sort followed by a Limit may produce. */
  lemma TopNExact(env: Env, keys: seq<SortExpr>, types: seq<DataType>, limit: nat, t: TableResult, out: TableResult)
    requires KeysSortable(env, keys, types) && (t.Table? ==> RowsConform(t.rows, types))
    ensures TopNYields(env, keys, limit, t, out)
            <==> exists s :: SortYields(env, keys, t, s) && out == LimitTable(Some(limit), None, s)
  {
    if TopNYields(env, keys, limit, t, out) {
      var s := TopNIsSortLimit(env, keys, types, limit, t, out);
    }
    forall s | SortYields(env, keys, t, s)
      ensures TopNYields(env, keys, limit, t, LimitTable(Some(limit), None, s))
    {
      SortLimitIsTopN(env, keys, limit, t, s);
    }
  }
}
