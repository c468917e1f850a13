/**
 The aggregate states of `crates/functions/src/aggregate.rs`: folding values into a state, merging two
 states, and the value a state finally gives.  Arithmetic is exact.
 */
module AggregateStates {
  import opened Wrappers
  import opened Ir
  import opened Evaluator
  import opened EquiKeys
  import opened Sorting
  import opened SortOrder

  // ---------- COUNT ----------

  function CountUpdate(n: int, v: Value): int {
    if v.Null? then n else n + 1
  }

  function CountFold(n: int, xs: seq<Value>): int
    decreases |xs|
  {
    if xs == [] then n else CountUpdate(CountFold(n, xs[..|xs| - 1]), xs[|xs| - 1])
  }

  lemma {:induction false} CountMerges(xs: seq<Value>, ys: seq<Value>)
    ensures CountFold(0, xs) + CountFold(0, ys) == CountFold(0, xs + ys)
    decreases |ys|
  {
    if ys == [] {
      assert xs + ys == xs;
    } else {
      assert (xs + ys)[..|xs + ys| - 1] == xs + ys[..|ys| - 1];
      CountMerges(xs, ys[..|ys| - 1]);
    }
  }

  class CountState {
    var count: int

    constructor ()
      ensures count == 0
    {
      count := 0;
    }

    method Update(v: Value)
      modifies this
      ensures count == CountUpdate(old(count), v)
    {
      if !v.Null? {
        count := count + 1;
      }
    }

    method Merge(other: CountState)
      modifies this
      ensures count == old(count) + old(other.count)
    {
      count := count + other.count;
    }
  }

  // ---------- SUM ----------

  datatype Sum = Sum(sumInt: int, sumFloat: real, sumDecimal: real, isFloat: bool, isDecimal: bool, hasValue: bool)

  const NO_SUM: Sum := Sum(0, 0.0, 0.0, false, false, false)

  predicate IsNumber(v: Value) {
    v.Int64? || v.Float64? || v.Numeric?
  }

  function SumUpdate(s: Sum, v: Value): Option<Sum> {
    match v
    case Int64(n) =>
      Some((if s.isDecimal then s.(sumDecimal := s.sumDecimal + n as real)
            else if s.isFloat then s.(sumFloat := s.sumFloat + n as real)
            else s.(sumInt := s.sumInt + n)).(hasValue := true))
    case Float64(f) =>
      var t := if !s.isFloat && !s.isDecimal then s.(sumFloat := s.sumInt as real, isFloat := true) else s;
      Some((if t.isDecimal then t.(sumDecimal := t.sumDecimal + f) else t.(sumFloat := t.sumFloat + f)).(hasValue := true))
    case Numeric(d) =>
      var t := ToDecimal(s);
      Some(t.(sumDecimal := t.sumDecimal + d, hasValue := true))
    case Null => Some(s)
    case _ => None
  }

  function ToDecimal(s: Sum): Sum {
    if s.isDecimal then s
    else s.(sumDecimal := if s.isFloat then s.sumFloat else s.sumInt as real, isDecimal := true)
  }

  function SumMerge(s: Sum, t: Sum): Sum {
    var r :=
      if t.isDecimal || s.isDecimal then
        var d := ToDecimal(s);
        d.(sumDecimal := d.sumDecimal + (if t.isDecimal then t.sumDecimal else if t.isFloat then t.sumFloat else t.sumInt as real))
      else if t.isFloat || s.isFloat then
        var f := if s.isFloat then s else s.(sumFloat := s.sumInt as real, isFloat := true);
        f.(sumFloat := f.sumFloat + (if t.isFloat then t.sumFloat else t.sumInt as real))
      else s.(sumInt := s.sumInt + t.sumInt);
    r.(hasValue := s.hasValue || t.hasValue)
  }

  function SumFinalize(s: Sum): Value {
    if !s.hasValue then Null
    else if s.isDecimal then Numeric(s.sumDecimal)
    else if s.isFloat then Float64(s.sumFloat)
    else Int64(s.sumInt)
  }

  function SumFold(xs: seq<Value>): Option<Sum>
    decreases |xs|
  {
    if xs == [] then Some(NO_SUM)
    else
      var s := SumFold(xs[..|xs| - 1]);
      if s.None? then None else SumUpdate(s.value, xs[|xs| - 1])
  }

  function Amount(v: Value): real {
    match v
    case Int64(n) => n as real
    case Float64(f) => f
    case Numeric(d) => d
    case _ => 0.0
  }

  function Total(xs: seq<Value>): real
    decreases |xs|
  {
    if xs == [] then 0.0 else Total(xs[..|xs| - 1]) + Amount(xs[|xs| - 1])
  }

  predicate Summable(xs: seq<Value>) {
    forall v | v in xs :: v.Null? || IsNumber(v)
  }

  /** The sum itself: NUMERIC if any value is, else FLOAT64 if any is, else INT64; NULL without values. */
  function SumMeaning(xs: seq<Value>): Value {
    if forall v | v in xs :: v.Null? then Null
    else if exists v | v in xs :: v.Numeric? then Numeric(Total(xs))
    else if exists v | v in xs :: v.Float64? then Float64(Total(xs))
    else Int64(Total(xs).Floor)
  }

  /** A state holds the kind and the exact total of the values folded into it. */
  ghost predicate SumHolds(s: Sum, xs: seq<Value>) {
    && (s.isDecimal <==> exists v | v in xs :: v.Numeric?)
    && (!s.isDecimal ==> (s.isFloat <==> exists v | v in xs :: v.Float64?))
    && (s.hasValue <==> exists v | v in xs :: !v.Null?)
    && Total(xs) == (if s.isDecimal then s.sumDecimal else if s.isFloat then s.sumFloat else s.sumInt as real)
  }

  lemma InAppended(xs: seq<Value>, y: Value)
    ensures forall v :: v in xs + [y] <==> v in xs || v == y
    ensures Total(xs + [y]) == Total(xs) + Amount(y)
  {
    assert (xs + [y])[..|xs|] == xs;
  }

  lemma SumUpdateHolds(s: Sum, xs: seq<Value>, v: Value)
    requires SumHolds(s, xs) && (v.Null? || IsNumber(v))
    ensures SumUpdate(s, v).Some? && SumHolds(SumUpdate(s, v).value, xs + [v])
  {
    InAppended(xs, v);
    hide Total;
  }

  lemma {:induction false} SumFoldHolds(xs: seq<Value>)
    ensures SumFold(xs).Some? <==> Summable(xs)
    ensures SumFold(xs).Some? ==> SumHolds(SumFold(xs).value, xs)
    decreases |xs|
  {
    hide SumUpdate, SumHolds;
    if xs == [] {
      NothingHeld();
    } else {
      var front, v := xs[..|xs| - 1], xs[|xs| - 1];
      assert xs == front + [v];
      SumFoldHolds(front);
      NotSummable(SumFold(front), v);
      if SumFold(front).Some? && (v.Null? || IsNumber(v)) {
        SumUpdateHolds(SumFold(front).value, front, v);
      }
    }
  }

  lemma NothingHeld()
    ensures SumHolds(NO_SUM, [])
  {
  }

  lemma NotSummable(s: Option<Sum>, v: Value)
    ensures s.Some? && !v.Null? && !IsNumber(v) ==> SumUpdate(s.value, v).None?
  {
  }

  /** Promotion in any order: what a fold finally gives depends only on the kinds present and the exact total. */
  lemma SumIsMeaning(xs: seq<Value>)
    requires SumFold(xs).Some?
    ensures SumFinalize(SumFold(xs).value) == SumMeaning(xs)
  {
    hide SumFold, Total;
    SumFoldHolds(xs);
  }

  lemma {:induction false} TotalConcat(xs: seq<Value>, ys: seq<Value>)
    ensures Total(xs + ys) == Total(xs) + Total(ys)
    decreases |ys|
  {
    if ys == [] {
      assert xs + ys == xs;
    } else {
      assert (xs + ys)[..|xs + ys| - 1] == xs + ys[..|ys| - 1];
      TotalConcat(xs, ys[..|ys| - 1]);
    }
  }

  lemma SumMergeHolds(s: Sum, xs: seq<Value>, t: Sum, ys: seq<Value>)
    requires SumHolds(s, xs) && SumHolds(t, ys)
    ensures SumHolds(SumMerge(s, t), xs + ys)
  {
    TotalConcat(xs, ys);
    assert forall v :: v in xs + ys <==> v in xs || v in ys;
    hide Total;
  }

  /** SUM folds and merges alike: both parts succeed exactly when the whole does, and give the same value. */
  lemma SumMerges(xs: seq<Value>, ys: seq<Value>)
    ensures SumFold(xs).Some? && SumFold(ys).Some? <==> SumFold(xs + ys).Some?
    ensures SumFold(xs + ys).Some? ==>
              SumFold(xs).Some? && SumFold(ys).Some?
              && SumFinalize(SumMerge(SumFold(xs).value, SumFold(ys).value)) == SumFinalize(SumFold(xs + ys).value)
  {
    SumFoldHolds(xs);
    SumFoldHolds(ys);
    SumFoldHolds(xs + ys);
    assert Summable(xs + ys) <==> Summable(xs) && Summable(ys);
    hide SumFold, SumHolds, SumMerge;
    if SumFold(xs + ys).Some? {
      SumMergeHolds(SumFold(xs).value, xs, SumFold(ys).value, ys);
    }
  }

  class SumState {
    var sumInt: int
    var sumFloat: real
    var sumDecimal: real
    var isFloat: bool
    var isDecimal: bool
    var hasValue: bool

    constructor ()
      ensures State() == NO_SUM
    {
      sumInt, sumFloat, sumDecimal, isFloat, isDecimal, hasValue := 0, 0.0, 0.0, false, false, false;
    }

    function State(): Sum
      reads this
    {
      Sum(sumInt, sumFloat, sumDecimal, isFloat, isDecimal, hasValue)
    }

    method Update(v: Value) returns (ok: bool)
      modifies this
      ensures ok == SumUpdate(old(State()), v).Some?
      ensures State() == if ok then SumUpdate(old(State()), v).value else old(State())
    {
      match v {
        case Int64(n) =>
          if isDecimal {
            sumDecimal := sumDecimal + n as real;
          } else if isFloat {
            sumFloat := sumFloat + n as real;
          } else {
            sumInt := sumInt + n;
          }
          hasValue := true;
        case Float64(f) =>
          if !isFloat && !isDecimal {
            sumFloat := sumInt as real;
            isFloat := true;
          }
          if isDecimal {
            sumDecimal := sumDecimal + f;
          } else {
            sumFloat := sumFloat + f;
          }
          hasValue := true;
        case Numeric(d) =>
          if !isDecimal {
            sumDecimal := if isFloat then sumFloat else sumInt as real;
            isDecimal := true;
          }
          sumDecimal := sumDecimal + d;
          hasValue := true;
        case Null =>
        case _ => return false;
      }
      return true;
    }

    method Merge(other: SumState)
      requires other != this
      modifies this
      ensures State() == SumMerge(old(State()), other.State())
    {
      if other.isDecimal || isDecimal {
        if !isDecimal {
          sumDecimal := if isFloat then sumFloat else sumInt as real;
          isDecimal := true;
        }
        var otherDecimal := if other.isDecimal then other.sumDecimal else if other.isFloat then other.sumFloat else other.sumInt as real;
        sumDecimal := sumDecimal + otherDecimal;
      } else if other.isFloat || isFloat {
        if !isFloat {
          sumFloat := sumInt as real;
          isFloat := true;
        }
        var otherFloat := if other.isFloat then other.sumFloat else other.sumInt as real;
        sumFloat := sumFloat + otherFloat;
      } else {
        sumInt := sumInt + other.sumInt;
      }
      hasValue := hasValue || other.hasValue;
    }

    method Finalize() returns (v: Value)
      ensures v == SumFinalize(State())
    {
      if !hasValue {
        return Null;
      }
      if isDecimal {
        return Numeric(sumDecimal);
      }
      if isFloat {
        return Float64(sumFloat);
      }
      return Int64(sumInt);
    }
  }

  // ---------- AVG ----------

  datatype Avg = Avg(sum: real, count: int)

  function AvgUpdate(s: Avg, v: Value): Option<Avg> {
    if v.Null? then Some(s) else if IsNumber(v) then Some(Avg(s.sum + Amount(v), s.count + 1)) else None
  }

  function AvgFold(xs: seq<Value>): Option<Avg>
    decreases |xs|
  {
    if xs == [] then Some(Avg(0.0, 0))
    else
      var s := AvgFold(xs[..|xs| - 1]);
      if s.None? then None else AvgUpdate(s.value, xs[|xs| - 1])
  }

  function AvgFinalize(s: Avg): Value {
    if s.count == 0 then Null else Float64(s.sum / s.count as real)
  }

  /** An average's state is the exact total and the number of values. */
  lemma {:induction false} AvgHolds(xs: seq<Value>)
    ensures AvgFold(xs).Some? <==> Summable(xs)
    ensures AvgFold(xs).Some? ==> AvgFold(xs).value == Avg(Total(xs), CountFold(0, xs))
    decreases |xs|
  {
    if xs != [] {
      var front := xs[..|xs| - 1];
      assert xs == front + [xs[|xs| - 1]];
      AvgHolds(front);
    }
  }

  lemma AvgMerges(xs: seq<Value>, ys: seq<Value>)
    ensures AvgFold(xs).Some? && AvgFold(ys).Some? <==> AvgFold(xs + ys).Some?
    ensures AvgFold(xs + ys).Some? ==>
              AvgFold(xs).Some? && AvgFold(ys).Some?
              && Avg(AvgFold(xs).value.sum + AvgFold(ys).value.sum, AvgFold(xs).value.count + AvgFold(ys).value.count) == AvgFold(xs + ys).value
  {
    AvgHolds(xs);
    AvgHolds(ys);
    AvgHolds(xs + ys);
    assert Summable(xs + ys) <==> Summable(xs) && Summable(ys);
    TotalConcat(xs, ys);
    CountMerges(xs, ys);
  }

  /** What AVG gives, times the number of values, is their total; it is NULL without values. */
  lemma AvgIsMean(xs: seq<Value>)
    requires AvgFold(xs).Some?
    ensures var v := AvgFinalize(AvgFold(xs).value);
            if forall x | x in xs :: x.Null? then v == Null
            else v.Float64? && v.f * CountFold(0, xs) as real == Total(xs)
  {
    AvgHolds(xs);
    CountedIff(xs);
    var n := CountFold(0, xs);
    if n != 0 {
      Quotient(Total(xs), n as real);
    }
  }

  lemma Quotient(a: real, b: real)
    requires b != 0.0
    ensures a / b * b == a
  {
  }

  lemma {:induction false} CountedIff(xs: seq<Value>)
    ensures CountFold(0, xs) >= 0
    ensures CountFold(0, xs) == 0 <==> forall x | x in xs :: x.Null?
    decreases |xs|
  {
    if xs != [] {
      var front := xs[..|xs| - 1];
      assert xs == front + [xs[|xs| - 1]];
      CountedIff(front);
    }
  }

  class AvgState {
    var sum: real
    var count: int

    constructor ()
      ensures State() == Avg(0.0, 0)
    {
      sum, count := 0.0, 0;
    }

    function State(): Avg
      reads this
    {
      Avg(sum, count)
    }

    method Update(v: Value) returns (ok: bool)
      modifies this
      ensures ok == AvgUpdate(old(State()), v).Some?
      ensures State() == if ok then AvgUpdate(old(State()), v).value else old(State())
    {
      match v {
        case Int64(n) => sum, count := sum + n as real, count + 1;
        case Float64(f) => sum, count := sum + f, count + 1;
        case Numeric(d) => sum, count := sum + d, count + 1;
        case Null =>
        case _ => return false;
      }
      return true;
    }

    method Merge(other: AvgState)
      modifies this
      ensures State() == Avg(old(sum) + old(other.sum), old(count) + old(other.count))
    {
      sum, count := sum + other.sum, count + other.count;
    }

    method Finalize() returns (v: Value)
      ensures v == AvgFinalize(State())
    {
      if count == 0 {
        return Null;
      }
      return Float64(sum / count as real);
    }
  }

  // ---------- MIN and MAX ----------

  /** The order of values: NULL last, kinds that cannot be compared equal. */
  function CompareValues(a: Value, b: Value): int {
    if a.Null? && b.Null? then 0 else if a.Null? then 1 else if b.Null? then -1 else CompareForSort(a, b)
  }

  /** A value replaces the one held: smaller for MIN, larger for MAX. */
  predicate Beats(max: bool, v: Value, held: Value) {
    if max then CompareValues(v, held) > 0 else CompareValues(v, held) < 0
  }

  function ExtremeUpdate(max: bool, held: Option<Value>, v: Value): Option<Value> {
    if v.Null? then held
    else if held.None? || Beats(max, v, held.value) then Some(v)
    else held
  }

  function ExtremeFold(max: bool, held: Option<Value>, xs: seq<Value>): Option<Value>
    decreases |xs|
  {
    if xs == [] then held else ExtremeUpdate(max, ExtremeFold(max, held, xs[..|xs| - 1]), xs[|xs| - 1])
  }

  function ExtremeMerge(max: bool, a: Option<Value>, b: Option<Value>): Option<Value> {
    if b.Some? && (a.None? || Beats(max, b.value, a.value)) then b else a
  }

  /** MIN or MAX of two parts merges to that of the whole. */
  predicate MergesRight(max: bool, xs: seq<Value>, ys: seq<Value>) {
    ExtremeMerge(max, ExtremeFold(max, None, xs), ExtremeFold(max, None, ys)) == ExtremeFold(max, None, xs + ys)
  }

  datatype Kind = BoolKind | IntKind | FloatKind | NumericKind | StringKind

  function KindOf(v: Value): Kind
    requires !v.Null?
  {
    match v
    case Bool(_) => BoolKind
    case Int64(_) => IntKind
    case Float64(_) => FloatKind
    case Numeric(_) => NumericKind
    case Str(_) => StringKind
  }

  predicate OfKinds(kinds: set<Kind>, xs: seq<Value>) {
    forall v | v in xs :: v.Null? || KindOf(v) in kinds
  }

  /** Kinds whose values can all be compared with each other. */
  predicate Comparable(kinds: set<Kind>) {
    forall k, l | k in kinds && l in kinds :: k == l || (k in {IntKind, FloatKind} && l in {IntKind, FloatKind})
  }

  lemma Antisymmetric(a: Value, b: Value)
    requires !a.Null? && !b.Null?
    ensures CompareValues(b, a) == -CompareValues(a, b)
  {
    if a.Str? && b.Str? {
      StringOrder(a.s, b.s, b.s);
    }
  }

  /** Among comparable kinds, what neither the second beats the first nor the third the second, the third does not beat the first. */
  lemma Chains(kinds: set<Kind>, max: bool, x: Value, a: Value, b: Value)
    requires Comparable(kinds) && !x.Null? && !a.Null? && !b.Null?
    requires KindOf(x) in kinds && KindOf(a) in kinds && KindOf(b) in kinds
    ensures !Beats(max, b, a) && !Beats(max, a, x) ==> !Beats(max, b, x)
    ensures Beats(max, b, a) && Beats(max, a, x) ==> Beats(max, b, x)
  {
    assert KindOf(x) == KindOf(a) || (KindOf(x) in {IntKind, FloatKind} && KindOf(a) in {IntKind, FloatKind});
    assert KindOf(b) == KindOf(a) || (KindOf(b) in {IntKind, FloatKind} && KindOf(a) in {IntKind, FloatKind});
    if a.Str? {
      StringOrder(x.s, a.s, b.s);
      StringOrder(b.s, a.s, x.s);
      StringOrder(x.s, b.s, b.s);
      StringOrder(a.s, b.s, x.s);
      StringOrder(b.s, x.s, a.s);
      StringOrder(x.s, b.s, a.s);
      StringOrder(a.s, x.s, b.s);
    }
  }

  lemma {:induction false} ExtremeFrom(max: bool, xs: seq<Value>, kinds: set<Kind>)
    requires OfKinds(kinds, xs)
    ensures var r := ExtremeFold(max, None, xs); r.Some? ==> !r.value.Null? && KindOf(r.value) in kinds
    decreases |xs|
  {
    hide CompareValues;
    if xs != [] {
      var front := xs[..|xs| - 1];
      assert xs == front + [xs[|xs| - 1]];
      ExtremeFrom(max, front, kinds);
      assert xs[|xs| - 1] in xs;
    }
  }

  /** Over comparable kinds, NULLs and ties included, MIN and MAX of a whole are merged from its parts. */
  lemma {:induction false} ExtremeMerges(max: bool, kinds: set<Kind>, xs: seq<Value>, ys: seq<Value>)
    requires Comparable(kinds) && OfKinds(kinds, xs) && OfKinds(kinds, ys)
    ensures MergesRight(max, xs, ys)
    decreases |ys|
  {
    hide Beats, Comparable;
    if ys == [] {
      assert xs + ys == xs;
    } else {
      var front, b := ys[..|ys| - 1], ys[|ys| - 1];
      assert ys == front + [b] && b in ys;
      assert (xs + ys)[..|xs + ys| - 1] == xs + front;
      ExtremeMerges(max, kinds, xs, front);
      ExtremeFrom(max, xs, kinds);
      ExtremeFrom(max, front, kinds);
      var x, a := ExtremeFold(max, None, xs), ExtremeFold(max, None, front);
      if x.Some? && a.Some? && !b.Null? {
        Chains(kinds, max, x.value, a.value, b);
      }
    }
  }

  /** Over values of one type MIN and MAX are a value that none is below, or above; NULL only where all are. */
  lemma {:induction false} ExtremeIs(max: bool, t: DataType, xs: seq<Value>)
    requires !t.Unknown? && forall x | x in xs :: Conforms(x, t)
    ensures var r := ExtremeFold(max, None, xs);
            && (r.None? <==> forall x | x in xs :: x.Null?)
            && (r.Some? ==> r.value in xs && !r.value.Null?
                            && forall x | x in xs && !x.Null? :: if max then AtMost(x, r.value) else AtMost(r.value, x))
    decreases |xs|
  {
    hide AtMost, Conforms, CompareForSort;
    if xs != [] {
      var front, b := xs[..|xs| - 1], xs[|xs| - 1];
      assert xs == front + [b] && b in xs;
      ExtremeIs(max, t, front);
      var a := ExtremeFold(max, None, front);
      if a.Some? && !b.Null? {
        assert a.value in xs;
        ValueOrder(t, b, a.value);
        ValueOrder(t, a.value, b);
        ValueOrder(t, b, b);
        forall x | x in front && !x.Null?
          ensures Beats(max, b, a.value) ==> if max then AtMost(x, b) else AtMost(b, x)
        {
          assert x in xs;
          AtMostTransitive(t, x, a.value, b);
          AtMostTransitive(t, b, a.value, x);
        }
      } else if !b.Null? {
        ValueOrder(t, b, b);
      }
    }
  }

  lemma AtMostTransitive(t: DataType, a: Value, b: Value, c: Value)
    requires !t.Unknown? && Conforms(a, t) && Conforms(b, t) && Conforms(c, t) && !a.Null? && !b.Null? && !c.Null?
    ensures AtMost(a, b) && AtMost(b, c) ==> AtMost(a, c)
  {
    ValueOrder(t, a, b);
    ValueOrder(t, b, c);
    ValueOrder(t, a, c);
    if t.StringType? {
      StringOrder(a.s, b.s, c.s);
    }
  }

  /** Two ordered values of a kind. */
  function Small(k: Kind): Value {
    match k
    case BoolKind => Bool(false)
    case IntKind => Int64(1)
    case FloatKind => Float64(1.0)
    case NumericKind => Numeric(1.0)
    case StringKind => Str("a")
  }

  function Large(k: Kind): Value {
    match k
    case BoolKind => Bool(true)
    case IntKind => Int64(2)
    case FloatKind => Float64(2.0)
    case NumericKind => Numeric(2.0)
    case StringKind => Str("b")
  }

  lemma ThreeValues(max: bool, x: Value, a: Value, b: Value)
    requires !x.Null? && !a.Null? && !b.Null?
    requires !Beats(max, a, x) && !Beats(max, b, a) && Beats(max, b, x) && a != x
    ensures ExtremeFold(max, None, [x]) == Some(x) && ExtremeFold(max, None, [a, b]) == Some(a)
    ensures ExtremeFold(max, None, [x] + [a, b]) == Some(b)
    ensures !MergesRight(max, [x], [a, b])
  {
    hide Beats;
    assert [x][..0] == [] && [a][..0] == [] && [a, b][..1] == [a];
    assert [x] + [a, b] == [x, a, b] && [x, a, b][..2] == [x, a] && [x, a][..1] == [x];
    assert ExtremeFold(max, None, []) == None;
    assert ExtremeFold(max, None, [a]) == Some(a) && ExtremeFold(max, None, [x]) == Some(x);
    assert ExtremeFold(max, None, [x, a]) == Some(x);
    assert b != x by {
      NotItself(max, x);
    }
  }

  lemma NotItself(max: bool, x: Value)
    ensures !Beats(max, x, x)
  {
    if !x.Null? {
      Antisymmetric(x, x);
    }
  }

  /** Values of two kinds that cannot be compared: `[2]` with `['a', 1]` merges to 2, the whole folds to 1. */
  lemma IncomparableLost(max: bool, k: Kind, l: Kind)
    requires k != l && !(k in {IntKind, FloatKind} && l in {IntKind, FloatKind})
    ensures !MergesRight(max, [if max then Small(k) else Large(k)], [Small(l), if max then Large(k) else Small(k)])
  {
    ThreeValues(max, if max then Small(k) else Large(k), Small(l), if max then Large(k) else Small(k));
  }

  /** Merging is right on all values of some kinds exactly when the kinds are one, or INT64 with FLOAT64. */
  lemma ExtremeMergesIff(max: bool, kinds: set<Kind>)
    ensures (forall xs, ys | OfKinds(kinds, xs) && OfKinds(kinds, ys) :: MergesRight(max, xs, ys)) <==> Comparable(kinds)
  {
    hide MergesRight, Small, Large;
    if Comparable(kinds) {
      forall xs, ys | OfKinds(kinds, xs) && OfKinds(kinds, ys)
        ensures MergesRight(max, xs, ys)
      {
        ExtremeMerges(max, kinds, xs, ys);
      }
    } else {
      var k, l :| k in kinds && l in kinds && !(k == l || (k in {IntKind, FloatKind} && l in {IntKind, FloatKind}));
      IncomparableLost(max, k, l);
      KindsOfExamples(k);
      KindsOfExamples(l);
      var xs, ys := [if max then Small(k) else Large(k)], [Small(l), if max then Large(k) else Small(k)];
      assert OfKinds(kinds, xs) && OfKinds(kinds, ys);
    }
  }

  lemma KindsOfExamples(k: Kind)
    ensures !Small(k).Null? && !Large(k).Null? && KindOf(Small(k)) == k && KindOf(Large(k)) == k
  {
  }

  class ExtremeState {
    const max: bool
    var held: Option<Value>

    constructor (isMax: bool)
      ensures max == isMax && held == None
    {
      max, held := isMax, None;
    }

    method Update(v: Value)
      modifies this
      ensures held == ExtremeUpdate(max, old(held), v)
    {
      if v.Null? {
        return;
      }
      match held {
        case None => held := Some(v);
        case Some(current) =>
          if Beats(max, v, current) {
            held := Some(v);
          }
      }
    }

    method Merge(other: ExtremeState)
      modifies this
      ensures held == ExtremeMerge(max, old(held), old(other.held))
    {
      if held.None? && other.held.Some? {
        held := other.held;
      } else if held.Some? && other.held.Some? && Beats(max, other.held.value, held.value) {
        held := other.held;
      }
    }
  }

  // ---------- ANY_VALUE ----------

  function AnyUpdate(held: Option<Value>, v: Value): Option<Value> {
    if held.None? && !v.Null? then Some(v) else held
  }

  function AnyFold(xs: seq<Value>): Option<Value>
    decreases |xs|
  {
    if xs == [] then None else AnyUpdate(AnyFold(xs[..|xs| - 1]), xs[|xs| - 1])
  }

  function AnyMerge(a: Option<Value>, b: Option<Value>): Option<Value> {
    if a.None? then b else a
  }

  lemma {:induction false} AnyMerges(xs: seq<Value>, ys: seq<Value>)
    ensures AnyMerge(AnyFold(xs), AnyFold(ys)) == AnyFold(xs + ys)
    decreases |ys|
  {
    if ys == [] {
      assert xs + ys == xs;
    } else {
      assert (xs + ys)[..|xs + ys| - 1] == xs + ys[..|ys| - 1];
      AnyMerges(xs, ys[..|ys| - 1]);
    }
  }

  /** ANY_VALUE is the first value that is not NULL, and NULL only where all are. */
  lemma {:induction false} AnyIsFirst(xs: seq<Value>)
    ensures AnyFold(xs).None? <==> forall x | x in xs :: x.Null?
    ensures AnyFold(xs).Some? ==> exists i | 0 <= i < |xs| :: xs[i] == AnyFold(xs).value && !xs[i].Null? && forall j | 0 <= j < i :: xs[j].Null?
    decreases |xs|
  {
    if xs != [] {
      var n := |xs| - 1;
      var front := xs[..n];
      assert xs == front + [xs[n]];
      AnyIsFirst(front);
      if AnyFold(front).Some? {
        var i :| 0 <= i < n && front[i] == AnyFold(front).value && !front[i].Null? && forall j | 0 <= j < i :: front[j].Null?;
        assert xs[i] == front[i] && forall j | 0 <= j < i :: xs[j] == front[j];
      } else {
        assert forall j | 0 <= j < n :: xs[j] in front;
      }
    }
  }

  class AnyValueState {
    var held: Option<Value>

    constructor ()
      ensures held == None
    {
      held := None;
    }

    method Update(v: Value)
      modifies this
      ensures held == AnyUpdate(old(held), v)
    {
      if held.None? && !v.Null? {
        held := Some(v);
      }
    }

    method Merge(other: AnyValueState)
      modifies this
      ensures held == AnyMerge(old(held), old(other.held))
    {
      if held.None? {
        held := other.held;
      }
    }
  }

  // ---------- ARRAY_AGG and STRING_AGG ----------

  /** `show` prints a value that is not a string. */
  function Texts(show: Value -> string, xs: seq<Value>): seq<string>
    decreases |xs|
  {
    if xs == [] then []
    else
      var v := xs[|xs| - 1];
      Texts(show, xs[..|xs| - 1]) + (if v.Null? then [] else if v.Str? then [v.s] else [show(v)])
  }

  function JoinTexts(parts: seq<string>, delimiter: string): string {
    if parts == [] then "" else if |parts| == 1 then parts[0] else parts[0] + delimiter + JoinTexts(parts[1..], delimiter)
  }

  function StringFinalize(values: seq<string>, delimiter: string): Value {
    if values == [] then Null else Str(JoinTexts(values, delimiter))
  }

  /** The strings of a whole are those of its parts in order; an array keeps NULLs, so its state is the values themselves. */
  lemma {:induction false} StringsMerge(show: Value -> string, xs: seq<Value>, ys: seq<Value>)
    ensures Texts(show, xs) + Texts(show, ys) == Texts(show, xs + ys)
    decreases |ys|
  {
    if ys == [] {
      assert xs + ys == xs;
    } else {
      assert (xs + ys)[..|xs + ys| - 1] == xs + ys[..|ys| - 1];
      StringsMerge(show, xs, ys[..|ys| - 1]);
    }
  }

  /** The texts stand in order with the delimiter between any two. */
  lemma {:induction false} JoinedTexts(a: seq<string>, b: seq<string>, delimiter: string)
    requires a != [] && b != []
    ensures JoinTexts(a + b, delimiter) == JoinTexts(a, delimiter) + delimiter + JoinTexts(b, delimiter)
    ensures |b| == 1 ==> JoinTexts(b, delimiter) == b[0]
    decreases |a|
  {
    assert (a + b)[0] == a[0] && (a + b)[1..] == a[1..] + b;
    JoinStep(a, delimiter);
    JoinStep(b, delimiter);
    JoinStep(a + b, delimiter);
    hide JoinTexts;
    if |a| > 1 {
      JoinedTexts(a[1..], b, delimiter);
      var x, y := JoinTexts(a[1..], delimiter), JoinTexts(b, delimiter);
      assert a[0] + delimiter + (x + delimiter + y) == a[0] + delimiter + x + delimiter + y;
    } else {
      assert a[1..] + b == b;
    }
  }

  lemma JoinStep(parts: seq<string>, delimiter: string)
    requires parts != []
    ensures JoinTexts(parts, delimiter) == if |parts| == 1 then parts[0] else parts[0] + delimiter + JoinTexts(parts[1..], delimiter)
  {
  }

  /** A text is itself, NULL is nothing, any other value as it is printed. */
  lemma TextsOfOne(show: Value -> string, v: Value)
    ensures Texts(show, [v]) == match v
                                case Null => []
                                case Str(s) => [s]
                                case _ => [show(v)]
  {
    assert [v][..0] == [] && Texts(show, []) == [];
  }

  function TextLength(parts: seq<string>): nat {
    if parts == [] then 0 else |parts[0]| + TextLength(parts[1..])
  }

  lemma {:induction false} JoinedLength(parts: seq<string>, delimiter: string)
    requires parts != []
    ensures |JoinTexts(parts, delimiter)| == TextLength(parts) + (|parts| - 1) * |delimiter|
  {
    if |parts| > 1 {
      JoinedLength(parts[1..], delimiter);
      assert (|parts| - 1) * |delimiter| == (|parts| - 2) * |delimiter| + |delimiter|;
    }
  }

  /** The default state, whose delimiter is empty, is a left identity exactly when the delimiter does not show. */
  lemma DefaultLeftIdentityIff(values: seq<string>, delimiter: string)
    ensures StringFinalize([] + values, "") == StringFinalize(values, delimiter) <==> |values| <= 1 || delimiter == ""
  {
    assert [] + values == values;
    if |values| > 1 {
      JoinedLength(values, delimiter);
      JoinedLength(values, "");
      if delimiter != "" {
        assert (|values| - 1) * |delimiter| >= 1;
      }
    }
  }

  class StringAggState {
    var values: seq<string>
    var delimiter: string

    constructor WithDelimiter(d: string)
      ensures values == [] && delimiter == d
    {
      values, delimiter := [], d;
    }

    method Update(show: Value -> string, v: Value)
      modifies this`values
      ensures values == old(values) + Texts(show, [v])
    {
      assert [v][..0] == [];
      assert Texts(show, []) == [];
      match v {
        case Str(s) => values := values + [s];
        case Null =>
        case _ => values := values + [show(v)];
      }
    }

    method Merge(other: StringAggState)
      modifies this`values
      ensures values == old(values) + old(other.values)
    {
      values := values + other.values;
    }

    method Finalize() returns (v: Value)
      ensures v == StringFinalize(values, delimiter)
    {
      if values == [] {
        return Null;
      }
      return Str(JoinTexts(values, delimiter));
    }
  }

  class ArrayAggState {
    var values: seq<Value>

    constructor ()
      ensures values == []
    {
      values := [];
    }

    method Update(v: Value)
      modifies this
      ensures values == old(values) + [v]
    {
      values := values + [v];
    }

    method Merge(other: ArrayAggState)
      modifies this
      ensures values == old(values) + old(other.values)
    {
      values := values + other.values;
    }
  }

  // ---------- The default state ----------

  /** A fresh state changes nothing, on either side, whatever has been folded into the other. */
  lemma DefaultIdentity(max: bool, xs: seq<Value>)
    ensures SumFold(xs).Some? ==>
              && SumFinalize(SumMerge(NO_SUM, SumFold(xs).value)) == SumFinalize(SumFold(xs).value)
              && SumFinalize(SumMerge(SumFold(xs).value, NO_SUM)) == SumFinalize(SumFold(xs).value)
    ensures ExtremeMerge(max, None, ExtremeFold(max, None, xs)) == ExtremeFold(max, None, xs)
    ensures ExtremeMerge(max, ExtremeFold(max, None, xs), None) == ExtremeFold(max, None, xs)
    ensures AnyMerge(None, AnyFold(xs)) == AnyFold(xs) == AnyMerge(AnyFold(xs), None)
  {
    SumMerges([], xs);
    SumMerges(xs, []);
    assert SumFold([]) == Some(NO_SUM);
    assert [] + xs == xs && xs + [] == xs;
    hide SumFold, ExtremeFold, AnyFold, SumMerge, SumFinalize;
  }
}
