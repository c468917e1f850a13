/**
 Null-aware sums of `crates/storage/benches/bitmap_bench.rs`: one element at a time, and a word of the
 bitmap at a time.  Sums are mathematical integers.
 */
module BitmapSums {
  import opened Wrappers
  import opened BitWords
  import opened NullBitmaps

  /** One word for every started 64 elements. */
  predicate Fits(xs: seq<int>, b: Bitmap) {
    b.len == |xs| && |b.data| == DivCeil(|xs|)
  }

  // ---------- The sum, element by element ----------

  function SumBelow(xs: seq<int>, b: Bitmap, n: nat): int
    requires n <= |xs|
  {
    if n == 0 then 0 else SumBelow(xs, b, n - 1) + (if BitOf(b, n - 1) then 0 else xs[n - 1])
  }

  predicate AnyBelow(b: Bitmap, n: nat) {
    n > 0 && (AnyBelow(b, n - 1) || !BitOf(b, n - 1))
  }

  /** The sum of the elements that are not NULL; nothing when there are none. */
  function SumOf(xs: seq<int>, b: Bitmap): Option<int> {
    if AnyBelow(b, |xs|) then Some(SumBelow(xs, b, |xs|)) else None
  }

  function PlainSum(xs: seq<int>): int
    decreases |xs|
  {
    if xs == [] then 0 else PlainSum(xs[..|xs| - 1]) + xs[|xs| - 1]
  }

  method SumOriginal(xs: seq<int>, nulls: NullBitmap) returns (r: Option<int>)
    requires Fits(xs, nulls.Value())
    ensures r == SumOf(xs, nulls.Value())
  {
    hide BitOf;
    var sum, hasValue := 0, false;
    for i := 0 to |xs|
      invariant sum == SumBelow(xs, nulls.Value(), i) && hasValue == AnyBelow(nulls.Value(), i)
    {
      var isNull := nulls.IsNull(i);
      if !isNull {
        sum := sum + xs[i];
        hasValue := true;
      }
    }
    return if hasValue then Some(sum) else None;
  }

  // ---------- Counts of nulls decide the easy cases ----------

  lemma {:induction false} CountExtremes(xs: seq<int>, b: Bitmap, n: nat)
    requires n <= |xs|
    ensures CountBelow(b, n) <= n
    ensures CountBelow(b, n) == n <==> !AnyBelow(b, n)
    ensures CountBelow(b, n) == 0 ==> SumBelow(xs, b, n) == PlainSum(xs[..n])
  {
    hide BitOf;
    if n > 0 {
      CountExtremes(xs, b, n - 1);
      assert xs[..n][..n - 1] == xs[..n - 1];
    }
  }

  lemma NullCount(xs: seq<int>, b: Bitmap)
    requires Fits(xs, b)
    ensures var count := CountTrue(Nulls(b));
            && (count == |xs| <==> !AnyBelow(b, |xs|))
            && (count == 0 ==> SumBelow(xs, b, |xs|) == PlainSum(xs))
  {
    CountIsTrue(b, b.len);
    CountExtremes(xs, b, |xs|);
    assert Nulls(b)[..b.len] == Nulls(b) && xs[..|xs|] == xs;
  }

  /** A plain sum when nothing is NULL, a filtered one otherwise. */
  method SumAutoVectorize(xs: seq<int>, nulls: NullBitmap) returns (r: Option<int>)
    requires Fits(xs, nulls.Value())
    ensures r == SumOf(xs, nulls.Value())
  {
    hide BitOf, Nulls, CountTrue;
    NullCount(xs, nulls.Value());
    var count := nulls.CountNull();
    if count == |xs| {
      return None;
    }
    if count == 0 {
      return Some(PlainSum(xs));
    }
    var sum := 0;
    for i := 0 to |xs|
      invariant sum == SumBelow(xs, nulls.Value(), i)
    {
      var isNull := nulls.IsNull(i);
      if !isNull {
        sum := sum + xs[i];
      }
    }
    return Some(sum);
  }

  // ---------- A word at a time ----------

  /** The elements a mask marks among the first `n` after `start`, as far as `end`. */
  function SumMask(xs: seq<int>, start: nat, end: nat, m: bv64, n: nat): int
    requires end <= |xs|
  {
    if n == 0 then 0 else SumMask(xs, start, end, m, n - 1) + (if HasBit(m, n - 1) && start + n - 1 < end then xs[start + n - 1] else 0)
  }

  predicate AnyMask(start: nat, end: nat, m: bv64, n: nat) {
    n > 0 && (AnyMask(start, end, m, n - 1) || (HasBit(m, n - 1) && start + n - 1 < end))
  }

  lemma {:induction false} MaskDrop(xs: seq<int>, start: nat, end: nat, m: bv64, k: nat, n: nat)
    requires end <= |xs| && k < 64 && n <= 64 && HasBit(m, k) && NoneBelow(m, k)
    ensures SumMask(xs, start, end, m, n) == SumMask(xs, start, end, DropLow(m), n) + (if k < n && start + k < end then xs[start + k] else 0)
    ensures AnyMask(start, end, m, n) == (AnyMask(start, end, DropLow(m), n) || (k < n && start + k < end))
  {
    hide HasBit, DropLow;
    if n > 0 {
      MaskDrop(xs, start, end, m, k, n - 1);
      DropLowest(m, k, n - 1);
    }
  }

  lemma {:induction false} MaskZero(xs: seq<int>, start: nat, end: nat, n: nat)
    requires end <= |xs| && n <= 64
    ensures SumMask(xs, start, end, 0, n) == 0 && !AnyMask(start, end, 0, n)
  {
    hide HasBit;
    if n > 0 {
      MaskZero(xs, start, end, n - 1);
      ConstantBits(n - 1);
    }
  }

  /** The loop over set bits: find the lowest, use it, drop it. */
  method AddMarked(xs: seq<int>, start: nat, end: nat, marks: bv64, sum0: int, has0: bool) returns (sum: int, hasValue: bool)
    requires end <= |xs|
    ensures sum == sum0 + SumMask(xs, start, end, marks, 64)
    ensures hasValue == (has0 || AnyMask(start, end, marks, 64))
  {
    hide HasBit, DropLow, SumMask, AnyMask, NoneBelow, CountBits;
    sum, hasValue := sum0, has0;
    var mask := marks;
    while mask != 0
      invariant sum + SumMask(xs, start, end, mask, 64) == sum0 + SumMask(xs, start, end, marks, 64)
      invariant (hasValue || AnyMask(start, end, mask, 64)) == (has0 || AnyMask(start, end, marks, 64))
      decreases CountBits(mask, 64)
    {
      LowestExists(mask);
      var bit := LowestFrom(mask, 0);
      MaskDrop(xs, start, end, mask, bit, 64);
      CountDropped(mask, bit, 64);
      if start + bit < end {
        sum := sum + xs[start + bit];
        hasValue := true;
      }
      mask := DropLow(mask);
    }
    MaskZero(xs, start, end, 64);
  }

  /** Marks past the end do not count. */
  lemma {:induction false} MaskPastEnd(xs: seq<int>, start: nat, end: nat, m: bv64, n: nat)
    requires end <= |xs| && start <= end <= start + n
    ensures SumMask(xs, start, end, m, n) == SumMask(xs, start, end, m, end - start)
    ensures AnyMask(start, end, m, n) == AnyMask(start, end, m, end - start)
    decreases n
  {
    hide HasBit;
    if n > end - start {
      MaskPastEnd(xs, start, end, m, n - 1);
    }
  }

  /** The elements of one word that are not NULL are those its complement marks. */
  lemma {:induction false} WordMarks(xs: seq<int>, b: Bitmap, k: nat, n: nat)
    requires Fits(xs, b) && k < |b.data| && n <= 64 && 64 * k + n <= |xs|
    ensures SumBelow(xs, b, 64 * k + n) == SumBelow(xs, b, 64 * k) + SumMask(xs, 64 * k, 64 * k + n, Complement(b.data[k]), n)
    ensures AnyBelow(b, 64 * k + n) == (AnyBelow(b, 64 * k) || AnyMask(64 * k, 64 * k + n, Complement(b.data[k]), n))
    decreases n
  {
    hide HasBit, Complement;
    if n > 0 {
      WordMarks(xs, b, k, n - 1);
      MaskEnd(xs, 64 * k, 64 * k + n - 1, 64 * k + n, Complement(b.data[k]), n - 1);
      NotBits(b.data[k], n - 1);
      assert (64 * k + n - 1) / 64 == k && (64 * k + n - 1) % 64 == n - 1;
    }
  }

  /** How far the end lies past the marks looked at makes no difference. */
  lemma {:induction false} MaskEnd(xs: seq<int>, start: nat, end: nat, end': nat, m: bv64, n: nat)
    requires end <= end' <= |xs| && start + n <= end
    ensures SumMask(xs, start, end, m, n) == SumMask(xs, start, end', m, n)
    ensures AnyMask(start, end, m, n) == AnyMask(start, end', m, n)
    decreases n
  {
    hide HasBit;
    if n > 0 {
      MaskEnd(xs, start, end, end', m, n - 1);
    }
  }

  lemma {:induction false} ZeroWord(xs: seq<int>, b: Bitmap, k: nat, n: nat)
    requires Fits(xs, b) && k < |b.data| && b.data[k] == 0 && n <= 64 && 64 * k + n <= |xs|
    ensures SumBelow(xs, b, 64 * k + n) == SumBelow(xs, b, 64 * k) + PlainSum(xs[64 * k..64 * k + n])
    ensures AnyBelow(b, 64 * k + n) == (AnyBelow(b, 64 * k) || n > 0)
    decreases n
  {
    hide HasBit;
    if n > 0 {
      ZeroWord(xs, b, k, n - 1);
      ConstantBits(n - 1);
      assert (64 * k + n - 1) / 64 == k && (64 * k + n - 1) % 64 == n - 1;
      var s := xs[64 * k..64 * k + n];
      assert s[..|s| - 1] == xs[64 * k..64 * k + n - 1] && s[|s| - 1] == xs[64 * k + n - 1];
    }
  }

  lemma {:induction false} FullWord(xs: seq<int>, b: Bitmap, k: nat, n: nat)
    requires Fits(xs, b) && k < |b.data| && b.data[k] == ALL_ONES && n <= 64 && 64 * k + n <= |xs|
    ensures SumBelow(xs, b, 64 * k + n) == SumBelow(xs, b, 64 * k) && AnyBelow(b, 64 * k + n) == AnyBelow(b, 64 * k)
    decreases n
  {
    hide HasBit;
    if n > 0 {
      FullWord(xs, b, k, n - 1);
      ConstantBits(n - 1);
      assert (64 * k + n - 1) / 64 == k && (64 * k + n - 1) % 64 == n - 1;
    }
  }

  /** One word: skipped when all ones, added whole when zero, else bit by bit. */
  method AddWord(xs: seq<int>, nulls: NullBitmap, k: nat, end: nat, sum0: int, has0: bool) returns (sum: int, hasValue: bool)
    requires Fits(xs, nulls.Value()) && k < |nulls.data| && 64 * k < end <= |xs| && end <= 64 * k + 64
    requires sum0 == SumBelow(xs, nulls.Value(), 64 * k) && has0 == AnyBelow(nulls.Value(), 64 * k)
    ensures sum == SumBelow(xs, nulls.Value(), end) && hasValue == AnyBelow(nulls.Value(), end)
  {
    hide SumBelow, AnyBelow, SumMask, AnyMask, PlainSum, Complement;
    var n := end - 64 * k;
    var w := nulls.data[k];
    sum, hasValue := sum0, has0;
    if w == 0 {
      ZeroWord(xs, nulls.Value(), k, n);
      sum := sum + PlainSum(xs[64 * k..end]);
      hasValue := true;
    } else if w != ALL_ONES {
      WordMarks(xs, nulls.Value(), k, n);
      MaskPastEnd(xs, 64 * k, end, Complement(w), 64);
      sum, hasValue := AddMarked(xs, 64 * k, end, Complement(w), sum, hasValue);
    } else {
      FullWord(xs, nulls.Value(), k, n);
    }
  }

  /** Every word, the last one perhaps partial. */
  method SumBitmapAware(xs: seq<int>, nulls: NullBitmap) returns (r: Option<int>)
    requires Fits(xs, nulls.Value())
    ensures r == SumOf(xs, nulls.Value())
  {
    hide SumBelow, AnyBelow;
    var sum, hasValue := 0, false;
    Nothing(xs, nulls.Value());
    for k := 0 to |nulls.data|
      invariant sum == SumBelow(xs, nulls.Value(), Least(64 * k, |xs|)) && hasValue == AnyBelow(nulls.Value(), Least(64 * k, |xs|))
    {
      sum, hasValue := AddWord(xs, nulls, k, Least(64 * k + 64, |xs|), sum, hasValue);
    }
    return if hasValue then Some(sum) else None;
  }

  function Least(a: nat, b: nat): (r: nat)
    ensures r <= a && r <= b && (r == a || r == b)
  {
    if a < b then a else b
  }

  lemma Nothing(xs: seq<int>, b: Bitmap)
    ensures SumBelow(xs, b, 0) == 0 && !AnyBelow(b, 0)
  {
  }

  /** The elements past the whole words, each tested in the last word. */
  method AddBits(xs: seq<int>, nulls: NullBitmap, k: nat, sum0: int, has0: bool) returns (sum: int, hasValue: bool)
    requires Fits(xs, nulls.Value()) && k < |nulls.data| && 64 * k <= |xs| <= 64 * k + 64
    requires sum0 == SumBelow(xs, nulls.Value(), 64 * k) && has0 == AnyBelow(nulls.Value(), 64 * k)
    ensures sum == SumBelow(xs, nulls.Value(), |xs|) && hasValue == AnyBelow(nulls.Value(), |xs|)
  {
    hide HasBit, BitOf;
    sum, hasValue := sum0, has0;
    for i := 0 to |xs| - 64 * k
      invariant sum == SumBelow(xs, nulls.Value(), 64 * k + i) && hasValue == AnyBelow(nulls.Value(), 64 * k + i)
    {
      BitInWord(nulls.Value(), k, i);
      if !HasBit(nulls.data[k], i) {
        sum := sum + xs[64 * k + i];
        hasValue := true;
      }
    }
  }

  lemma BitInWord(b: Bitmap, k: nat, i: nat)
    requires k < |b.data| && i < 64
    ensures BitOf(b, 64 * k + i) == HasBit(b.data[k], i)
  {
    hide HasBit;
    assert (64 * k + i) / 64 == k && (64 * k + i) % 64 == i;
  }

  /** What is left after the whole words, tested bit by bit unless the last word is zero. */
  method AddRemainder(xs: seq<int>, nulls: NullBitmap, sum0: int, has0: bool) returns (sum: int, hasValue: bool)
    requires Fits(xs, nulls.Value())
    requires var start := 64 * (|xs| / 64); sum0 == SumBelow(xs, nulls.Value(), start) && has0 == AnyBelow(nulls.Value(), start)
    ensures sum == SumBelow(xs, nulls.Value(), |xs|) && hasValue == AnyBelow(nulls.Value(), |xs|)
  {
    hide HasBit, PlainSum, SumBelow, AnyBelow;
    var k := |xs| / 64;
    var start := 64 * k;
    sum, hasValue := sum0, has0;
    if start < |xs| {
      var last := nulls.data[|nulls.data| - 1];
      if last == 0 {
        ZeroWord(xs, nulls.Value(), k, |xs| - start);
        assert xs[start..] == xs[start..|xs|];
        sum := sum + PlainSum(xs[start..]);
        hasValue := true;
      } else {
        sum, hasValue := AddBits(xs, nulls, k, sum, hasValue);
      }
    }
  }

  /** Whole words of elements zipped with words of the bitmap, then the remainder. */
  method SumChunks(xs: seq<int>, nulls: NullBitmap) returns (r: Option<int>)
    requires Fits(xs, nulls.Value())
    ensures r == SumOf(xs, nulls.Value())
  {
    hide SumBelow, AnyBelow;
    var sum, hasValue := AddChunks(xs, nulls);
    sum, hasValue := AddRemainder(xs, nulls, sum, hasValue);
    return if hasValue then Some(sum) else None;
  }

  method AddChunks(xs: seq<int>, nulls: NullBitmap) returns (sum: int, hasValue: bool)
    requires Fits(xs, nulls.Value())
    ensures var start := 64 * (|xs| / 64); sum == SumBelow(xs, nulls.Value(), start) && hasValue == AnyBelow(nulls.Value(), start)
  {
    hide SumBelow, AnyBelow;
    sum, hasValue := 0, false;
    Nothing(xs, nulls.Value());
    for k := 0 to |xs| / 64
      invariant sum == SumBelow(xs, nulls.Value(), 64 * k) && hasValue == AnyBelow(nulls.Value(), 64 * k)
    {
      sum, hasValue := AddWord(xs, nulls, k, 64 * k + 64, sum, hasValue);
    }
  }

  /** The count of nulls first; whether there is a value is then known. */
  method SumHybrid(xs: seq<int>, nulls: NullBitmap) returns (r: Option<int>)
    requires Fits(xs, nulls.Value())
    ensures r == SumOf(xs, nulls.Value())
  {
    hide SumBelow, AnyBelow, Nulls, CountTrue, PlainSum;
    NullCount(xs, nulls.Value());
    var count := nulls.CountNull();
    if count == |xs| {
      return None;
    }
    if count == 0 {
      return Some(PlainSum(xs));
    }
    var sum, any := AddChunks(xs, nulls);
    sum, any := AddRemainder(xs, nulls, sum, any);
    return Some(sum);
  }

  // ---------- Bits past the length ----------

  /** Two bitmaps that agree below the length give the same sum, whatever their tails. */
  lemma {:induction false} TailIrrelevant(xs: seq<int>, b: Bitmap, b': Bitmap, n: nat)
    requires n <= |xs| && forall i | 0 <= i < n :: BitOf(b, i) == BitOf(b', i)
    ensures SumBelow(xs, b, n) == SumBelow(xs, b', n) && AnyBelow(b, n) == AnyBelow(b', n)
  {
    hide BitOf;
    if n > 0 {
      TailIrrelevant(xs, b, b', n - 1);
    }
  }

  lemma SumOfNulls(xs: seq<int>, b: Bitmap, b': Bitmap)
    requires Fits(xs, b) && Fits(xs, b') && Nulls(b) == Nulls(b')
    ensures SumOf(xs, b) == SumOf(xs, b')
  {
    hide BitOf;
    assert forall i | 0 <= i < |xs| :: Nulls(b)[i] == BitOf(b, i) && Nulls(b')[i] == BitOf(b', i);
    TailIrrelevant(xs, b, b', |xs|);
  }
}
