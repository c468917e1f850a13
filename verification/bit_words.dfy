/**
 64-bit words as sequences of bits: what setting, clearing, masking, complementing and dropping the
 lowest set bit do to each bit.  A bit is tested with the word that has only that bit set.
 */
module BitWords {

  // ---------- Words, without positions ----------

  const ALL_ONES: bv64 := 0xFFFF_FFFF_FFFF_FFFF

  function Join(w: bv64, a: bv64): bv64 {
    w | a
  }

  function Masked(w: bv64, a: bv64): bv64 {
    w & a
  }

  function Without(w: bv64, a: bv64): bv64 {
    w & !a
  }

  function Complement(w: bv64): bv64 {
    !w
  }

  /** `w & (w - 1)`. */
  function DropLow(w: bv64): bv64 {
    w & (w - 1)
  }

  function Double(a: bv64): bv64 {
    a << 1
  }

  function Half(w: bv64): bv64 {
    w >> 1
  }

  /** The bits below a single bit. */
  function Below(a: bv64): bv64 {
    a - 1
  }

  /** Exactly one bit is set. */
  predicate OneHot(a: bv64) {
    a != 0 && a & (a - 1) == 0
  }

  predicate Meets(w: bv64, a: bv64) {
    Masked(w, a) != 0
  }

  lemma MaskLaws(w: bv64, m: bv64, b: bv64)
    ensures Masked(w, b) == Masked(b, w)
    ensures Masked(Masked(w, m), b) == Masked(Masked(w, b), Masked(m, b))
    ensures Masked(b, b) == b && Masked(0, b) == 0 && Masked(b, 0) == 0 && Masked(ALL_ONES, b) == b
  {
  }

  lemma JoinHere(w: bv64, a: bv64)
    ensures Masked(Join(w, a), a) == a
  {
  }

  lemma JoinElsewhere(w: bv64, a: bv64, b: bv64)
    requires Masked(a, b) == 0
    ensures Masked(Join(w, a), b) == Masked(w, b)
  {
  }

  lemma WithoutElsewhere(w: bv64, a: bv64, b: bv64)
    requires Masked(a, b) == 0
    ensures Masked(Without(w, a), b) == Masked(w, b)
  {
  }

  lemma WithoutHere(w: bv64, a: bv64)
    ensures Masked(Without(w, a), a) == 0
  {
  }

  lemma ComplementAbsent(w: bv64, b: bv64)
    requires Masked(w, b) == 0
    ensures Masked(Complement(w), b) == b
  {
  }

  lemma ComplementPresent(w: bv64, b: bv64)
    requires Masked(w, b) == b
    ensures Masked(Complement(w), b) == 0
  {
  }

  /** A single bit is in a word whole or not at all. */
  lemma HotEither(x: bv64, b: bv64)
    requires OneHot(b)
    ensures Masked(x, b) == 0 || Masked(x, b) == b
    ensures b != 0
  {
  }

  lemma DropIsWithout(w: bv64, a: bv64)
    requires OneHot(a) && Masked(w, a) == a && Masked(w, Below(a)) == 0
    ensures DropLow(w) == Without(w, a)
  {
  }

  lemma BelowDouble(a: bv64)
    requires OneHot(a)
    ensures Below(Double(a)) == Join(Below(a), a)
    ensures Below(1) == 0
  {
  }

  lemma DoubleMasked(a: bv64, b: bv64)
    ensures Masked(Double(a), Double(b)) == Double(Masked(a, b))
    ensures Double(0) == 0
  {
  }

  lemma FirstApart(a: bv64)
    ensures Masked(1, Double(a)) == 0 && Masked(Double(a), 1) == 0
  {
  }

  lemma HalfMasked(w: bv64, a: bv64)
    requires Masked(a, 0x8000_0000_0000_0000) == 0
    ensures Double(Masked(Half(w), a)) == Masked(w, Double(a))
    ensures Masked(Half(w), a) == Half(Masked(w, Double(a)))
    ensures Half(0) == 0
  {
  }

  lemma OnlyTopLeft(w: bv64)
    requires Masked(w, Below(0x8000_0000_0000_0000)) == 0 && Masked(w, 0x8000_0000_0000_0000) == 0
    ensures w == 0
  {
  }

  // ---------- Positions ----------

  /** `1 << k`. */
  function One(k: nat): bv64 {
    if k == 0 then 1 else Double(One(k - 1))
  }

  /** `w >> k`. */
  function ShiftedDown(w: bv64, k: nat): bv64 {
    if k == 0 then w else ShiftedDown(Half(w), k - 1)
  }

  predicate HasBit(w: bv64, k: nat) {
    Meets(w, One(k))
  }

  function WithBit(w: bv64, k: nat, set_: bool): bv64 {
    if set_ then Join(w, One(k)) else Without(w, One(k))
  }

  /** `(1 << r) - 1`. */
  function LowMask(r: nat): bv64 {
    Below(One(r))
  }

  lemma TwoOn(k: nat)
    ensures One(k + 2) == Double(Double(One(k)))
  {
    hide Double;
  }

  lemma EightTimes(a: bv64)
    ensures Double(Double(Double(Double(Double(Double(Double(Double(a)))))))) == EightUp(a)
  {
  }

  function EightUp(a: bv64): bv64 {
    a << 8
  }

  lemma EightOn(k: nat)
    ensures One(k + 8) == EightUp(One(k))
  {
    hide One, Double, EightUp;
    TwoOn(k);
    TwoOn(k + 2);
    TwoOn(k + 4);
    TwoOn(k + 6);
    EightTimes(One(k));
  }

  lemma TopOne()
    ensures One(63) == 0x8000_0000_0000_0000
  {
    assert One(0) == 1;
    EightOn(0);
    EightOn(8);
    EightOn(16);
    EightOn(24);
    EightOn(32);
    EightOn(40);
    EightOn(48);
    assert One(56) == 0x0100_0000_0000_0000;
    assert One(58) == 0x0400_0000_0000_0000;
    assert One(60) == 0x1000_0000_0000_0000;
    assert One(62) == 0x4000_0000_0000_0000;
  }

  lemma {:induction false} ZeroStays(k: nat, n: nat)
    requires k <= n && One(k) == 0
    ensures One(n) == 0
    decreases n - k
  {
    if k < n {
      ZeroStays(k + 1, n);
    }
  }

  lemma {:induction false} OneIsHot(k: nat)
    requires k < 64
    ensures OneHot(One(k))
    decreases k
  {
    if k > 0 {
      OneIsHot(k - 1);
      TopOne();
      if One(k) == 0 {
        ZeroStays(k, 63);
      }
    }
  }

  lemma {:induction false} OnesApart(j: nat, k: nat)
    requires j != k
    ensures Masked(One(j), One(k)) == 0
  {
    hide Masked, Double;
    if j == 0 {
      FirstApart(One(k - 1));
    } else if k == 0 {
      FirstApart(One(j - 1));
    } else {
      OnesApart(j - 1, k - 1);
      DoubleMasked(One(j - 1), One(k - 1));
    }
  }

  /** Testing a bit by shifting it down, as the source does, is testing it in place. */
  lemma {:induction false} ShiftTest(w: bv64, k: nat)
    requires k < 64
    ensures HasBit(w, k) <==> Masked(ShiftedDown(w, k), 1) == 1
    decreases k
  {
    hide Masked, Double, Half, OneHot;
    if k == 0 {
      OneIsHot(0);
      HotEither(w, 1);
    } else {
      ShiftTest(Half(w), k - 1);
      OnesApart(k - 1, 63);
      TopOne();
      DoubleMasked(0, 0);
      HalfMasked(w, One(k - 1));
    }
  }

  lemma ConstantBits(k: nat)
    requires k < 64
    ensures !HasBit(0, k) && HasBit(ALL_ONES, k)
  {
    hide One, Masked, OneHot;
    OneIsHot(k);
    HotEither(0, One(k));
    MaskLaws(0, 0, One(k));
  }

  lemma WithBitBits(w: bv64, k: nat, set_: bool, j: nat)
    requires k < 64 && j < 64
    ensures HasBit(WithBit(w, k, set_), j) == if j == k then set_ else HasBit(w, j)
  {
    hide One, Masked, OneHot, Join, Without;
    if j == k {
      OneIsHot(k);
      HotEither(w, One(k));
      JoinHere(w, One(k));
      WithoutHere(w, One(k));
    } else {
      OnesApart(k, j);
      JoinElsewhere(w, One(k), One(j));
      WithoutElsewhere(w, One(k), One(j));
    }
  }

  lemma NotBits(w: bv64, k: nat)
    requires k < 64
    ensures HasBit(Complement(w), k) == !HasBit(w, k)
  {
    hide One, Masked, OneHot, Complement;
    OneIsHot(k);
    HotEither(w, One(k));
    if Masked(w, One(k)) == 0 {
      ComplementAbsent(w, One(k));
    } else {
      ComplementPresent(w, One(k));
    }
  }

  lemma {:induction false} LowMaskBits(r: nat, k: nat)
    requires r < 64 && k < 64
    ensures HasBit(LowMask(r), k) == (k < r)
    decreases r
  {
    hide Masked, OneHot, Join, Below, Double;
    OneIsHot(k);
    HotEither(0, One(k));
    MaskLaws(0, 0, One(k));
    if r == 0 {
      OneIsHot(0);
      BelowDouble(1);
    } else {
      LowMaskBits(r - 1, k);
      OneIsHot(r - 1);
      BelowDouble(One(r - 1));
      if k == r - 1 {
        JoinHere(LowMask(r - 1), One(k));
      } else {
        OnesApart(r - 1, k);
        JoinElsewhere(LowMask(r - 1), One(r - 1), One(k));
      }
    }
  }

  lemma MaskBits(w: bv64, r: nat, k: nat)
    requires r < 64 && k < 64
    ensures HasBit(Masked(w, LowMask(r)), k) == (k < r && HasBit(w, k))
  {
    LowMaskBits(r, k);
    hide One, Masked, OneHot, LowMask;
    OneIsHot(k);
    HotEither(w, One(k));
    HotEither(LowMask(r), One(k));
    MaskLaws(w, LowMask(r), One(k));
    MaskLaws(0, 0, 0);
  }

  /** No bit below a position is set. */
  ghost predicate NoneBelow(w: bv64, k: nat) {
    forall i: nat | i < k :: !HasBit(w, i)
  }

  lemma {:induction false} NoneBelowMask(w: bv64, k: nat)
    requires k < 64 && NoneBelow(w, k)
    ensures Masked(w, LowMask(k)) == 0
    decreases k
  {
    hide Masked, OneHot, Join, Below, Double;
    if k == 0 {
      OneIsHot(0);
      BelowDouble(1);
      MaskLaws(0, 0, w);
    } else {
      var m, a := LowMask(k - 1), One(k - 1);
      NoneBelowMask(w, k - 1);
      assert !HasBit(w, k - 1);
      OneIsHot(k - 1);
      BelowDouble(a);
      MaskLaws(w, 0, m);
      MaskLaws(w, 0, a);
      MaskLaws(w, 0, Join(m, a));
      JoinElsewhere(m, a, w);
    }
  }

  /** A word with no bit set is zero. */
  lemma NoBitsZero(w: bv64)
    requires NoneBelow(w, 64)
    ensures w == 0
  {
    hide Masked, Below;
    NoneBelowMask(w, 63);
    TopOne();
    assert !HasBit(w, 63);
    hide One;
    OnlyTopLeft(w);
  }

  /** `w & (w - 1)` drops the lowest set bit and no other. */
  lemma DropLowest(w: bv64, k: nat, j: nat)
    requires k < 64 && j < 64 && HasBit(w, k) && NoneBelow(w, k)
    ensures HasBit(DropLow(w), j) == (j != k && HasBit(w, j))
  {
    hide One, OneHot, Masked, Below, DropLow, Without, Join;
    NoneBelowMask(w, k);
    OneIsHot(k);
    HotEither(w, One(k));
    DropIsWithout(w, One(k));
    WithBitBits(w, k, false, j);
  }

  // ---------- Counting and finding set bits ----------

  /** How many of the lowest `n` bits are set; `count_ones` is the case of all 64. */
  function CountBits(w: bv64, n: nat): (r: nat)
    ensures r <= n
  {
    if n == 0 then 0 else CountBits(w, n - 1) + (if HasBit(w, n - 1) then 1 else 0)
  }

  /** The lowest set bit at `k` or above; 64 if there is none. `trailing_zeros` is the case of 0. */
  function LowestFrom(w: bv64, k: nat): (r: nat)
    requires k <= 64
    ensures k <= r <= 64
    ensures r < 64 ==> HasBit(w, r)
    ensures forall i | k <= i < r :: !HasBit(w, i)
    decreases 64 - k
  {
    if k == 64 || HasBit(w, k) then k else LowestFrom(w, k + 1)
  }

  lemma LowestExists(w: bv64)
    requires w != 0
    ensures LowestFrom(w, 0) < 64 && NoneBelow(w, LowestFrom(w, 0))
  {
    hide One, Masked;
    if LowestFrom(w, 0) == 64 {
      NoBitsZero(w);
    }
  }

  lemma {:induction false} CountMasked(w: bv64, r: nat, n: nat)
    requires r < 64 && n <= 64
    ensures CountBits(Masked(w, LowMask(r)), n) == CountBits(w, if n < r then n else r)
    decreases n
  {
    hide HasBit, LowMask, Masked;
    if n > 0 {
      CountMasked(w, r, n - 1);
      MaskBits(w, r, n - 1);
    }
  }

  lemma {:induction false} CountDropped(w: bv64, k: nat, n: nat)
    requires k < 64 && n <= 64 && HasBit(w, k) && NoneBelow(w, k)
    ensures CountBits(DropLow(w), n) == CountBits(w, n) - (if k < n then 1 else 0)
    decreases n
  {
    hide HasBit, DropLow;
    if n > 0 {
      CountDropped(w, k, n - 1);
      DropLowest(w, k, n - 1);
    }
  }
}
