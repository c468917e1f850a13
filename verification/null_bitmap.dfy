/**
 The bit-packed null bitmap of `crates/storage/src/bitmap.rs`: a vector of words that stands for a
 sequence of booleans, TRUE for NULL.
 */
module NullBitmaps {
  import opened Wrappers
  import opened BitWords

  datatype Bitmap = Bitmap(data: seq<bv64>, len: nat)

  function DivCeil(n: nat): nat {
    (n + 63) / 64
  }

  /** There is a word for every position below the length. */
  predicate Enough(b: Bitmap) {
    b.len <= 64 * |b.data|
  }

  /** The bit at a position, past the length too; FALSE past the last word. */
  predicate BitOf(b: Bitmap, i: nat) {
    i / 64 < |b.data| && HasBit(b.data[i / 64], i % 64)
  }

  /** The sequence a bitmap stands for. */
  function Nulls(b: Bitmap): (s: seq<bool>)
    ensures |s| == b.len
    ensures forall i | 0 <= i < b.len :: s[i] == BitOf(b, i)
  {
    seq(b.len, i requires 0 <= i < b.len => BitOf(b, i))
  }

  /** Every bit at or past the length is zero. */
  ghost predicate ZeroTail(b: Bitmap) {
    forall i: nat | b.len <= i :: !BitOf(b, i)
  }

  // ---------- Operations ----------

  function NewValid(n: nat): Bitmap {
    Bitmap(seq(DivCeil(n), i => 0), n)
  }

  function NewNull(n: nat): Bitmap {
    Bitmap(seq(DivCeil(n), i => ALL_ONES), n)
  }

  function SetNull(b: Bitmap, i: nat, isNull: bool): Bitmap
    requires Enough(b)
  {
    if i >= b.len then b
    else b.(data := b.data[i / 64 := WithBit(b.data[i / 64], i % 64, isNull)])
  }

  function Pushed(b: Bitmap, isNull: bool): Bitmap
    requires Enough(b)
  {
    var data := if b.len / 64 >= |b.data| then b.data + [0] else b.data;
    Bitmap(if isNull then data[b.len / 64 := WithBit(data[b.len / 64], b.len % 64, true)] else data, b.len + 1)
  }

  /** Moves the bits above `i` down by one, from `i` on. */
  function ShiftBits(b: Bitmap, i: nat): Bitmap
    requires Enough(b)
    decreases b.len - i
  {
    if i + 1 >= b.len then b
    else
      SetKeeps(b, i, BitOf(b, i + 1));
      ShiftBits(SetNull(b, i, BitOf(b, i + 1)), i + 1)
  }

  lemma ShiftBitsStep(b: Bitmap, i: nat)
    requires Enough(b)
    ensures i + 1 >= b.len ==> ShiftBits(b, i) == b
    ensures i + 1 < b.len ==> Enough(SetNull(b, i, BitOf(b, i + 1))) && ShiftBits(b, i) == ShiftBits(SetNull(b, i, BitOf(b, i + 1)), i + 1)
  {
    SetKeeps(b, i, BitOf(b, i + 1));
    hide SetNull, BitOf;
  }

  function Max1(n: nat): nat {
    if n == 0 then 1 else n
  }

  function Truncate(data: seq<bv64>, n: nat): seq<bv64> {
    if n < |data| then data[..n] else data
  }

  function Removed(b: Bitmap, i: nat): Bitmap
    requires Enough(b)
  {
    if i >= b.len then b
    else
      var shifted := ShiftBits(b, i);
      Bitmap(Truncate(shifted.data, Max1(DivCeil(b.len - 1))), b.len - 1)
  }

  lemma RemovedForm(b: Bitmap, i: nat)
    requires Enough(b)
    ensures Removed(b, i) == if i >= b.len then b else Bitmap(Truncate(ShiftBits(b, i).data, Max1(DivCeil(b.len - 1))), b.len - 1)
  {
    hide ShiftBits, Truncate, Max1, DivCeil;
  }

  // ---------- What each does to the sequence ----------

  lemma SetKeeps(b: Bitmap, i: nat, isNull: bool)
    requires Enough(b)
    ensures var t := SetNull(b, i, isNull); Enough(t) && t.len == b.len && |t.data| == |b.data|
  {
  }

  lemma SetBitAt(b: Bitmap, i: nat, isNull: bool, j: nat)
    requires Enough(b)
    ensures BitOf(SetNull(b, i, isNull), j) == if i < b.len && j == i then isNull else BitOf(b, j)
  {
    hide HasBit, WithBit;
    if i < b.len && j / 64 == i / 64 {
      WithBitBits(b.data[i / 64], i % 64, isNull, j % 64);
    }
  }

  /** Setting a position inside replaces that element; outside it changes nothing. */
  lemma SetRefines(b: Bitmap, i: nat, isNull: bool)
    requires Enough(b)
    ensures var t := SetNull(b, i, isNull);
            Enough(t) && Nulls(t) == (if i < b.len then Nulls(b)[i := isNull] else Nulls(b)) && (ZeroTail(b) ==> ZeroTail(t))
  {
    SetKeeps(b, i, isNull);
    hide SetNull, BitOf;
    forall j: nat
      ensures BitOf(SetNull(b, i, isNull), j) == if i < b.len && j == i then isNull else BitOf(b, j)
    {
      SetBitAt(b, i, isNull, j);
    }
  }

  lemma PushBitAt(b: Bitmap, isNull: bool, j: nat)
    requires Enough(b)
    ensures BitOf(Pushed(b, isNull), j) == if j == b.len then isNull || BitOf(b, j) else BitOf(b, j)
  {
    hide HasBit, WithBit;
    ConstantBits(j % 64);
    var w := b.len / 64;
    var data := if w >= |b.data| then b.data + [0] else b.data;
    if isNull && j / 64 == w {
      WithBitBits(data[w], b.len % 64, true, j % 64);
    }
  }

  /** The append law, exactly: what is appended is NULL if asked for, or if a bit was left set past the end. */
  lemma PushRefines(b: Bitmap, isNull: bool)
    requires Enough(b)
    ensures var t := Pushed(b, isNull);
            Enough(t) && Nulls(t) == Nulls(b) + [isNull || BitOf(b, b.len)] && (ZeroTail(b) ==> ZeroTail(t))
    ensures Nulls(Pushed(b, isNull)) == Nulls(b) + [isNull] <==> isNull || !BitOf(b, b.len)
  {
    assert Enough(Pushed(b, isNull)) && Pushed(b, isNull).len == b.len + 1;
    hide Pushed, BitOf;
    forall j: nat
      ensures BitOf(Pushed(b, isNull), j) == if j == b.len then isNull || BitOf(b, j) else BitOf(b, j)
    {
      PushBitAt(b, isNull, j);
    }
    assert Nulls(Pushed(b, isNull)) == Nulls(b) + [isNull || BitOf(b, b.len)];
    assert (Nulls(b) + [isNull || BitOf(b, b.len)])[b.len] == (isNull || BitOf(b, b.len));
    assert (Nulls(b) + [isNull])[b.len] == isNull;
  }

  lemma {:induction false} ShiftBitsAt(b: Bitmap, i: nat, j: nat)
    requires Enough(b)
    ensures var t := ShiftBits(b, i);
            && Enough(t) && t.len == b.len && |t.data| == |b.data|
            && BitOf(t, j) == if i <= j && j + 1 < b.len then BitOf(b, j + 1) else BitOf(b, j)
    decreases b.len - i
  {
    hide SetNull, BitOf;
    if i + 1 < b.len {
      var bit := BitOf(b, i + 1);
      SetKeeps(b, i, bit);
      SetBitAt(b, i, bit, j);
      SetBitAt(b, i, bit, j + 1);
      ShiftBitsAt(SetNull(b, i, bit), i + 1, j);
    }
  }

  function Without1(s: seq<bool>, i: nat): seq<bool> {
    if i < |s| then s[..i] + s[i + 1..] else s
  }

  /** From any state with enough words, removing deletes exactly one element. */
  lemma RemoveRefines(b: Bitmap, i: nat)
    requires Enough(b)
    ensures Enough(Removed(b, i)) && Nulls(Removed(b, i)) == Without1(Nulls(b), i)
  {
    RemovedSize(b, i);
    hide BitOf, Removed, Enough, Nulls;
    if i < b.len {
      var r, s := Removed(b, i), Without1(Nulls(b), i);
      forall j | 0 <= j < b.len - 1
        ensures Nulls(r)[j] == s[j]
      {
        RemovedBitAt(b, i, j);
      }
      assert Nulls(r) == s;
    }
  }

  lemma RemovedSize(b: Bitmap, i: nat)
    requires Enough(b)
    ensures if i < b.len then Enough(Removed(b, i)) && Removed(b, i).len == b.len - 1 else Removed(b, i) == b
  {
    ShiftBitsAt(b, i, 0);
    hide ShiftBits, BitOf;
  }

  /** Removing keeps as many words as the elements left need, one at least, and never adds any. */
  lemma WordsKept(b: Bitmap, i: nat)
    requires Enough(b) && i < b.len
    ensures var (needed, n) := ((b.len + 62) / 64, |Removed(b, i).data|);
            n == if needed == 0 then (if |b.data| == 0 then 0 else 1) else if needed < |b.data| then needed else |b.data|
  {
    ShiftBitsAt(b, i, 0);
    hide ShiftBits, BitOf;
  }

  lemma RemovedBitAt(b: Bitmap, i: nat, j: nat)
    requires Enough(b) && i < b.len && j + 1 < b.len
    ensures BitOf(Removed(b, i), j) == BitOf(b, if j < i then j else j + 1)
  {
    var n := b.len - 1;
    var t := ShiftBits(b, i);
    hide ShiftBits, BitOf, Truncate, DivCeil;
    ShiftBitsAt(b, i, j);
  }

  lemma NewRefines(n: nat)
    ensures Enough(NewValid(n)) && Nulls(NewValid(n)) == seq(n, i => false) && ZeroTail(NewValid(n))
    ensures Enough(NewNull(n)) && Nulls(NewNull(n)) == seq(n, i => true)
    ensures ZeroTail(NewNull(n)) <==> n % 64 == 0
  {
    hide HasBit;
    forall i: nat
      ensures !BitOf(NewValid(n), i) && (BitOf(NewNull(n), i) <==> i / 64 < DivCeil(n))
    {
      ConstantBits(i % 64);
    }
    if n % 64 != 0 {
      assert BitOf(NewNull(n), n);
    }
  }

  /** A bitmap of one NULL, then a value that is not NULL: the second reads as NULL too. */
  lemma StalePush()
    ensures Nulls(Pushed(NewNull(1), false)) == [true, true]
  {
    hide HasBit;
    NewRefines(1);
    ConstantBits(1);
    assert BitOf(NewNull(1), 1);
    PushRefines(NewNull(1), false);
    hide Nulls, Pushed, NewNull;
    assert seq(1, i => true) == [true];
  }

  // ---------- Runs ----------

  datatype Op = PushOp(isNull: bool) | SetOp(index: nat, isNull: bool) | RemoveOp(index: nat) | ClearOp

  function Apply(b: Bitmap, op: Op): Bitmap
    requires Enough(b)
  {
    match op
    case PushOp(v) => Pushed(b, v)
    case SetOp(i, v) => SetNull(b, i, v)
    case RemoveOp(i) => Removed(b, i)
    case ClearOp => Bitmap([], 0)
  }

  function ApplyToSeq(s: seq<bool>, op: Op): seq<bool> {
    match op
    case PushOp(v) => s + [v]
    case SetOp(i, v) => if i < |s| then s[i := v] else s
    case RemoveOp(i) => Without1(s, i)
    case ClearOp => []
  }

  /** The bit a push lands on is clear, or is to be set. */
  predicate CleanPush(b: Bitmap, op: Op) {
    op.PushOp? ==> op.isNull || !BitOf(b, b.len)
  }

  lemma ApplyEnough(b: Bitmap, op: Op)
    requires Enough(b)
    ensures Enough(Apply(b, op))
  {
    match op
    case PushOp(v) => PushRefines(b, v);
    case SetOp(i, v) => SetKeeps(b, i, v);
    case RemoveOp(i) => RemoveRefines(b, i);
    case ClearOp =>
  }

  /** One operation does to the sequence what it should exactly when a push lands on a clean bit. */
  lemma ApplyRefinesIff(b: Bitmap, op: Op)
    requires Enough(b)
    ensures Nulls(Apply(b, op)) == ApplyToSeq(Nulls(b), op) <==> CleanPush(b, op)
  {
    hide Pushed, SetNull, Removed, BitOf;
    match op
    case PushOp(v) => PushRefines(b, v);
    case SetOp(i, v) => SetRefines(b, i, v);
    case RemoveOp(i) => RemoveRefines(b, i);
    case ClearOp =>
  }

  ghost predicate CleanRun(b: Bitmap, ops: seq<Op>)
    requires Enough(b)
    decreases |ops|
  {
    ops == [] || (CleanPush(b, ops[0]) && Enough(Apply(b, ops[0])) && CleanRun(Apply(b, ops[0]), ops[1..]))
  }

  function Run(b: Bitmap, ops: seq<Op>): (r: Bitmap)
    requires Enough(b)
    decreases |ops|
  {
    if ops == [] then b
    else
      ApplyEnough(b, ops[0]);
      Run(Apply(b, ops[0]), ops[1..])
  }

  function RunSeq(s: seq<bool>, ops: seq<Op>): seq<bool>
    decreases |ops|
  {
    if ops == [] then s else RunSeq(ApplyToSeq(s, ops[0]), ops[1..])
  }

  /** Over every run whose pushes land on clean bits, removals included, the bitmap is that sequence. */
  lemma {:induction false} RunRefines(b: Bitmap, ops: seq<Op>)
    requires Enough(b) && CleanRun(b, ops)
    ensures Enough(Run(b, ops)) && Nulls(Run(b, ops)) == RunSeq(Nulls(b), ops)
    decreases |ops|
  {
    hide Nulls, Apply, ApplyToSeq, CleanPush, Enough;
    if ops != [] {
      ApplyRefinesIff(b, ops[0]);
      RunRefines(Apply(b, ops[0]), ops[1..]);
    }
  }

  /** Without removals a zero tail stays one. */
  lemma KeepsZeroTail(b: Bitmap, op: Op)
    requires Enough(b) && ZeroTail(b) && !op.RemoveOp?
    ensures ZeroTail(Apply(b, op)) && CleanPush(b, op)
  {
    hide Pushed, SetNull, Removed, HasBit;
    match op
    case PushOp(v) => PushRefines(b, v);
    case SetOp(i, v) => SetRefines(b, i, v);
    case ClearOp =>
  }

  lemma {:induction false} ZeroTailRun(b: Bitmap, ops: seq<Op>)
    requires Enough(b) && ZeroTail(b) && forall op | op in ops :: !op.RemoveOp?
    ensures CleanRun(b, ops) && Enough(Run(b, ops)) && ZeroTail(Run(b, ops))
    decreases |ops|
  {
    hide ZeroTail, Apply, CleanPush, Enough;
    if ops != [] {
      assert ops[0] in ops;
      KeepsZeroTail(b, ops[0]);
      ApplyEnough(b, ops[0]);
      ZeroTailRun(Apply(b, ops[0]), ops[1..]);
    }
  }

  /** Over every run of pushes, sets and clears from an empty or all-valid bitmap, it behaves as its sequence, with a zero tail. */
  lemma PushSetClearRefines(n: nat, ops: seq<Op>)
    requires forall op | op in ops :: !op.RemoveOp?
    ensures Enough(NewValid(n)) && Nulls(Run(NewValid(n), ops)) == RunSeq(seq(n, i => false), ops) && ZeroTail(Run(NewValid(n), ops))
  {
    hide NewValid, Run, RunSeq, Nulls, ZeroTail, CleanRun, Enough;
    NewRefines(n);
    ZeroTailRun(NewValid(n), ops);
    RunRefines(NewValid(n), ops);
  }

  // ---------- Counting ----------

  function CountBelow(b: Bitmap, n: nat): nat {
    if n == 0 then 0 else CountBelow(b, n - 1) + (if BitOf(b, n - 1) then 1 else 0)
  }

  function CountTrue(s: seq<bool>): nat
    decreases |s|
  {
    if s == [] then 0 else CountTrue(s[..|s| - 1]) + (if s[|s| - 1] then 1 else 0)
  }

  lemma {:induction false} CountIsTrue(b: Bitmap, n: nat)
    requires n <= b.len
    ensures CountBelow(b, n) == CountTrue(Nulls(b)[..n])
  {
    hide BitOf;
    if n > 0 {
      CountIsTrue(b, n - 1);
      assert Nulls(b)[..n][..n - 1] == Nulls(b)[..n - 1];
    }
  }

  lemma {:induction false} CountInWord(b: Bitmap, k: nat, n: nat)
    requires k < |b.data| && n <= 64
    ensures CountBelow(b, 64 * k + n) == CountBelow(b, 64 * k) + CountBits(b.data[k], n)
    decreases n
  {
    hide HasBit;
    if n > 0 {
      CountInWord(b, k, n - 1);
      assert (64 * k + n - 1) / 64 == k && (64 * k + n - 1) % 64 == n - 1;
    }
  }

  // ---------- The bitmap object ----------

  class NullBitmap {
    var data: seq<bv64>
    var len: nat

    function Value(): Bitmap
      reads this
    {
      Bitmap(data, len)
    }

    constructor ()
      ensures Value() == Bitmap([], 0)
    {
      data, len := [], 0;
    }

    constructor AllValid(n: nat)
      ensures Value() == NewValid(n)
    {
      data, len := seq(DivCeil(n), i => 0), n;
    }

    constructor AllNull(n: nat)
      ensures Value() == NewNull(n)
    {
      data, len := seq(DivCeil(n), i => ALL_ONES), n;
    }

    method IsNull(index: nat) returns (r: bool)
      requires Enough(Value())
      ensures r == if index < len then Nulls(Value())[index] else true
    {
      hide HasBit;
      if index >= len {
        return true;
      }
      return HasBit(data[index / 64], index % 64);
    }

    method Set(index: nat, isNull: bool)
      requires Enough(Value())
      modifies this
      ensures Value() == SetNull(old(Value()), index, isNull)
      ensures Enough(Value())
      ensures Nulls(Value()) == if index < old(len) then old(Nulls(Value()))[index := isNull] else old(Nulls(Value()))
    {
      hide HasBit, WithBit;
      SetRefines(Value(), index, isNull);
      if index >= len {
        return;
      }
      var word, bit := index / 64, index % 64;
      if isNull {
        data := data[word := WithBit(data[word], bit, true)];
      } else {
        data := data[word := WithBit(data[word], bit, false)];
      }
    }

    method Push(isNull: bool)
      requires Enough(Value())
      modifies this
      ensures Value() == Pushed(old(Value()), isNull)
      ensures Enough(Value())
      ensures Nulls(Value()) == old(Nulls(Value())) + [isNull || old(BitOf(Value(), len))]
    {
      hide HasBit, WithBit;
      PushRefines(Value(), isNull);
      var word, bit := len / 64, len % 64;
      if word >= |data| {
        data := data + [0];
      }
      if isNull {
        data := data[word := WithBit(data[word], bit, true)];
      }
      len := len + 1;
    }

    method Remove(index: nat)
      requires Enough(Value())
      modifies this
      ensures Value() == Removed(old(Value()), index)
      ensures Enough(Value())
      ensures Nulls(Value()) == Without1(old(Nulls(Value())), index)
    {
      hide HasBit, SetNull, ShiftBits, BitOf, Truncate, DivCeil, Nulls, Without1, Removed, Max1;
      RemoveRefines(Value(), index);
      RemovedForm(Value(), index);
      if index >= len {
        return;
      }
      for i := index to len - 1
        invariant len == old(len) && Enough(Value())
        invariant ShiftBits(Value(), i) == ShiftBits(old(Value()), index)
      {
        ShiftBitsStep(Value(), i);
        var nextNull := IsNull(i + 1);
        Set(i, nextNull);
      }
      ShiftBitsStep(Value(), len - 1);
      len := len - 1;
      data := Truncate(data, Max1(DivCeil(len)));
    }

    method Clear()
      modifies this
      ensures Value() == Bitmap([], 0)
    {
      data, len := [], 0;
    }

    /** Whole words by their bit count, the last one masked; bits past the length do not count. */
    method CountNull() returns (count: nat)
      requires Enough(Value())
      ensures count == CountTrue(Nulls(Value()))
    {
      hide HasBit, BitOf, LowMask, Masked, CountBits;
      CountIsTrue(Value(), len);
      assert Nulls(Value())[..len] == Nulls(Value());
      if len == 0 {
        return 0;
      }
      var fullWords, rest := len / 64, len % 64;
      count := 0;
      for k := 0 to fullWords
        invariant count == CountBelow(Value(), 64 * k)
      {
        CountInWord(Value(), k, 64);
        count := count + CountBits(data[k], 64);
      }
      if rest > 0 && fullWords < |data| {
        CountMasked(data[fullWords], rest, 64);
        CountInWord(Value(), fullWords, rest);
        count := count + CountBits(Masked(data[fullWords], LowMask(rest)), 64);
      }
    }

    method CountValid() returns (count: nat)
      requires Enough(Value())
      ensures count == len - CountTrue(Nulls(Value()))
    {
      var nulls := CountNull();
      CountAtMost(Nulls(Value()));
      count := len - nulls;
    }
  }

  lemma {:induction false} CountAtMost(s: seq<bool>)
    ensures CountTrue(s) <= |s|
    decreases |s|
  {
    if s != [] {
      CountAtMost(s[..|s| - 1]);
    }
  }
}
