/**
 ROLLUP, CUBE and GROUPING SETS of `crates/parser/src/planner.rs`: grouping expressions are
 numbered by their keys, and every item becomes lists of those numbers.
 */
module GroupingSets {
  import opened Wrappers
  import opened Names

  /** A grouping expression: a name, a dotted name, or anything else by its printed form. */
  datatype GroupExpr = Identifier(name: string) | Compound(parts: seq<string>) | Other(text: string)

  function Dotted(parts: seq<string>): string {
    if parts == [] then "" else if |parts| == 1 then Upper(parts[0]) else Upper(parts[0]) + "." + Dotted(parts[1..])
  }

  function GroupKey(e: GroupExpr): string {
    match e
    case Identifier(name) => Upper(name)
    case Compound(parts) => Dotted(parts)
    case Other(text) => text
  }

  /** Names have one key exactly when they are the same, case aside. */
  lemma IdentifierKeyIff(a: string, b: string)
    ensures GroupKey(Identifier(a)) == GroupKey(Identifier(b)) <==> Upper(a) == Upper(b)
  {
    hide Upper;
  }

  predicate NoDots(parts: seq<string>) {
    forall p | p in parts :: '.' !in Upper(p)
  }

  /** The first part up to the dot, and the rest after it. */
  lemma DottedHead(parts: seq<string>)
    requires parts != []
    ensures var (a, t) := (Upper(parts[0]), Dotted(parts));
            a <= t && if |parts| == 1 then t == a else |t| > |a| && t[|a|] == '.' && t[|a| + 1..] == Dotted(parts[1..])
  {
    hide Upper;
    if |parts| > 1 {
      assert Dotted(parts) == Upper(parts[0]) + "." + Dotted(parts[1..]);
      hide Dotted;
      AtDot(Upper(parts[0]), Dotted(parts[1..]));
    }
  }

  lemma AtDot(a: string, rest: string)
    ensures var t := a + "." + rest; a <= t && |t| > |a| && t[|a|] == '.' && t[|a| + 1..] == rest
  {
  }

  lemma DotPast(t: string, a: string, b: string)
    requires a <= t && b <= t && |a| < |t| && t[|a|] == '.'
    ensures |a| < |b| ==> '.' in b
  {
    if |a| < |b| {
      assert b[|a|] == t[|a|];
    }
  }

  /** Dotted names have one key exactly when their parts are the same, case aside. */
  lemma {:induction false} DottedKeyIff(xs: seq<string>, ys: seq<string>)
    requires xs != [] && ys != [] && NoDots(xs) && NoDots(ys)
    ensures GroupKey(Compound(xs)) == GroupKey(Compound(ys)) <==> |xs| == |ys| && forall i | 0 <= i < |xs| :: Upper(xs[i]) == Upper(ys[i])
    decreases |xs|
  {
    DottedHead(xs);
    DottedHead(ys);
    if |xs| > 1 && |ys| > 1 {
      DottedKeyIff(xs[1..], ys[1..]);
    }
    hide Upper, Dotted;
    assert xs[0] in xs && ys[0] in ys;
    if Dotted(xs) == Dotted(ys) {
      SameHead(xs, ys);
      if |xs| > 1 {
        assert forall i | 0 < i < |xs| :: xs[i] == xs[1..][i - 1] && ys[i] == ys[1..][i - 1];
      }
    } else if |xs| == |ys| && forall i | 0 <= i < |xs| :: Upper(xs[i]) == Upper(ys[i]) {
      SameDotted(xs, ys);
      assert false;
    }
  }

  lemma SameHead(xs: seq<string>, ys: seq<string>)
    requires xs != [] && ys != [] && NoDots(xs) && NoDots(ys) && Dotted(xs) == Dotted(ys)
    ensures Upper(xs[0]) == Upper(ys[0]) && (|xs| == 1 <==> |ys| == 1) && (|xs| > 1 ==> Dotted(xs[1..]) == Dotted(ys[1..]))
  {
    DottedHead(xs);
    DottedHead(ys);
    hide Upper, Dotted;
    assert xs[0] in xs && ys[0] in ys;
    var t, a, b := Dotted(xs), Upper(xs[0]), Upper(ys[0]);
    if |a| < |t| {
      DotPast(t, a, b);
    }
    if |b| < |t| {
      DotPast(t, b, a);
    }
    assert |a| == |b|;
    assert a == t[..|a|] == b;
  }

  lemma {:induction false} SameDotted(xs: seq<string>, ys: seq<string>)
    requires |xs| == |ys| && forall i | 0 <= i < |xs| :: Upper(xs[i]) == Upper(ys[i])
    ensures Dotted(xs) == Dotted(ys)
    decreases |xs|
  {
    hide Upper;
    if |xs| > 1 {
      assert forall i | 0 <= i < |xs| - 1 :: xs[1..][i] == xs[i + 1] && ys[1..][i] == ys[i + 1];
      SameDotted(xs[1..], ys[1..]);
    }
  }

  // ---------- Numbering the grouping expressions ----------

  datatype Keys = Keys(exprs: seq<GroupExpr>, indices: map<string, nat>)

  /** The map sends exactly the keys of the listed expressions to their places. */
  ghost predicate ValidKeys(k: Keys) {
    && (forall i | 0 <= i < |k.exprs| :: GroupKey(k.exprs[i]) in k.indices && k.indices[GroupKey(k.exprs[i])] == i)
    && (forall key | key in k.indices :: k.indices[key] < |k.exprs| && GroupKey(k.exprs[k.indices[key]]) == key)
  }

  function AddKey(k: Keys, e: GroupExpr): (Keys, nat) {
    var key := GroupKey(e);
    if key in k.indices then (k, k.indices[key])
    else (Keys(k.exprs + [e], k.indices[key := |k.exprs|]), |k.exprs|)
  }

  function AddKeys(k: Keys, es: seq<GroupExpr>): (r: (Keys, seq<nat>))
    ensures |r.1| == |es|
    decreases |es|
  {
    if es == [] then (k, [])
    else
      var front := AddKeys(k, es[..|es| - 1]);
      var last := AddKey(front.0, es[|es| - 1]);
      (last.0, front.1 + [last.1])
  }

  /** Adding keeps the numbering, never renumbers, and answers with the place of an expression of the same key. */
  lemma AddKeyPlaces(k: Keys, e: GroupExpr)
    requires ValidKeys(k)
    ensures var (t, i) := AddKey(k, e);
            ValidKeys(t) && k.exprs <= t.exprs && i < |t.exprs| && GroupKey(t.exprs[i]) == GroupKey(e)
  {
    hide GroupKey;
    var (t, i) := AddKey(k, e);
    if GroupKey(e) !in k.indices {
      forall j | 0 <= j < |t.exprs|
        ensures GroupKey(t.exprs[j]) in t.indices && t.indices[GroupKey(t.exprs[j])] == j
      {
        assert j < |k.exprs| ==> t.exprs[j] == k.exprs[j];
      }
    }
  }

  predicate AllBelow(indices: seq<nat>, n: nat) {
    forall i | i in indices :: i < n
  }

  lemma {:induction false} AddKeysPlace(k: Keys, es: seq<GroupExpr>)
    requires ValidKeys(k)
    ensures var (t, places) := AddKeys(k, es);
            && ValidKeys(t) && k.exprs <= t.exprs
            && AllBelow(places, |t.exprs|)
            && forall j | 0 <= j < |es| :: places[j] < |t.exprs| && GroupKey(t.exprs[places[j]]) == GroupKey(es[j])
    decreases |es|
  {
    hide GroupKey, ValidKeys, AddKey;
    if es != [] {
      var front := AddKeys(k, es[..|es| - 1]);
      AddKeysPlace(k, es[..|es| - 1]);
      AddKeyPlaces(front.0, es[|es| - 1]);
    }
  }

  // ---------- ROLLUP ----------

  function RollupSets(indices: seq<nat>): (r: seq<seq<nat>>)
    ensures |r| == |indices| + 1
    ensures forall k | 0 <= k < |r| :: r[k] == indices[..|indices| - k]
  {
    seq(|indices| + 1, k requires 0 <= k <= |indices| => indices[..|indices| - k])
  }

  method ExpandRollup(indices: seq<nat>) returns (sets: seq<seq<nat>>)
    ensures sets == RollupSets(indices)
  {
    sets := [];
    for i := |indices| + 1 downto 0
      invariant sets == RollupSets(indices)[..|indices| + 1 - i]
    {
      sets := sets + [indices[..i]];
    }
  }

  /** ROLLUP yields the prefixes of its list, each once, from the whole list to the empty one. */
  lemma RollupIsPrefixes(indices: seq<nat>)
    ensures forall s :: s in RollupSets(indices) <==> s <= indices
    ensures forall i, j | 0 <= i < j <= |indices| :: RollupSets(indices)[i] != RollupSets(indices)[j]
  {
    var r := RollupSets(indices);
    forall s | s <= indices
      ensures s in r
    {
      assert r[|indices| - |s|] == indices[..|s|] == s;
    }
    assert forall i | 0 <= i <= |indices| :: |r[i]| == |indices| - i;
  }

  // ---------- CUBE ----------

  function Pow2(n: nat): (r: nat)
    ensures r > 0
  {
    if n == 0 then 1 else 2 * Pow2(n - 1)
  }

  /** `1 << n` as a 32-bit signed integer bounds the masks: the shift amount wraps, and bit 31 is the sign. */
  function MaskCount(n: nat): nat {
    if n % 32 == 31 then 0 else Pow2(n % 32)
  }

  predicate BitAt(mask: nat, i: nat)
    decreases i
  {
    if i == 0 then mask % 2 == 1 else BitAt(mask / 2, i - 1)
  }

  /** `mask & (1 << i) != 0`. */
  predicate HasBit(mask: nat, i: nat) {
    BitAt(mask, i % 32)
  }

  function Pick(indices: seq<nat>, mask: nat): seq<nat>
    decreases |indices|
  {
    if indices == [] then []
    else
      var n := |indices| - 1;
      Pick(indices[..n], mask) + (if HasBit(mask, n) then [indices[n]] else [])
  }

  method ExpandCube(indices: seq<nat>) returns (sets: seq<seq<nat>>)
    ensures sets == CubeSets(indices)
  {
    var count := MaskCount(|indices|);
    sets := [];
    for mask := count downto 0
      invariant sets == CubeSets(indices)[..count - mask]
    {
      var set_: seq<nat> := [];
      for i := 0 to |indices|
        invariant set_ == Pick(indices[..i], mask)
      {
        assert indices[..i + 1][..i] == indices[..i];
        if HasBit(mask, i) {
          set_ := set_ + [indices[i]];
        }
      }
      assert indices[..|indices|] == indices;
      sets := sets + [set_];
    }
  }

  function CubeSets(indices: seq<nat>): (r: seq<seq<nat>>)
    ensures |r| == MaskCount(|indices|)
    ensures forall k | 0 <= k < |r| :: r[k] == Pick(indices, |r| - 1 - k)
  {
    PickAll(indices, MaskCount(|indices|))
  }

  /** The choices of all masks below `count`, from the last. */
  function PickAll(indices: seq<nat>, count: nat): (r: seq<seq<nat>>)
    ensures |r| == count
    ensures forall k | 0 <= k < count :: r[k] == Pick(indices, count - 1 - k)
  {
    seq(count, k requires 0 <= k < count => Pick(indices, count - 1 - k))
  }

  /** The sublist of the chosen places, in order. */
  function Chosen(xs: seq<nat>, choice: seq<bool>): seq<nat>
    requires |choice| == |xs|
    decreases |xs|
  {
    if xs == [] then []
    else
      var n := |xs| - 1;
      Chosen(xs[..n], choice[..n]) + (if choice[n] then [xs[n]] else [])
  }

  ghost predicate IsSublist(s: seq<nat>, xs: seq<nat>) {
    exists choice: seq<bool> :: |choice| == |xs| && s == Chosen(xs, choice)
  }

  function Encode(choice: seq<bool>): (r: nat)
    ensures r < Pow2(|choice|)
  {
    if choice == [] then 0 else (if choice[0] then 1 else 0) + 2 * Encode(choice[1..])
  }

  function Decode(mask: nat, n: nat): (r: seq<bool>)
    ensures |r| == n
    ensures forall i | 0 <= i < n :: r[i] == HasBit(mask, i)
  {
    seq(n, i requires 0 <= i < n => HasBit(mask, i))
  }

  lemma {:induction false} EncodedBit(choice: seq<bool>, i: nat)
    requires i < |choice|
    ensures BitAt(Encode(choice), i) == choice[i]
  {
    if i > 0 {
      EncodedBit(choice[1..], i - 1);
      assert Encode(choice) / 2 == Encode(choice[1..]);
    }
  }

  lemma SmallShift(mask: nat, i: nat)
    requires i < 32
    ensures HasBit(mask, i) == BitAt(mask, i)
  {
    hide BitAt;
  }

  /** Reading the bits of a choice's mask gives the choice back. */
  lemma DecodeEncode(choice: seq<bool>)
    requires |choice| <= 30
    ensures Decode(Encode(choice), |choice|) == choice
  {
    hide *;
    forall i | 0 <= i < |choice|
      ensures Decode(Encode(choice), |choice|)[i] == choice[i]
    {
      SmallShift(Encode(choice), i);
      EncodedBit(choice, i);
    }
  }

  lemma {:induction false} EncodeDecode(mask: nat, n: nat)
    requires mask < Pow2(n) && n <= 30
    ensures Encode(Decode(mask, n)) == mask
    decreases n
  {
    if n > 0 {
      hide Encode, Decode, HasBit;
      EncodeDecode(mask / 2, n - 1);
      var choice := Decode(mask, n);
      forall i | 0 <= i < n - 1
        ensures choice[1..][i] == Decode(mask / 2, n - 1)[i]
      {
      }
      assert choice[1..] == Decode(mask / 2, n - 1);
    }
  }

  lemma {:induction false} PickIsChosen(indices: seq<nat>, mask: nat)
    ensures Pick(indices, mask) == Chosen(indices, Decode(mask, |indices|))
    decreases |indices|
  {
    if indices != [] {
      var n := |indices| - 1;
      PickIsChosen(indices[..n], mask);
      assert Decode(mask, n + 1)[..n] == Decode(mask, n);
    }
  }

  predicate Distinct(xs: seq<nat>) {
    forall i, j | 0 <= i < j < |xs| :: xs[i] != xs[j]
  }

  lemma {:induction false} ChosenFrom(xs: seq<nat>, choice: seq<bool>)
    requires |choice| == |xs|
    ensures forall x | x in Chosen(xs, choice) :: x in xs
    decreases |xs|
  {
    if xs != [] {
      var n := |xs| - 1;
      ChosenFrom(xs[..n], choice[..n]);
      assert xs == xs[..n] + [xs[n]];
    }
  }

  lemma ChosenLast(xs: seq<nat>, choice: seq<bool>)
    requires |choice| == |xs| > 0 && Distinct(xs)
    ensures var n := |xs| - 1;
            var front := Chosen(xs[..n], choice[..n]);
            && xs[n] !in front
            && Chosen(xs, choice) == if choice[n] then front + [xs[n]] else front
  {
    var n := |xs| - 1;
    ChosenFrom(xs[..n], choice[..n]);
    assert Chosen(xs[..n], choice[..n]) + [] == Chosen(xs[..n], choice[..n]);
  }

  lemma {:induction false} ChosenInjective(xs: seq<nat>, c: seq<bool>, d: seq<bool>)
    requires |c| == |d| == |xs| && Distinct(xs) && Chosen(xs, c) == Chosen(xs, d)
    ensures c == d
    decreases |xs|
  {
    if xs != [] {
      hide Chosen;
      var n := |xs| - 1;
      ChosenLast(xs, c);
      ChosenLast(xs, d);
      var a, b := Chosen(xs[..n], c[..n]), Chosen(xs[..n], d[..n]);
      LastDecides(a, b, xs[n], c[n], d[n]);
      ChosenInjective(xs[..n], c[..n], d[..n]);
      assert c == c[..n] + [c[n]] && d == d[..n] + [d[n]];
    }
  }

  lemma LastDecides(a: seq<nat>, b: seq<nat>, x: nat, c: bool, d: bool)
    requires x !in a && x !in b
    requires (if c then a + [x] else a) == (if d then b + [x] else b)
    ensures c == d && a == b
  {
    assert x in a + [x] && x in b + [x];
    assert (a + [x])[..|a|] == a && (b + [x])[..|b|] == b;
  }

  /** CUBE of up to 30 expressions yields exactly the sublists of its list. */
  lemma CubeIsSublists(indices: seq<nat>)
    requires |indices| <= 30
    ensures |CubeSets(indices)| == Pow2(|indices|)
    ensures forall s :: s in CubeSets(indices) <==> IsSublist(s, indices)
  {
    hide *;
    CubeSize(indices);
    forall s
      ensures s in CubeSets(indices) <==> IsSublist(s, indices)
    {
      if s in CubeSets(indices) {
        CubeSetIsSublist(indices, s);
      }
      if IsSublist(s, indices) {
        SublistIsCubeSet(indices, s);
      }
    }
  }

  lemma CubeSize(indices: seq<nat>)
    requires |indices| <= 30
    ensures |CubeSets(indices)| == Pow2(|indices|)
  {
    hide Pow2, CubeSets;
    assert |indices| % 32 == |indices|;
  }

  lemma CubeSetIsSublist(indices: seq<nat>, s: seq<nat>)
    requires s in CubeSets(indices)
    ensures IsSublist(s, indices)
  {
    hide Pick, Chosen, Decode, CubeSets;
    var sets := CubeSets(indices);
    var k :| 0 <= k < |sets| && sets[k] == s;
    PickIsChosen(indices, |sets| - 1 - k);
  }

  lemma SublistIsCubeSet(indices: seq<nat>, s: seq<nat>)
    requires |indices| <= 30 && IsSublist(s, indices)
    ensures s in CubeSets(indices)
  {
    hide Pick, Chosen, Encode, Decode, CubeSets, Pow2;
    var choice: seq<bool> :| |choice| == |indices| && s == Chosen(indices, choice);
    DecodeEncode(choice);
    PickIsChosen(indices, Encode(choice));
    CubeSize(indices);
    var sets := CubeSets(indices);
    assert sets[|sets| - 1 - Encode(choice)] == s;
  }

  lemma PickDistinct(indices: seq<nat>, a: nat, b: nat)
    requires |indices| <= 30 && Distinct(indices) && a < Pow2(|indices|) && b < Pow2(|indices|) && a != b
    ensures Pick(indices, a) != Pick(indices, b)
  {
    hide *;
    PickIsChosen(indices, a);
    PickIsChosen(indices, b);
    EncodeDecode(a, |indices|);
    EncodeDecode(b, |indices|);
    if Pick(indices, a) == Pick(indices, b) {
      ChosenInjective(indices, Decode(a, |indices|), Decode(b, |indices|));
    }
  }

  /** Its sets differ from each other when the indices do. */
  lemma CubeDistinct(indices: seq<nat>, i: nat, j: nat)
    requires |indices| <= 30 && Distinct(indices) && i < j < |CubeSets(indices)|
    ensures CubeSets(indices)[i] != CubeSets(indices)[j]
  {
    hide Pow2, Pick, Distinct;
    assert |indices| % 32 == |indices|;
    var count := Pow2(|indices|);
    assert |CubeSets(indices)| == count;
    PickDistinct(indices, count - 1 - i, count - 1 - j);
  }

  /** They run from the whole list down to the empty one. */
  lemma CubeEnds(indices: seq<nat>)
    requires |indices| <= 30
    ensures |CubeSets(indices)| > 0 && CubeSets(indices)[0] == indices && CubeSets(indices)[|CubeSets(indices)| - 1] == []
  {
    var n := |indices|;
    assert n % 32 == n && |CubeSets(indices)| == Pow2(n);
    hide Pow2, Chosen, Pick, Encode, Decode;
    AllBits(n);
    AllChosen(indices);
    PickIsChosen(indices, Pow2(n) - 1);
    DecodeEncode(seq(n, i => true));
    NoBits(indices);
  }

  lemma {:induction false} AllBits(n: nat)
    ensures Encode(seq(n, i => true)) == Pow2(n) - 1
  {
    if n > 0 {
      AllBits(n - 1);
      assert seq(n, i => true)[1..] == seq(n - 1, i => true);
    }
  }

  lemma {:induction false} AllChosen(xs: seq<nat>)
    ensures Chosen(xs, seq(|xs|, i => true)) == xs
    decreases |xs|
  {
    if xs != [] {
      var n := |xs| - 1;
      AllChosen(xs[..n]);
      assert seq(|xs|, i => true)[..n] == seq(n, i => true);
      assert xs == xs[..n] + [xs[n]];
    }
  }

  lemma {:induction false} NoBits(indices: seq<nat>)
    ensures Pick(indices, 0) == []
    decreases |indices|
  {
    if indices != [] {
      NoBits(indices[..|indices| - 1]);
      ZeroHasNoBit((|indices| - 1) % 32);
    }
  }

  lemma {:induction false} ZeroHasNoBit(i: nat)
    ensures !BitAt(0, i)
  {
    if i > 0 {
      ZeroHasNoBit(i - 1);
    }
  }

  /** Beyond 30 expressions the mask does not fit: the number of sets is right exactly up to 30. */
  lemma CubeWidth(indices: seq<nat>)
    ensures |CubeSets(indices)| == Pow2(|indices|) <==> |indices| <= 30
  {
    if |indices| >= 32 && |indices| % 32 != 31 {
      Pow2Grows(|indices| % 32, |indices|);
    }
  }

  lemma {:induction false} Pow2Grows(m: nat, n: nat)
    requires m < n
    ensures Pow2(m) < Pow2(n)
    decreases n
  {
    if m < n - 1 {
      Pow2Grows(m, n - 1);
    }
  }

  // ---------- A whole GROUP BY ----------

  datatype GroupSet = Listed(es: seq<GroupExpr>) | NestedRollup(es: seq<GroupExpr>) | NestedCube(es: seq<GroupExpr>)

  datatype GroupItem = Plain(e: GroupExpr) | RollupOf(es: seq<GroupExpr>) | CubeOf(es: seq<GroupExpr>) | SetsOf(sets: seq<GroupSet>)

  /** `keys` number the expressions; `regular` are the plain items; `modified` once any item is not plain. */
  datatype Grouping = Grouping(keys: Keys, sets: seq<seq<nat>>, regular: seq<nat>, modified: bool)

  function AddSet(g: Grouping, s: GroupSet): Grouping {
    var (keys, indices) := AddKeys(g.keys, s.es);
    g.(keys := keys, sets := g.sets + (match s
                                       case Listed(_) => [indices]
                                       case NestedRollup(_) => RollupSets(indices)
                                       case NestedCube(_) => CubeSets(indices)))
  }

  function AddSets(g: Grouping, sets: seq<GroupSet>): Grouping
    decreases |sets|
  {
    if sets == [] then g else AddSet(AddSets(g, sets[..|sets| - 1]), sets[|sets| - 1])
  }

  /** `resolve` looks a plain name up among the aliases of the SELECT list. */
  function AddItem(resolve: GroupExpr -> GroupExpr, g: Grouping, item: GroupItem): Grouping {
    match item
    case Plain(e) =>
      var (keys, index) := AddKey(g.keys, if e.Identifier? then resolve(e) else e);
      g.(keys := keys, regular := g.regular + [index])
    case RollupOf(es) => AddSet(g, NestedRollup(es)).(modified := true)
    case CubeOf(es) => AddSet(g, NestedCube(es)).(modified := true)
    case SetsOf(sets) => AddSets(g, sets).(modified := true)
  }

  function AddItems(resolve: GroupExpr -> GroupExpr, g: Grouping, items: seq<GroupItem>): Grouping
    decreases |items|
  {
    if items == [] then g else AddItem(resolve, AddItems(resolve, g, items[..|items| - 1]), items[|items| - 1])
  }

  function Prefixed(front: seq<nat>, sets: seq<seq<nat>>): (r: seq<seq<nat>>)
    ensures |r| == |sets|
    ensures forall k | 0 <= k < |r| :: r[k] == front + sets[k]
  {
    seq(|sets|, k requires 0 <= k < |sets| => front + sets[k])
  }

  /** The grouping sets of the finished GROUP BY: none without ROLLUP, CUBE or GROUPING SETS. */
  function FinalSets(g: Grouping): Option<seq<seq<nat>>> {
    if g.modified then Some(Prefixed(g.regular, g.sets)) else None
  }

  ghost predicate InRange(g: Grouping) {
    && ValidKeys(g.keys)
    && AllBelow(g.regular, |g.keys.exprs|)
    && forall k | 0 <= k < |g.sets| :: AllBelow(g.sets[k], |g.keys.exprs|)
  }

  lemma SublistBelow(indices: seq<nat>, mask: nat, n: nat)
    requires AllBelow(indices, n)
    ensures AllBelow(Pick(indices, mask), n)
  {
    PickIsChosen(indices, mask);
    ChosenFrom(indices, Decode(mask, |indices|));
  }

  lemma ExpandedBelow(indices: seq<nat>, n: nat)
    requires AllBelow(indices, n)
    ensures forall k | 0 <= k < |RollupSets(indices)| :: AllBelow(RollupSets(indices)[k], n)
    ensures forall k | 0 <= k < |CubeSets(indices)| :: AllBelow(CubeSets(indices)[k], n)
  {
    var cube := CubeSets(indices);
    forall k | 0 <= k < |RollupSets(indices)|
      ensures AllBelow(RollupSets(indices)[k], n)
    {
      var s := indices[..|indices| - k];
      assert RollupSets(indices)[k] == s;
      assert forall x | x in s :: x in indices;
    }
    forall k | 0 <= k < |cube|
      ensures AllBelow(cube[k], n)
    {
      SublistBelow(indices, |cube| - 1 - k, n);
    }
  }

  lemma AddSetInRange(g: Grouping, s: GroupSet)
    requires InRange(g)
    ensures InRange(AddSet(g, s)) && g.keys.exprs <= AddSet(g, s).keys.exprs
  {
    hide AddKeys, ValidKeys, RollupSets, CubeSets;
    AddKeysPlace(g.keys, s.es);
    var (keys, indices) := AddKeys(g.keys, s.es);
    ExpandedBelow(indices, |keys.exprs|);
    var t := AddSet(g, s);
    forall k | 0 <= k < |t.sets|
      ensures AllBelow(t.sets[k], |keys.exprs|)
    {
      if k < |g.sets| {
        assert t.sets[k] == g.sets[k];
      }
    }
  }

  lemma {:induction false} AddSetsInRange(g: Grouping, sets: seq<GroupSet>)
    requires InRange(g)
    ensures InRange(AddSets(g, sets))
    decreases |sets|
  {
    hide InRange, AddSet;
    if sets != [] {
      AddSetsInRange(g, sets[..|sets| - 1]);
      AddSetInRange(AddSets(g, sets[..|sets| - 1]), sets[|sets| - 1]);
    }
  }

  lemma AddItemInRange(resolve: GroupExpr -> GroupExpr, g: Grouping, item: GroupItem)
    requires InRange(g)
    ensures InRange(AddItem(resolve, g, item))
  {
    hide AddKey, ValidKeys, AddSet, AddSets;
    match item
    case Plain(e) => AddKeyPlaces(g.keys, if e.Identifier? then resolve(e) else e);
    case RollupOf(es) => AddSetInRange(g, NestedRollup(es));
    case CubeOf(es) => AddSetInRange(g, NestedCube(es));
    case SetsOf(sets) => AddSetsInRange(g, sets);
  }

  /** Every index in every grouping set of a GROUP BY is below the number of grouping keys. */
  lemma {:induction false} GroupByInRange(resolve: GroupExpr -> GroupExpr, g: Grouping, items: seq<GroupItem>)
    requires InRange(g)
    ensures var t := AddItems(resolve, g, items);
            InRange(t) && (FinalSets(t).Some? ==> forall k | 0 <= k < |FinalSets(t).value| :: AllBelow(FinalSets(t).value[k], |t.keys.exprs|))
    decreases |items|
  {
    if items != [] {
      var n := |items| - 1;
      GroupByInRange(resolve, g, items[..n]);
      AddItemInRange(resolve, AddItems(resolve, g, items[..n]), items[n]);
    }
  }

  // ---------- What a GROUP BY clause stands for ----------

  /** One place for each expression, of one with the same key. */
  predicate PlacesOf(k: Keys, es: seq<GroupExpr>, places: seq<nat>) {
    && |places| == |es|
    && forall j | 0 <= j < |es| :: places[j] < |k.exprs| && GroupKey(k.exprs[places[j]]) == GroupKey(es[j])
  }

  /** A list is itself; ROLLUP all beginnings, from the longest; CUBE, up to 30 expressions, all sublists, as many as there are choices. */
  ghost predicate Expands(m: GroupSet, places: seq<nat>, sets: seq<seq<nat>>) {
    match m
    case Listed(_) => sets == [places]
    case NestedRollup(_) =>
      && |sets| == |places| + 1
      && (forall s :: s in sets <==> s <= places)
      && forall i | 0 <= i < |sets| :: |sets[i]| == |places| - i
    case NestedCube(_) => |places| <= 30 ==> |sets| == Pow2(|places|) && forall s :: s in sets <==> IsSublist(s, places)
  }

  ghost predicate StandsFor(k: Keys, m: GroupSet, sets: seq<seq<nat>>) {
    exists places :: PlacesOf(k, m.es, places) && Expands(m, places, sets)
  }

  /** One block of sets for each member, in order. */
  ghost predicate Blocks(k: Keys, members: seq<GroupSet>, blocks: seq<seq<seq<nat>>>) {
    |blocks| == |members| && forall i | 0 <= i < |blocks| :: StandsFor(k, members[i], blocks[i])
  }

  /** The ROLLUPs, CUBEs and members of GROUPING SETS, in the order they are written. */
  function Members(items: seq<GroupItem>): seq<GroupSet>
    decreases |items|
  {
    if items == [] then []
    else
      Members(items[..|items| - 1])
      + match items[|items| - 1]
        case Plain(_) => []
        case RollupOf(es) => [NestedRollup(es)]
        case CubeOf(es) => [NestedCube(es)]
        case SetsOf(sets) => sets
  }

  /** The plain items, names looked up among the aliases. */
  function PlainExprs(resolve: GroupExpr -> GroupExpr, items: seq<GroupItem>): seq<GroupExpr>
    decreases |items|
  {
    if items == [] then []
    else
      PlainExprs(resolve, items[..|items| - 1])
      + match items[|items| - 1]
        case Plain(Identifier(name)) => [resolve(Identifier(name))]
        case Plain(e) => [e]
        case _ => []
  }

  predicate AllPlain(items: seq<GroupItem>) {
    forall item | item in items :: item.Plain?
  }

  function Flat(blocks: seq<seq<seq<nat>>>): seq<seq<nat>>
    decreases |blocks|
  {
    if blocks == [] then [] else Flat(blocks[..|blocks| - 1]) + blocks[|blocks| - 1]
  }

  /**
   The grouping sets of a clause: those each member stands for, one member after the other, each set after the
   places of the plain items; none when all items are plain.
   */
  ghost predicate Yields(resolve: GroupExpr -> GroupExpr, items: seq<GroupItem>, k: Keys,
                         front: seq<nat>, blocks: seq<seq<seq<nat>>>, r: Option<seq<seq<nat>>>) {
    && PlacesOf(k, PlainExprs(resolve, items), front)
    && Blocks(k, Members(items), blocks)
    && (r.None? <==> AllPlain(items))
    && (r.Some? ==> |r.value| == |Flat(blocks)| && forall j | 0 <= j < |r.value| :: r.value[j] == front + Flat(blocks)[j])
  }

  lemma PlacesStay(k: Keys, t: Keys, es: seq<GroupExpr>, places: seq<nat>)
    requires PlacesOf(k, es, places) && k.exprs <= t.exprs
    ensures PlacesOf(t, es, places)
  {
    hide GroupKey;
  }

  lemma StandsStay(k: Keys, t: Keys, m: GroupSet, sets: seq<seq<nat>>)
    requires StandsFor(k, m, sets) && k.exprs <= t.exprs
    ensures StandsFor(t, m, sets)
  {
    hide PlacesOf, Expands;
    var places :| PlacesOf(k, m.es, places) && Expands(m, places, sets);
    PlacesStay(k, t, m.es, places);
  }

  lemma RollupExpands(es: seq<GroupExpr>, places: seq<nat>)
    ensures Expands(NestedRollup(es), places, RollupSets(places))
  {
    RollupIsPrefixes(places);
  }

  lemma CubeExpands(es: seq<GroupExpr>, places: seq<nat>)
    ensures Expands(NestedCube(es), places, CubeSets(places))
  {
    hide CubeSets, Pow2, IsSublist;
    if |places| <= 30 {
      CubeIsSublists(places);
    }
  }

  /** One member adds the sets it stands for, and changes nothing else but the keys. */
  lemma AddSetStands(g: Grouping, m: GroupSet) returns (block: seq<seq<nat>>)
    requires ValidKeys(g.keys)
    ensures var t := AddSet(g, m);
            && t == g.(keys := t.keys, sets := g.sets + block)
            && StandsFor(t.keys, m, block) && ValidKeys(t.keys) && g.keys.exprs <= t.keys.exprs
  {
    hide AddKeys, ValidKeys, GroupKey, RollupSets, CubeSets;
    AddKeysPlace(g.keys, m.es);
    var (keys, places) := AddKeys(g.keys, m.es);
    RollupExpands(m.es, places);
    CubeExpands(m.es, places);
    block := match m
             case Listed(_) => [places]
             case NestedRollup(_) => RollupSets(places)
             case NestedCube(_) => CubeSets(places);
    assert PlacesOf(keys, m.es, places) && Expands(m, places, block);
  }

  lemma BlocksAppend(k: Keys, t: Keys, members: seq<GroupSet>, blocks: seq<seq<seq<nat>>>, m: GroupSet, block: seq<seq<nat>>)
    requires Blocks(k, members, blocks) && k.exprs <= t.exprs && StandsFor(t, m, block)
    ensures Blocks(t, members + [m], blocks + [block]) && Flat(blocks + [block]) == Flat(blocks) + block
  {
    hide StandsFor;
    forall i | 0 <= i < |blocks|
      ensures StandsFor(t, members[i], blocks[i])
    {
      StandsStay(k, t, members[i], blocks[i]);
    }
    assert (blocks + [block])[..|blocks|] == blocks;
  }

  lemma BlocksStay(k: Keys, t: Keys, members: seq<GroupSet>, blocks: seq<seq<seq<nat>>>)
    requires Blocks(k, members, blocks) && k.exprs <= t.exprs
    ensures Blocks(t, members, blocks)
  {
    hide StandsFor;
    forall i | 0 <= i < |blocks|
      ensures StandsFor(t, members[i], blocks[i])
    {
      StandsStay(k, t, members[i], blocks[i]);
    }
  }

  lemma {:induction false} AddSetsStand(g: Grouping, before: seq<GroupSet>, blocks: seq<seq<seq<nat>>>, sets: seq<GroupSet>)
    returns (after: seq<seq<seq<nat>>>)
    requires ValidKeys(g.keys) && Blocks(g.keys, before, blocks) && g.sets == Flat(blocks)
    ensures var t := AddSets(g, sets);
            && t == g.(keys := t.keys, sets := Flat(after))
            && Blocks(t.keys, before + sets, after) && ValidKeys(t.keys) && g.keys.exprs <= t.keys.exprs
    decreases |sets|
  {
    hide AddSet, Blocks, ValidKeys, Flat, StandsFor;
    if sets == [] {
      after := blocks;
      assert before + sets == before;
    } else {
      var n := |sets| - 1;
      var front := AddSetsStand(g, before, blocks, sets[..n]);
      var t := AddSets(g, sets[..n]);
      var block := AddSetStands(t, sets[n]);
      after := front + [block];
      BlocksAppend(t.keys, AddSet(t, sets[n]).keys, before + sets[..n], front, sets[n], block);
      assert before + sets == before + sets[..n] + [sets[n]];
    }
  }

  const START: Grouping := Grouping(Keys([], map[]), [], [], false)

  /** What planning the first items leaves. */
  ghost predicate Planned(resolve: GroupExpr -> GroupExpr, items: seq<GroupItem>, g: Grouping, blocks: seq<seq<seq<nat>>>) {
    && ValidKeys(g.keys)
    && PlacesOf(g.keys, PlainExprs(resolve, items), g.regular)
    && Blocks(g.keys, Members(items), blocks) && g.sets == Flat(blocks)
    && (g.modified <==> !AllPlain(items))
  }

  lemma ItemPlanned(resolve: GroupExpr -> GroupExpr, items: seq<GroupItem>, g: Grouping, blocks: seq<seq<seq<nat>>>, item: GroupItem)
    returns (after: seq<seq<seq<nat>>>)
    requires Planned(resolve, items, g, blocks)
    ensures Planned(resolve, items + [item], AddItem(resolve, g, item), after)
  {
    hide AddKey, AddSet, AddSets, ValidKeys, PlacesOf, Blocks, Flat, StandsFor, GroupKey;
    var all := items + [item];
    assert all[..|all| - 1] == items && all[|all| - 1] == item;
    assert AllPlain(all) <==> AllPlain(items) && item.Plain?;
    var t := AddItem(resolve, g, item);
    match item {
      case Plain(e) =>
        after := blocks;
        PlainPlanned(g, PlainExprs(resolve, items), if e.Identifier? then resolve(e) else e);
        AddKeyPlaces(g.keys, if e.Identifier? then resolve(e) else e);
        BlocksStay(g.keys, t.keys, Members(items), blocks);
        assert Members(items) + [] == Members(items);
      case RollupOf(es) =>
        var block := AddSetStands(g, NestedRollup(es));
        after := blocks + [block];
        BlocksAppend(g.keys, t.keys, Members(items), blocks, NestedRollup(es), block);
        PlacesStay(g.keys, t.keys, PlainExprs(resolve, items), g.regular);
      case CubeOf(es) =>
        var block := AddSetStands(g, NestedCube(es));
        after := blocks + [block];
        BlocksAppend(g.keys, t.keys, Members(items), blocks, NestedCube(es), block);
        PlacesStay(g.keys, t.keys, PlainExprs(resolve, items), g.regular);
      case SetsOf(sets) =>
        after := AddSetsStand(g, Members(items), blocks, sets);
        PlacesStay(g.keys, t.keys, PlainExprs(resolve, items), g.regular);
    }
    assert PlainExprs(resolve, items) + [] == PlainExprs(resolve, items);
  }

  lemma PlainPlanned(g: Grouping, es: seq<GroupExpr>, e: GroupExpr)
    requires ValidKeys(g.keys) && PlacesOf(g.keys, es, g.regular)
    ensures var (keys, index) := AddKey(g.keys, e); PlacesOf(keys, es + [e], g.regular + [index])
  {
    hide GroupKey, ValidKeys, AddKey;
    AddKeyPlaces(g.keys, e);
  }

  lemma {:induction false} ItemsPlanned(resolve: GroupExpr -> GroupExpr, items: seq<GroupItem>) returns (blocks: seq<seq<seq<nat>>>)
    ensures Planned(resolve, items, AddItems(resolve, START, items), blocks)
    decreases |items|
  {
    hide AddItem, Planned;
    if items == [] {
      blocks := [];
      NothingPlanned(resolve);
    } else {
      var n := |items| - 1;
      var front := ItemsPlanned(resolve, items[..n]);
      blocks := ItemPlanned(resolve, items[..n], AddItems(resolve, START, items[..n]), front, items[n]);
      assert items[..n] + [items[n]] == items;
    }
  }

  lemma NothingPlanned(resolve: GroupExpr -> GroupExpr)
    ensures Planned(resolve, [], START, [])
  {
  }

  /** Every GROUP BY clause, whatever its items, yields exactly the grouping sets its members stand for. */
  lemma GroupByYields(resolve: GroupExpr -> GroupExpr, items: seq<GroupItem>) returns (front: seq<nat>, blocks: seq<seq<seq<nat>>>)
    ensures var t := AddItems(resolve, START, items); Yields(resolve, items, t.keys, front, blocks, FinalSets(t))
  {
    hide AddItems, ValidKeys, PlacesOf, StandsFor, Flat, Members, PlainExprs;
    blocks := ItemsPlanned(resolve, items);
    front := AddItems(resolve, START, items).regular;
  }

  /** An expression of the clause: a plain item, or one inside ROLLUP, CUBE or GROUPING SETS. */
  predicate Mentions(resolve: GroupExpr -> GroupExpr, items: seq<GroupItem>, e: GroupExpr) {
    e in PlainExprs(resolve, items) || exists m :: m in Members(items) && e in m.es
  }

  lemma {:induction false} AddKeysFrom(k: Keys, es: seq<GroupExpr>)
    ensures forall e | e in AddKeys(k, es).0.exprs :: e in k.exprs || e in es
    decreases |es|
  {
    if es != [] {
      AddKeysFrom(k, es[..|es| - 1]);
    }
  }

  lemma {:induction false} AddSetsFrom(g: Grouping, sets: seq<GroupSet>)
    ensures forall e | e in AddSets(g, sets).keys.exprs :: e in g.keys.exprs || exists m :: m in sets && e in m.es
    decreases |sets|
  {
    hide AddKeys, RollupSets, CubeSets;
    if sets != [] {
      var n := |sets| - 1;
      AddSetsFrom(g, sets[..n]);
      AddKeysFrom(AddSets(g, sets[..n]).keys, sets[n].es);
      assert sets[n] in sets && forall m | m in sets[..n] :: m in sets;
    }
  }

  lemma MentionsLater(resolve: GroupExpr -> GroupExpr, items: seq<GroupItem>, item: GroupItem, e: GroupExpr)
    ensures Mentions(resolve, items, e) ==> Mentions(resolve, items + [item], e)
  {
    var all := items + [item];
    assert all[..|all| - 1] == items && all[|all| - 1] == item;
  }

  lemma MentionsItem(resolve: GroupExpr -> GroupExpr, items: seq<GroupItem>, item: GroupItem, e: GroupExpr)
    requires match item
             case Plain(Identifier(name)) => e == resolve(Identifier(name))
             case Plain(x) => e == x
             case RollupOf(es) => e in es
             case CubeOf(es) => e in es
             case SetsOf(sets) => exists m :: m in sets && e in m.es
    ensures Mentions(resolve, items + [item], e)
  {
    var all := items + [item];
    assert all[..|all| - 1] == items && all[|all| - 1] == item;
    match item
    case RollupOf(es) => assert NestedRollup(es) in Members(all);
    case CubeOf(es) => assert NestedCube(es) in Members(all);
    case SetsOf(sets) =>
      var m :| m in sets && e in m.es;
      assert m in Members(all);
    case _ =>
  }

  /** The grouping keys are expressions of the clause, no two with the same key. */
  lemma {:induction false} KeysMentioned(resolve: GroupExpr -> GroupExpr, items: seq<GroupItem>)
    ensures forall e | e in AddItems(resolve, START, items).keys.exprs :: Mentions(resolve, items, e)
    decreases |items|
  {
    hide Mentions, AddKeys, AddKey, AddSets, RollupSets, CubeSets;
    if items != [] {
      var n := |items| - 1;
      var g, item := AddItems(resolve, START, items[..n]), items[n];
      KeysMentioned(resolve, items[..n]);
      assert items[..n] + [item] == items;
      forall e | e in AddItem(resolve, g, item).keys.exprs
        ensures Mentions(resolve, items, e)
      {
        MentionsLater(resolve, items[..n], item, e);
        if e !in g.keys.exprs {
          NewKey(resolve, g, item, e);
          MentionsItem(resolve, items[..n], item, e);
        }
      }
    }
  }

  lemma NewKey(resolve: GroupExpr -> GroupExpr, g: Grouping, item: GroupItem, e: GroupExpr)
    requires e in AddItem(resolve, g, item).keys.exprs && e !in g.keys.exprs
    ensures match item
            case Plain(Identifier(name)) => e == resolve(Identifier(name))
            case Plain(x) => e == x
            case RollupOf(es) => e in es
            case CubeOf(es) => e in es
            case SetsOf(sets) => exists m :: m in sets && e in m.es
  {
    hide AddKeys, AddSets, RollupSets, CubeSets, GroupKey;
    match item
    case Plain(_) =>
    case RollupOf(es) => AddKeysFrom(g.keys, es);
    case CubeOf(es) => AddKeysFrom(g.keys, es);
    case SetsOf(sets) => AddSetsFrom(g, sets);
  }

  // ---------- The planner's mutable state ----------

  class GroupPlanner {
    var exprs: seq<GroupExpr>
    var indices: map<string, nat>
    var sets: seq<seq<nat>>
    var regular: seq<nat>
    var modified: bool

    constructor ()
      ensures State() == START && InRange(State())
    {
      exprs, indices, sets, regular, modified := [], map[], [], [], false;
    }

    function State(): Grouping
      reads this
    {
      Grouping(Keys(exprs, indices), sets, regular, modified)
    }

    method AddExpr(e: GroupExpr) returns (index: nat)
      modifies this`exprs, this`indices
      ensures (State().keys, index) == AddKey(old(State()).keys, e)
    {
      var key := GroupKey(e);
      if key in indices {
        return indices[key];
      }
      index := |exprs|;
      exprs := exprs + [e];
      indices := indices[key := index];
    }

    method AddExprs(es: seq<GroupExpr>) returns (places: seq<nat>)
      modifies this`exprs, this`indices
      ensures (State().keys, places) == AddKeys(old(State()).keys, es)
    {
      hide AddKey;
      places := [];
      for i := 0 to |es|
        invariant (State().keys, places) == AddKeys(old(State()).keys, es[..i])
      {
        assert es[..i + 1][..i] == es[..i];
        var index := AddExpr(es[i]);
        places := places + [index];
      }
      assert es[..|es|] == es;
    }

    method AddOneSet(s: GroupSet)
      modifies this`exprs, this`indices, this`sets
      ensures State() == AddSet(old(State()), s)
    {
      hide AddKeys, RollupSets, CubeSets;
      var places := AddExprs(s.es);
      match s {
        case Listed(_) => sets := sets + [places];
        case NestedRollup(_) =>
          var expanded := ExpandRollup(places);
          sets := sets + expanded;
        case NestedCube(_) =>
          var expanded := ExpandCube(places);
          sets := sets + expanded;
      }
    }

    method AddOneItem(resolve: GroupExpr -> GroupExpr, item: GroupItem)
      modifies this
      ensures State() == AddItem(resolve, old(State()), item)
    {
      hide AddKey, AddSet;
      match item {
        case Plain(e) =>
          var index := AddExpr(if e.Identifier? then resolve(e) else e);
          regular := regular + [index];
        case RollupOf(es) =>
          modified := true;
          AddOneSet(NestedRollup(es));
          KeepsModified(old(State()), NestedRollup(es));
        case CubeOf(es) =>
          modified := true;
          AddOneSet(NestedCube(es));
          KeepsModified(old(State()), NestedCube(es));
        case SetsOf(list) =>
          modified := true;
          for i := 0 to |list|
            invariant State() == AddSets(old(State()), list[..i]).(modified := true)
          {
            assert list[..i + 1][..i] == list[..i];
            KeepsModified(AddSets(old(State()), list[..i]), list[i]);
            AddOneSet(list[i]);
          }
          assert list[..|list|] == list;
      }
    }

    /** The grouping sets of a GROUP BY clause. */
    method PlanGroupBy(resolve: GroupExpr -> GroupExpr, items: seq<GroupItem>) returns (r: Option<seq<seq<nat>>>)
      modifies this
      ensures State() == AddItems(resolve, old(State()), items)
      ensures r == FinalSets(State())
      ensures old(State()) == START ==> exists front, blocks :: Yields(resolve, items, State().keys, front, blocks, r)
    {
      hide AddItem, Yields, Members, PlainExprs, Blocks, StandsFor, PlacesOf;
      ghost var front, blocks := GroupByYields(resolve, items);
      for i := 0 to |items|
        invariant State() == AddItems(resolve, old(State()), items[..i])
      {
        assert items[..i + 1][..i] == items[..i];
        AddOneItem(resolve, items[i]);
      }
      assert items[..|items|] == items;
      if !modified {
        return None;
      }
      var expanded: seq<seq<nat>> := [];
      for k := 0 to |sets|
        invariant expanded == Prefixed(regular, sets)[..k]
      {
        expanded := expanded + [regular + sets[k]];
      }
      assert expanded == Prefixed(regular, sets);
      return Some(expanded);
    }
  }

  lemma KeepsModified(g: Grouping, s: GroupSet)
    ensures AddSet(g.(modified := true), s) == AddSet(g, s).(modified := true)
  {
  }
}
