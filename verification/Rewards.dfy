/** The deterministic shuffle of shares and the exact split of the block reward
    (p2pool/sidechain/utils.go, utils/xorshift64star.go). */
module Rewards {
  import opened Blocks
  import opened Payout

  // ---------------------------------------------------------------- the generator

  function Shift12(x: bv64): bv64 { x ^ (x >> 12) }
  function Shift25(x: bv64): bv64 { x ^ (x << 25) }
  function Shift27(x: bv64): bv64 { x ^ (x >> 27) }
  function Scramble(x: bv64): bv64 { x * 0x2545F4914F6CDD1D }

  /** `XorShift64Star`. */
  function XorShift64Star(x: bv64): bv64 { Scramble(Shift27(Shift25(Shift12(x)))) }

  function Undo12(y: bv64): bv64 { y ^ (y >> 12) ^ (y >> 24) ^ (y >> 36) ^ (y >> 48) ^ (y >> 60) }
  function Undo25(y: bv64): bv64 { y ^ (y << 25) ^ (y << 50) }
  function Undo27(y: bv64): bv64 { y ^ (y >> 27) ^ (y >> 54) }
  function Unscramble(y: bv64): bv64 { y * 0x59071D96D81ECD35 }

  /** The step backwards. */
  function XorShiftBack(y: bv64): bv64 { Undo12(Undo25(Undo27(Unscramble(y)))) }

  lemma Undo12Undoes(x: bv64)
    ensures Undo12(x ^ (x >> 12)) == x
    ensures x != 0 ==> x ^ (x >> 12) != 0
  {
  }

  lemma Undo25Undoes(x: bv64)
    ensures Undo25(x ^ (x << 25)) == x
    ensures x != 0 ==> x ^ (x << 25) != 0
  {
  }

  lemma Undo27Undoes(x: bv64)
    ensures Undo27(x ^ (x >> 27)) == x
    ensures x != 0 ==> x ^ (x >> 27) != 0
  {
  }

  lemma UnscrambleUndoes(x: bv64)
    ensures Unscramble(x * 0x2545F4914F6CDD1D) == x
  {
  }

  lemma ScrambleNonZero(x: bv64)
    ensures x != 0 ==> Scramble(x) != 0
  {
  }

  lemma Steps(x: bv64)
    ensures Undo12(Shift12(x)) == x && (x != 0 ==> Shift12(x) != 0)
    ensures Undo25(Shift25(x)) == x && (x != 0 ==> Shift25(x) != 0)
    ensures Undo27(Shift27(x)) == x && (x != 0 ==> Shift27(x) != 0)
  {
    Undo12Undoes(x);
    Undo25Undoes(x);
    Undo27Undoes(x);
  }

  lemma ScrambleUndone(x: bv64)
    ensures Unscramble(Scramble(x)) == x
  {
    UnscrambleUndoes(x);
  }

  /** The generator can be run backwards, so it never merges two states, and only zero steps to
      zero: a non-zero seed stays non-zero for ever. */
  lemma XorShiftReversible(x: bv64)
    ensures XorShiftBack(XorShift64Star(x)) == x
    ensures x != 0 ==> XorShift64Star(x) != 0
  {
    ScrambleUndone(Shift27(Shift25(Shift12(x))));
    ScrambleNonZero(Shift27(Shift25(Shift12(x))));
    Steps(Shift25(Shift12(x)));
    Steps(Shift12(x));
    Steps(x);
  }

  // ---------------------------------------------------------------- the shuffle

  /** The upper half of the 128-bit product of a seed and a range. */
  function Pick(seed: bv64, range: nat): (k: nat)
    ensures range > 0 ==> k < range
  {
    ProductBelow(seed as nat, range);
    (seed as nat) * range / TWO64
  }

  lemma ProductBelow(seed: nat, range: nat)
    requires seed < TWO64
    ensures range > 0 ==> seed * range / TWO64 < range
  {
    if range > 0 {
      assert seed * range < TWO64 * range;
    }
  }

  function Swapped<T>(s: seq<T>, i: nat, j: nat): (r: seq<T>)
    requires i < |s| && j < |s|
    ensures |r| == |s|
  {
    s[i := s[j]][j := s[i]]
  }

  /** The swaps from position i on, starting from a seed. */
  function Shuffled<T>(s: seq<T>, i: nat, seed: bv64): (r: seq<T>)
    requires i <= |s|
    ensures |r| == |s|
    decreases |s| - i
  {
    if i + 1 >= |s| then s
    else
      var next := XorShift64Star(seed);
      Shuffled(Swapped(s, i, i + Pick(next, |s| - i)), i + 1, next)
  }

  function FirstSeed(hash: bv64): bv64 { if hash == 0 then 1 else hash }

  /** What `ShuffleShares` makes of a list; `hash` is the first word of the hashed key seed. */
  function ShuffledShares<T>(s: seq<T>, version: nat, hash: bv64): seq<T> {
    if version > 1 && |s| > 1 then Shuffled(s, 0, FirstSeed(hash)) else s
  }

  /** `ShuffleSequence` with the swap of `ShuffleShares`. */
  method ShuffleShares<T>(s: array<T>, version: nat, hash: bv64)
    modifies s
    ensures s[..] == ShuffledShares(old(s[..]), version, hash)
  {
    var n := s.Length;
    if version > 1 && n > 1 {
      var seed := FirstSeed(hash);
      for i := 0 to n - 1
        invariant seed != 0
        invariant Shuffled(s[..], i, seed) == Shuffled(old(s[..]), 0, FirstSeed(hash))
      {
        ghost var before := s[..];
        XorShiftReversible(seed);
        seed := XorShift64Star(seed);
        var k := Pick(seed, n - i);
        s[i], s[i + k] := s[i + k], s[i];
        assert s[..] == Swapped(before, i, i + k);
      }
    }
  }

  /** Whatever the seed, the shuffle only reorders. */
  lemma {:induction false} ShuffleIsPermutation<T>(s: seq<T>, i: nat, seed: bv64)
    requires i <= |s|
    ensures multiset(Shuffled(s, i, seed)) == multiset(s)
    decreases |s| - i
  {
    if i + 1 < |s| {
      var next := XorShift64Star(seed);
      var k := i + Pick(next, |s| - i);
      SwapIsPermutation(s, i, k);
      ShuffleIsPermutation(Swapped(s, i, k), i + 1, next);
    }
  }

  /** The seed, read as a fraction of 2^64, falls into the k-th of equal parts of the range. */
  predicate Chosen(seed: nat, range: nat, k: nat) {
    Times(k, TWO64) <= Times(seed, range) < Times(k + 1, TWO64)
  }

  /** ... counted from position i. */
  predicate ChosenFrom(seed: bv64, n: nat, i: nat, j: nat) {
    i <= n && i <= j && Chosen(seed as nat, n - i, j - i)
  }

  lemma PickMeaning(seed: bv64, range: nat)
    ensures Chosen(seed as nat, range, Pick(seed, range))
  {
  }

  ghost predicate Exchanged<T(!new)>(s: seq<T>, t: seq<T>, i: nat, j: nat) {
    && i < |s| == |t|
    && j < |s|
    && t[i] == s[j]
    && t[j] == s[i]
    && forall k :: 0 <= k < |s| && k != i && k != j ==> t[k] == s[k]
  }

  /** From position i on, each place in turn is exchanged with one chosen by the next number of the
      generator among itself and the places after it. */
  ghost predicate Drawn<T(!new)>(s: seq<T>, i: nat, seed: bv64, r: seq<T>)
    decreases |s| - i
  {
    if i + 1 >= |s| then r == s
    else
      var next := XorShift64Star(seed);
      exists j, t: seq<T> :: ChosenFrom(next, |s|, i, j) && Exchanged(s, t, i, j) && Drawn(t, i + 1, next, r)
  }

  lemma {:induction false} ShuffledIsDrawn<T(!new)>(s: seq<T>, i: nat, seed: bv64)
    requires i <= |s|
    ensures Drawn(s, i, seed, Shuffled(s, i, seed))
    decreases |s| - i
  {
    if i + 1 < |s| {
      var next := XorShift64Star(seed);
      var k := Pick(next, |s| - i);
      var t := Swapped(s, i, i + k);
      PickMeaning(next, |s| - i);
      ShuffledIsDrawn(t, i + 1, next);
      assert ChosenFrom(next, |s|, i, i + k) && Exchanged(s, t, i, i + k);
    }
  }

  /** The shuffle: none before version 2, else a draw that starts from the hash, or from one if that is zero. */
  lemma ShuffleMeaning<T(!new)>(s: seq<T>, version: nat, hash: bv64)
    ensures version <= 1 ==> ShuffledShares(s, version, hash) == s
    ensures version > 1 && hash != 0 ==> Drawn(s, 0, hash, ShuffledShares(s, version, hash))
    ensures version > 1 && hash == 0 ==> Drawn(s, 0, 1, ShuffledShares(s, version, hash))
  {
    ShuffledIsDrawn(s, 0, FirstSeed(hash));
  }

  lemma SwapIsPermutation<T>(s: seq<T>, i: nat, j: nat)
    requires i < |s| && j < |s|
    ensures multiset(Swapped(s, i, j)) == multiset(s)
  {
  }

  // ---------------------------------------------------------------- the reward split

  function Times(a: nat, b: nat): nat { a * b }

  /** The weight of the first i shares, without and with 128-bit wrap-around. */
  function Weight(s: seq<Share>, i: nat): nat
    requires i <= |s|
  {
    if i == 0 then 0 else Weight(s, i - 1) + s[i - 1].weight
  }

  function Weight128(s: seq<Share>, i: nat): nat
    requires i <= |s|
  {
    if i == 0 then 0 else Add128(Weight128(s, i - 1), s[i - 1].weight)
  }

  /** Everything paid out up to and including share i, in 128-bit and then 64-bit arithmetic. */
  function Given(weight: nat, reward: nat, total: nat): nat
    requires total > 0
  {
    weight * reward % TWO128 / total % TWO64
  }

  function GivenTo(s: seq<Share>, reward: nat, total: nat, i: nat): nat
    requires total > 0 && i <= |s|
  {
    if i == 0 then 0 else Given(Weight128(s, i), reward, total)
  }

  /** What share i is paid. */
  function Paid(s: seq<Share>, reward: nat, total: nat, i: nat): nat
    requires total > 0 && i < |s|
  {
    Sub64(GivenTo(s, reward, total, i + 1), GivenTo(s, reward, total, i))
  }

  lemma GivenInRange(s: seq<Share>, reward: nat, total: nat, i: nat)
    requires total > 0 && i <= |s|
    ensures GivenTo(s, reward, total, i) < TWO64
  {
  }

  lemma AddBack(a: nat, b: nat)
    requires a < TWO64 && b < TWO64
    ensures (a + Sub64(b, a)) % TWO64 == b
  {
  }

  /** The first loop of `SplitReward`. */
  method TotalWeight(s: seq<Share>) returns (total: nat)
    ensures total == Weight128(s, |s|)
  {
    total := 0;
    for i := 0 to |s|
      invariant total == Weight128(s, i)
    {
      total := Add128(total, s[i].weight);
    }
  }

  /** The last loop of `SplitReward`: what was given out in all. */
  method GivenOut(ghost s: seq<Share>, ghost reward: nat, ghost total: nat, rewards: seq<nat>) returns (given: nat)
    requires total > 0 && |rewards| == |s|
    requires forall i :: 0 <= i < |s| ==> rewards[i] == Paid(s, reward, total, i)
    ensures given == GivenTo(s, reward, total, |s|)
  {
    given := 0;
    for i := 0 to |rewards|
      invariant given == GivenTo(s, reward, total, i)
    {
      GivenInRange(s, reward, total, i);
      GivenInRange(s, reward, total, i + 1);
      AddBack(GivenTo(s, reward, total, i), GivenTo(s, reward, total, i + 1));
      given := (given + rewards[i]) % TWO64;
    }
  }

  /** What `SplitReward` returns; none stands for the nil slice. */
  ghost predicate IsSplit(s: seq<Share>, reward: nat, r: Option<seq<nat>>) {
    var total := Weight128(s, |s|);
    if total == 0 || GivenTo(s, reward, total, |s|) != reward then r == None
    else
      && r.Some?
      && |r.value| == |s|
      && forall i :: 0 <= i < |s| ==> r.value[i] == Paid(s, reward, total, i)
  }

  /** `SplitReward`. */
  method SplitReward(reward: nat, s: seq<Share>) returns (r: Option<seq<nat>>)
    ensures IsSplit(s, reward, r)
  {
    var total := TotalWeight(s);
    if total == 0 {
      return None;
    }
    var rewards: seq<nat> := [];
    var w, given := 0, 0;
    for i := 0 to |s|
      invariant |rewards| == i && w == Weight128(s, i) && given == GivenTo(s, reward, total, i)
      invariant forall k :: 0 <= k < i ==> rewards[k] == Paid(s, reward, total, k)
    {
      w := Add128(w, s[i].weight);
      var next := Given(w, reward, total);
      rewards := rewards + [Sub64(next, given)];
      given := next;
    }
    // the sum telescopes, so this compares the last running part with the reward
    given := GivenOut(s, reward, total, rewards);
    if given != reward {
      return None;
    }
    return Some(rewards);
  }

  // ---------------------------------------------------------------- exactness and fairness

  lemma Quotient(x: nat, d: nat, q: nat)
    requires d > 0 && q * d <= x < q * d + d
    ensures x / d == q
  {
    var p := x / d;
    assert p * d <= x < p * d + d;
    if p < q {
      Scale(p + 1, q, d);
    } else if q < p {
      Scale(q + 1, p, d);
    }
  }

  lemma Scale(a: nat, b: nat, d: nat)
    requires a <= b
    ensures a * d <= b * d
  {
  }

  /** Dividing less than `t * r` by t gives less than r. */
  lemma QuotientBelow(x: nat, t: nat, r: nat)
    requires t > 0 && x < r * t
    ensures x / t < r
  {
    var p := x / t;
    assert p * t <= x;
    if r <= p {
      Scale(r, p, t);
    }
  }

  lemma GivenFits(product: nat, total: nat, reward: nat)
    requires total > 0 && reward < TWO64 && product == reward * total < TWO128
    ensures product % TWO128 / total % TWO64 == reward
  {
    Quotient(product, total, reward);
  }

  lemma GivenWraps(product: nat, total: nat, reward: nat)
    requires total > 0 && reward < TWO64 && product == reward * total >= TWO128
    ensures product % TWO128 / total % TWO64 < reward
  {
    var wrapped := product % TWO128;
    assert wrapped < TWO128;
    QuotientBelow(wrapped, total, reward);
    SmallModulo(wrapped / total);
  }

  lemma SmallModulo(q: nat)
    requires q < TWO64
    ensures q % TWO64 == q
  {
  }

  /** The last partial sum is the reward exactly when the product does not wrap. */
  lemma GivenAllIff(total: nat, reward: nat)
    requires total > 0 && reward < TWO64
    ensures Given(total, reward, total) == reward <==> total * reward < TWO128
  {
    if total * reward < TWO128 {
      GivenFits(total * reward, total, reward);
    } else {
      GivenWraps(total * reward, total, reward);
    }
  }

  /** The split succeeds exactly when the 128-bit total is not zero and times the reward still
      fits 128 bits. */
  lemma SplitSucceedsIff(s: seq<Share>, reward: nat, r: Option<seq<nat>>)
    requires reward < TWO64 && IsSplit(s, reward, r)
    ensures r.Some? <==> Weight128(s, |s|) != 0 && Weight128(s, |s|) * reward < TWO128
  {
    var total := Weight128(s, |s|);
    if total != 0 {
      GivenAllIff(total, reward);
    }
  }

  /** No 128-bit wrap-around happens in the split. */
  predicate Fits(s: seq<Share>, reward: nat) {
    && 0 < Weight(s, |s|)
    && Weight(s, |s|) * reward < TWO128
    && Weight(s, |s|) < TWO128
    && reward < TWO64
  }

  lemma {:induction false} WeightMonotone(s: seq<Share>, i: nat, j: nat)
    requires i <= j <= |s|
    ensures Weight(s, i) <= Weight(s, j)
    decreases j
  {
    if i < j {
      WeightMonotone(s, i, j - 1);
    }
  }

  lemma {:induction false} WeightExact(s: seq<Share>, i: nat)
    requires i <= |s| && Weight(s, |s|) < TWO128
    ensures Weight128(s, i) == Weight(s, i)
  {
    WeightMonotone(s, i, |s|);
    if i > 0 {
      WeightExact(s, i - 1);
    }
  }

  lemma GivenExact(s: seq<Share>, reward: nat, i: nat)
    requires Fits(s, reward) && i <= |s|
    ensures var total := Weight(s, |s|);
      GivenTo(s, reward, total, i) == Times(Weight(s, i), reward) / total <= reward
  {
    assert Times(0, reward) == 0;
    WeightMonotone(s, i, |s|);
    WeightExact(s, i);
    if i > 0 {
      PartOfReward(Weight(s, i), Weight(s, |s|), reward);
    }
  }

  lemma PartOfReward(w: nat, total: nat, reward: nat)
    requires 0 < total && w <= total && total * reward < TWO128 && reward < TWO64
    ensures Given(w, reward, total) == Times(w, reward) / total <= reward
  {
    Scale(w, total, reward);
    ShareOfReward(Times(w, reward), total, reward);
  }

  lemma ShareOfReward(part: nat, total: nat, reward: nat)
    requires 0 < total && part <= reward * total < TWO128 && reward < TWO64
    ensures part / total <= reward
    ensures part % TWO128 / total % TWO64 == part / total
  {
    QuotientBelow(part, total, reward + 1);
    SmallModulo(part / total);
  }

  function SumOf(r: seq<nat>): nat {
    if r == [] then 0 else SumOf(r[..|r| - 1]) + r[|r| - 1]
  }

  /** One payment, between what the partial sums before and after it floor to. */
  lemma PaidExact(s: seq<Share>, reward: nat, total: nat, i: nat)
    requires Fits(s, reward) && i < |s| && total == Weight(s, |s|)
    ensures Paid(s, reward, total, i)
         == Times(Weight(s, i + 1), reward) / total - Times(Weight(s, i), reward) / total
  {
    GivenExact(s, reward, i);
    GivenExact(s, reward, i + 1);
    Scale(Weight(s, i), Weight(s, i + 1), reward);
    QuotientMonotone(Times(Weight(s, i), reward), Times(Weight(s, i + 1), reward), total);
    SubtractSmall(GivenTo(s, reward, total, i + 1), GivenTo(s, reward, total, i));
  }

  lemma SubtractSmall(a: nat, b: nat)
    requires b <= a < TWO64
    ensures Sub64(a, b) == a - b
  {
  }

  lemma QuotientMonotone(a: nat, b: nat, d: nat)
    requires d > 0 && a <= b
    ensures a / d <= b / d
  {
    var p := a / d;
    assert p * d <= a;
    var q := b / d;
    assert b < q * d + d;
    if q < p {
      Scale(q + 1, p, d);
    }
  }

  lemma {:induction false} Telescope(r: seq<nat>, sums: seq<nat>)
    requires |sums| == |r| + 1 && sums[0] == 0
    requires forall i :: 0 <= i < |r| ==> sums[i] + r[i] == sums[i + 1]
    ensures SumOf(r) == sums[|r|]
  {
    if r != [] {
      Telescope(r[..|r| - 1], sums[..|r|]);
    }
  }

  /** `paid` differs from `part / total` by less than one. */
  predicate WithinOne(paid: nat, part: nat, total: nat) {
    paid * total < part + total && part < paid * total + total
  }

  lemma FloorDifference(a: nat, b: nat, d: nat, paid: nat, part: nat)
    requires d > 0 && part == b - a && paid == b / d - a / d
    ensures WithinOne(paid, part, d)
  {
    var p, q := a / d, b / d;
    assert p * d <= a < p * d + d;
    assert q * d <= b < q * d + d;
    assert paid * d == q * d - p * d;
  }

  lemma PartBetween(s: seq<Share>, reward: nat, i: nat)
    requires i < |s|
    ensures Times(s[i].weight, reward) == Times(Weight(s, i + 1), reward) - Times(Weight(s, i), reward)
  {
  }

  lemma PaidIsFair(s: seq<Share>, reward: nat, total: nat, i: nat, paid: nat)
    requires Fits(s, reward) && i < |s| && total == Weight(s, |s|)
    requires paid == Paid(s, reward, total, i)
    ensures WithinOne(paid, Times(s[i].weight, reward), total)
  {
    PaidExact(s, reward, total, i);
    PartBetween(s, reward, i);
    FloorDifference(Times(Weight(s, i), reward), Times(Weight(s, i + 1), reward), total, paid,
      Times(s[i].weight, reward));
  }

  lemma WholeReward(total: nat, reward: nat)
    requires total > 0
    ensures Times(total, reward) / total == reward
  {
    Quotient(Times(total, reward), total, reward);
  }

  /** What was paid before share i. */
  function PaidBefore(s: seq<Share>, reward: nat, total: nat, i: nat): nat
    requires total > 0 && i <= |s|
  {
    Times(Weight(s, i), reward) / total
  }

  lemma NothingPaidAtFirst(s: seq<Share>, reward: nat, total: nat)
    requires total > 0
    ensures PaidBefore(s, reward, total, 0) == 0
  {
    assert Times(0, reward) == 0;
  }

  lemma PaidSumsToReward(s: seq<Share>, reward: nat, total: nat, r: seq<nat>)
    requires Fits(s, reward) && |r| == |s| && total == Weight(s, |s|)
    requires forall i :: 0 <= i < |r| ==> r[i] == Paid(s, reward, total, i)
    ensures SumOf(r) == reward
  {
    var sums := seq(|s| + 1, i requires 0 <= i <= |s| => PaidBefore(s, reward, total, i));
    NothingPaidAtFirst(s, reward, total);
    forall i | 0 <= i < |r| ensures sums[i] + r[i] == sums[i + 1] {
      PaidExact(s, reward, total, i);
    }
    Telescope(r, sums);
    WholeReward(total, reward);
  }

  /** Without wrap-around the whole reward is paid out, and every miner gets the proportional
      share `weight * reward / total` to within less than one atomic unit. */
  lemma SplitIsExactAndFair(s: seq<Share>, reward: nat, total: nat, r: Option<seq<nat>>)
    requires s != [] && Fits(s, reward) && IsSplit(s, reward, r) && total == Weight(s, |s|)
    ensures r.Some? && |r.value| == |s|
    ensures SumOf(r.value) == reward
    ensures forall i :: 0 <= i < |s| ==> WithinOne(r.value[i], Times(s[i].weight, reward), total)
  {
    WeightExact(s, |s|);
    SplitSucceedsIff(s, reward, r);
    PaidSumsToReward(s, reward, total, r.value);
    forall i | 0 <= i < |s| ensures WithinOne(r.value[i], Times(s[i].weight, reward), total) {
      PaidIsFair(s, reward, total, i, r.value[i]);
    }
  }
}
