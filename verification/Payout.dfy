/** From window weights to coinbase rewards: the consensus order of addresses, merging of shares
    (p2pool/sidechain/share.go), the deterministic shuffle and the reward split
    (p2pool/sidechain/utils.go). */
module Payout {
  import opened Blocks
  import opened Permutations

  datatype Share = Share(address: Address, weight: nat)

  // ---------------------------------------------------------------- the consensus order

  const TWO192: nat := TWO64 * TWO128
  const TWO248: nat := 0x1_00000000_00000000_00000000_00000000_00000000_00000000_00000000_000000

  /** `CompareConsensusPublicKeyBytes`: 64-bit words, the most significant first. */
  function CompareKeys(a: nat, b: nat): int {
    var a3, b3 := a / TWO192, b / TWO192;
    var a2, b2 := a / TWO128 % TWO64, b / TWO128 % TWO64;
    var a1, b1 := a / TWO64 % TWO64, b / TWO64 % TWO64;
    var a0, b0 := a % TWO64, b % TWO64;
    if a3 < b3 then -1 else if a3 > b3 then 1
    else if a2 < b2 then -1 else if a2 > b2 then 1
    else if a1 < b1 then -1 else if a1 > b1 then 1
    else if a0 < b0 then -1 else if a0 > b0 then 1
    else 0
  }

  /** `ComparePacked`. */
  function ComparePacked(a: Address, b: Address): int {
    var spend := CompareKeys(a.spend, b.spend);
    if spend != 0 then spend else CompareKeys(a.view, b.view)
  }

  /** The comparison `Shares.Sort` uses: the last byte of the spend key first. */
  function CompareShares(a: Address, b: Address): int {
    var diff := a.spend / TWO248 - b.spend / TWO248;
    if diff != 0 then diff
    else if a == b then 0
    else ComparePacked(a, b)
  }

  /** The order all three stand for. */
  predicate Less(a: Address, b: Address) {
    a.spend < b.spend || (a.spend == b.spend && a.view < b.view)
  }

  /** The order of two numbers by quotient and remainder. */
  lemma ByDigits(a: nat, b: nat)
    ensures a < b <==> a / TWO64 < b / TWO64 || (a / TWO64 == b / TWO64 && a % TWO64 < b % TWO64)
    ensures a == b <==> a / TWO64 == b / TWO64 && a % TWO64 == b % TWO64
  {
  }

  lemma Shifted(a: nat)
    ensures a / TWO128 == a / TWO64 / TWO64
    ensures a / TWO192 == a / TWO64 / TWO64 / TWO64
  {
  }

  lemma CompareKeysIsIntegerOrder(a: nat, b: nat)
    ensures CompareKeys(a, b) == if a < b then -1 else if a > b then 1 else 0
  {
    Shifted(a);
    Shifted(b);
    ByDigits(a, b);
    ByDigits(b, a);
    var c, d := a / TWO64, b / TWO64;
    ByDigits(c, d);
    ByDigits(d, c);
    ByDigits(c / TWO64, d / TWO64);
    ByDigits(d / TWO64, c / TWO64);
  }

  /** Comparing words, and looking at byte 31 alone first, agree with the order of addresses. */
  lemma CompareSharesIsConsensusOrder(a: Address, b: Address)
    ensures CompareShares(a, b) < 0 <==> Less(a, b)
    ensures CompareShares(a, b) == 0 <==> a == b
    ensures ComparePacked(a, b) < 0 <==> Less(a, b)
    ensures ComparePacked(a, b) == 0 <==> a == b
  {
    CompareKeysIsIntegerOrder(a.spend, b.spend);
    CompareKeysIsIntegerOrder(a.view, b.view);
    DivMonotone(a.spend, b.spend);
    DivMonotone(b.spend, a.spend);
  }

  lemma DivMonotone(a: nat, b: nat)
    ensures a / TWO248 < b / TWO248 ==> a < b
  {
  }

  // ---------------------------------------------------------------- merging shares

  ghost predicate SortedShares(s: seq<Share>) {
    forall i, j :: 0 <= i < j < |s| ==> !Less(s[j].address, s[i].address)
  }

  /** Strictly increasing addresses: no miner appears twice. */
  ghost predicate Compacted(s: seq<Share>) {
    forall i, j :: 0 <= i < j < |s| ==> Less(s[i].address, s[j].address)
  }

  /** All weight an address has in a list. */
  function WeightOf(s: seq<Share>, a: Address): nat {
    if s == [] then 0
    else WeightOf(s[..|s| - 1], a) + if s[|s| - 1].address == a then s[|s| - 1].weight else 0
  }

  function InsertShare(x: Share, s: seq<Share>): (r: seq<Share>)
    ensures |r| == |s| + 1
  {
    if s == [] || !Less(s[0].address, x.address) then [x] + s
    else [s[0]] + InsertShare(x, s[1..])
  }

  /** One sort by the consensus order; by `MergedIgnoresOrder` any other gives the same after merging. */
  function SortShares(s: seq<Share>): (r: seq<Share>)
    ensures |r| == |s|
  {
    if s == [] then [] else InsertShare(s[0], SortShares(s[1..]))
  }

  ghost predicate NoneBelow(x: Address, s: seq<Share>) {
    forall i :: 0 <= i < |s| ==> !Less(s[i].address, x)
  }

  lemma NoneBelowPermutation(x: Address, s: seq<Share>, t: seq<Share>)
    requires NoneBelow(x, s) && multiset(s) == multiset(t)
    ensures NoneBelow(x, t)
  {
    forall i | 0 <= i < |t| ensures !Less(t[i].address, x) {
      assert t[i] in multiset(s);
    }
  }

  lemma PrependKeepsOrder(x: Share, s: seq<Share>)
    requires NoneBelow(x.address, s) && SortedShares(s)
    ensures SortedShares([x] + s)
  {
  }

  lemma {:induction false} InsertShareSorts(x: Share, s: seq<Share>)
    requires SortedShares(s)
    ensures SortedShares(InsertShare(x, s)) && multiset(InsertShare(x, s)) == multiset{x} + multiset(s)
  {
    if s != [] && Less(s[0].address, x.address) {
      assert s == [s[0]] + s[1..];
      InsertShareSorts(x, s[1..]);
      NoneBelowPermutation(s[0].address, [x] + s[1..], InsertShare(x, s[1..]));
      PrependKeepsOrder(s[0], InsertShare(x, s[1..]));
    } else {
      PrependKeepsOrder(x, s);
    }
  }

  lemma {:induction false} SortSharesSorts(s: seq<Share>)
    ensures SortedShares(SortShares(s)) && multiset(SortShares(s)) == multiset(s)
  {
    if s != [] {
      assert s == [s[0]] + s[1..];
      SortSharesSorts(s[1..]);
      InsertShareSorts(s[0], SortShares(s[1..]));
    }
  }

  /** The merge loop of `Compact` on a list. */
  function Merged(s: seq<Share>): (r: seq<Share>)
    ensures |r| <= |s| && (s != [] ==> r != [])
  {
    if s == [] then []
    else
      var r, x := Merged(s[..|s| - 1]), s[|s| - 1];
      if r != [] && r[|r| - 1].address == x.address
      then r[..|r| - 1] + [Share(x.address, Add128(r[|r| - 1].weight, x.weight))]
      else r + [x]
  }

  lemma MergedAppend(s: seq<Share>, x: Share)
    ensures var r := Merged(s);
      Merged(s + [x])
        == if r != [] && r[|r| - 1].address == x.address
           then r[..|r| - 1] + [Share(x.address, Add128(r[|r| - 1].weight, x.weight))]
           else r + [x]
  {
    assert (s + [x])[..|s|] == s;
  }

  /** Behind the write index the first `i` sorted shares are merged, from `i` on nothing changed. */
  ghost predicate Merging(cur: seq<Share>, sorted: seq<Share>, i: nat, index: nat) {
    && index < i <= |sorted| == |cur|
    && cur[..index + 1] == Merged(sorted[..i])
    && cur[i..] == sorted[i..]
  }

  lemma MergeAhead(cur: seq<Share>, sorted: seq<Share>, i: nat, index: nat)
    requires Merging(cur, sorted, i, index) && i < |sorted|
    ensures cur[i] == sorted[i] && cur[i + 1..] == sorted[i + 1..]
    ensures sorted[..i + 1] == sorted[..i] + [cur[i]]
  {
    assert cur[i] == cur[i..][0] && sorted[i] == sorted[i..][0];
    assert cur[i + 1..] == cur[i..][1..] && sorted[i + 1..] == sorted[i..][1..];
  }

  lemma MergeSameStep(cur: seq<Share>, sorted: seq<Share>, i: nat, index: nat, last: Share)
    requires Merging(cur, sorted, i, index) && i < |sorted|
    requires cur[index].address == cur[i].address
    requires last == Share(cur[i].address, Add128(cur[index].weight, cur[i].weight))
    ensures Merging(cur[index := last], sorted, i + 1, index)
  {
    MergeAhead(cur, sorted, i, index);
    MergedAppend(sorted[..i], cur[i]);
    assert cur[index := last][..index + 1] == cur[..index + 1][..index] + [last];
    assert cur[index := last][i + 1..] == cur[i + 1..];
  }

  lemma MergeNewStep(cur: seq<Share>, sorted: seq<Share>, i: nat, index: nat)
    requires Merging(cur, sorted, i, index) && i < |sorted|
    requires cur[index].address != cur[i].address
    ensures Merging(cur[index + 1 := cur[i]], sorted, i + 1, index + 1)
  {
    MergeAhead(cur, sorted, i, index);
    MergedAppend(sorted[..i], cur[i]);
    assert cur[index + 1 := cur[i]][..index + 2] == cur[..index + 1] + [cur[i]];
    assert cur[index + 1 := cur[i]][i + 1..] == cur[i + 1..];
  }

  /** How many shares an address has in a list. */
  function CountOf(s: seq<Share>, a: Address): nat {
    if s == [] then 0
    else CountOf(s[..|s| - 1], a) + if s[|s| - 1].address == a then 1 else 0
  }

  lemma {:induction false} WeightOfConcat(s: seq<Share>, t: seq<Share>, a: Address)
    ensures WeightOf(s + t, a) == WeightOf(s, a) + WeightOf(t, a)
    ensures CountOf(s + t, a) == CountOf(s, a) + CountOf(t, a)
    decreases |t|
  {
    if t == [] {
      assert s + t == s;
    } else {
      assert (s + t)[..|s + t| - 1] == s + t[..|t| - 1];
      WeightOfConcat(s, t[..|t| - 1], a);
    }
  }

  lemma {:induction false} WeightOfPermutation(s: seq<Share>, t: seq<Share>, a: Address)
    requires multiset(s) == multiset(t)
    ensures WeightOf(s, a) == WeightOf(t, a) && CountOf(s, a) == CountOf(t, a)
    decreases |s|
  {
    if s == [] {
      assert |multiset(t)| == 0;
    } else {
      var x := s[0];
      var i, rest := Extract(s, t);
      WeightOfPermutation(s[1..], rest, a);
      WeightOfConcat([x], s[1..], a);
      WeightOfConcat(t[..i], [x] + t[i + 1..], a);
      WeightOfConcat([x], t[i + 1..], a);
      WeightOfConcat(t[..i], t[i + 1..], a);
    }
  }

  ghost function Miners(s: seq<Share>): set<Address> {
    set x | x in s :: x.address
  }

  lemma MinersConcat(s: seq<Share>, t: seq<Share>)
    ensures Miners(s + t) == Miners(s) + Miners(t)
  {
    forall a ensures a in Miners(s + t) <==> a in Miners(s) + Miners(t) {
      if a in Miners(s) {
        var x :| x in s && x.address == a;
        assert x in s + t;
      }
      if a in Miners(t) {
        var x :| x in t && x.address == a;
        assert x in s + t;
      }
    }
  }

  /** The weight of an address after merging: a single share keeps its weight, sums are taken modulo 2^128. */
  function MergedWeight(s: seq<Share>, a: Address): nat {
    if CountOf(s, a) <= 1 then WeightOf(s, a) else WeightOf(s, a) % TWO128
  }

  /** Strictly increasing addresses, the same miners as in `s`, and every miner's weights summed. */
  ghost predicate MergeOf(r: seq<Share>, s: seq<Share>) {
    && Compacted(r)
    && Miners(r) == Miners(s)
    && forall i :: 0 <= i < |r| ==> r[i].weight == MergedWeight(s, r[i].address)
  }

  lemma {:induction false} MergedMeaning(s: seq<Share>)
    requires SortedShares(s)
    ensures MergeOf(Merged(s), s)
    ensures s != [] ==> Merged(s)[|Merged(s)| - 1].address == s[|s| - 1].address
  {
    if s != [] {
      var t, x := s[..|s| - 1], s[|s| - 1];
      assert s == t + [x];
      MergedMeaning(t);
      MergedAppend(t, x);
      MergeOne(t, Merged(t), x);
    }
  }

  lemma MergeOne(s: seq<Share>, r: seq<Share>, x: Share)
    requires MergeOf(r, s)
    requires s != [] ==> r != [] && !Less(x.address, r[|r| - 1].address)
    requires s == [] ==> r == []
    ensures if r != [] && r[|r| - 1].address == x.address
      then MergeOf(r[..|r| - 1] + [Share(x.address, Add128(r[|r| - 1].weight, x.weight))], s + [x])
      else MergeOf(r + [x], s + [x])
  {
    if r != [] && r[|r| - 1].address == x.address {
      MergeSame(s, r, x);
    } else {
      MergeNew(s, r, x);
    }
  }

  lemma WeightOfOne(s: seq<Share>, x: Share, a: Address)
    ensures WeightOf(s + [x], a) == WeightOf(s, a) + if x.address == a then x.weight else 0
    ensures CountOf(s + [x], a) == CountOf(s, a) + if x.address == a then 1 else 0
  {
    assert (s + [x])[..|s|] == s;
  }

  lemma MinersOne(s: seq<Share>, x: Share)
    ensures Miners(s + [x]) == Miners(s) + {x.address}
  {
    MinersConcat(s, [x]);
    assert x in [x];
  }

  lemma {:induction false} PresentIsCounted(s: seq<Share>, a: Address)
    requires a in Miners(s)
    ensures CountOf(s, a) >= 1
  {
    var n := |s| - 1;
    if s[n].address != a {
      assert s == s[..n] + [s[n]];
      MinersOne(s[..n], s[n]);
      PresentIsCounted(s[..n], a);
    }
  }

  lemma AddsUp(s: seq<Share>, x: Share)
    ensures Add128(MergedWeight(s, x.address), x.weight) == (WeightOf(s, x.address) + x.weight) % TWO128
  {
    AddTo128(WeightOf(s, x.address), x.weight);
  }

  lemma MergeSame(s: seq<Share>, r: seq<Share>, x: Share)
    requires r != [] && MergeOf(r, s) && r[|r| - 1].address == x.address
    ensures MergeOf(r[..|r| - 1] + [Share(x.address, Add128(r[|r| - 1].weight, x.weight))], s + [x])
  {
    var n := |r| - 1;
    var front, last := r[..n], Share(x.address, Add128(r[n].weight, x.weight));
    var merged := front + [last];
    assert r == front + [r[n]];
    MinersOne(front, r[n]);
    MinersOne(front, last);
    MinersOne(s, x);
    forall i | 0 <= i < |merged| ensures merged[i].weight == MergedWeight(s + [x], merged[i].address) {
      WeightOfOne(s, x, merged[i].address);
      if i < n {
        assert Less(r[i].address, r[n].address);
      } else {
        assert r[n] in r && x.address in Miners(s);
        PresentIsCounted(s, x.address);
        AddsUp(s, x);
      }
    }
    forall i, j | 0 <= i < j < |merged| ensures Less(merged[i].address, merged[j].address) {
      assert merged[i].address == r[i].address && merged[j].address == r[j].address;
    }
  }

  lemma MergeNew(s: seq<Share>, r: seq<Share>, x: Share)
    requires MergeOf(r, s)
    requires r != [] ==> Less(r[|r| - 1].address, x.address)
    ensures MergeOf(r + [x], s + [x])
  {
    var merged := r + [x];
    forall i | 0 <= i < |r| ensures Less(r[i].address, x.address) {
      assert i < |r| - 1 ==> Less(r[i].address, r[|r| - 1].address);
    }
    assert x.address !in Miners(r);
    AbsentWeighsNothing(s, x.address);
    MinersOne(r, x);
    MinersOne(s, x);
    forall i | 0 <= i < |merged| ensures merged[i].weight == MergedWeight(s + [x], merged[i].address) {
      WeightOfOne(s, x, merged[i].address);
    }
  }

  lemma {:induction false} AbsentWeighsNothing(s: seq<Share>, a: Address)
    requires a !in Miners(s)
    ensures WeightOf(s, a) == 0 && CountOf(s, a) == 0
  {
    if s != [] {
      assert s == s[..|s| - 1] + [s[|s| - 1]];
      MinersConcat(s[..|s| - 1], [s[|s| - 1]]);
      assert s[|s| - 1] in [s[|s| - 1]];
      AbsentWeighsNothing(s[..|s| - 1], a);
    }
  }

  lemma MinersPermutation(s: seq<Share>, t: seq<Share>)
    requires multiset(s) == multiset(t)
    ensures Miners(s) == Miners(t)
    ensures forall x :: x in s <==> x in t
  {
    forall x ensures x in s <==> x in t {
      assert x in multiset(s) <==> x in multiset(t);
    }
  }

  /** A strictly increasing list is determined by its set of addresses. */
  lemma {:induction false} SameAddresses(r: seq<Share>, q: seq<Share>)
    requires Compacted(r) && Compacted(q) && Miners(r) == Miners(q)
    ensures |r| == |q| && forall i :: 0 <= i < |r| ==> r[i].address == q[i].address
  {
    if r == [] || q == [] {
      assert (r != [] ==> r[0].address in Miners(r)) && (q != [] ==> q[0].address in Miners(q));
    } else {
      var m, n := |r| - 1, |q| - 1;
      GreatestIsLast(r, q);
      GreatestIsLast(q, r);
      MinersFront(r);
      MinersFront(q);
      SameAddresses(r[..m], q[..n]);
    }
  }

  /** The last address of one list does not exceed that of the other. */
  lemma GreatestIsLast(r: seq<Share>, q: seq<Share>)
    requires r != [] && q != [] && Compacted(q) && Miners(r) == Miners(q)
    ensures !Less(q[|q| - 1].address, r[|r| - 1].address)
  {
    assert r[|r| - 1] in r && r[|r| - 1].address in Miners(q);
    var i :| 0 <= i < |q| && q[i].address == r[|r| - 1].address;
  }

  lemma MinersFront(r: seq<Share>)
    requires r != [] && Compacted(r)
    ensures Compacted(r[..|r| - 1]) && Miners(r[..|r| - 1]) == Miners(r) - {r[|r| - 1].address}
  {
    var front, last := r[..|r| - 1], r[|r| - 1];
    assert r == front + [last];
    MinersOne(front, last);
    assert last.address !in Miners(front);
  }

  lemma UniqueMerge(r: seq<Share>, q: seq<Share>, s: seq<Share>, t: seq<Share>)
    requires MergeOf(r, s) && MergeOf(q, t) && multiset(s) == multiset(t)
    ensures r == q
  {
    MinersPermutation(s, t);
    SameAddresses(r, q);
    forall i | 0 <= i < |r| ensures r[i] == q[i] {
      MergedWeightPermutation(s, t, r[i].address);
    }
  }

  lemma MergedWeightPermutation(s: seq<Share>, t: seq<Share>, a: Address)
    requires multiset(s) == multiset(t)
    ensures MergedWeight(s, a) == MergedWeight(t, a)
  {
    WeightOfPermutation(s, t, a);
  }

  /** Merging gives the same for every sorted arrangement of the same shares. */
  lemma MergedIgnoresOrder(s: seq<Share>, t: seq<Share>)
    requires SortedShares(s) && SortedShares(t) && multiset(s) == multiset(t)
    ensures Merged(s) == Merged(t)
  {
    MergedMeaning(s);
    MergedMeaning(t);
    UniqueMerge(Merged(s), Merged(t), s, t);
  }

  // ---------------------------------------------------------------- sorting in place

  /** No share compares greater than a later one. */
  ghost predicate InOrder(s: seq<Share>) {
    forall i, j :: 0 <= i < j < |s| ==> CompareShares(s[i].address, s[j].address) <= 0
  }

  lemma InOrderIsSorted(s: seq<Share>)
    ensures InOrder(s) <==> SortedShares(s)
  {
    forall i, j | 0 <= i < j < |s|
      ensures CompareShares(s[i].address, s[j].address) <= 0 <==> !Less(s[j].address, s[i].address)
    {
      CompareSharesIsConsensusOrder(s[i].address, s[j].address);
    }
  }

  /** Up to `i` the shares are in order but for the one at `j`, which may belong further down. */
  ghost predicate Sinking(s: seq<Share>, i: nat, j: nat) {
    j <= i < |s| && forall p, q :: 0 <= p < q <= i && q != j ==> !Less(s[q].address, s[p].address)
  }

  lemma SinkStep(s: seq<Share>, i: nat, j: nat)
    requires Sinking(s, i, j) && j > 0 && Less(s[j].address, s[j - 1].address)
    ensures Sinking(s[j := s[j - 1]][j - 1 := s[j]], i, j - 1)
    ensures multiset(s[j := s[j - 1]][j - 1 := s[j]]) == multiset(s)
  {
  }

  lemma SinkEnds(s: seq<Share>, i: nat, j: nat)
    requires Sinking(s, i, j) && (j > 0 ==> !Less(s[j].address, s[j - 1].address))
    ensures SortedShares(s[..i + 1])
  {
    forall p | 0 <= p < j ensures !Less(s[j].address, s[p].address) {
      assert p < j - 1 ==> !Less(s[j - 1].address, s[p].address);
    }
  }

  /** Moves the share at `i` down to where it belongs. */
  method Sink(s: array<Share>, i: nat)
    requires i < s.Length && SortedShares(s[..i])
    modifies s
    ensures SortedShares(s[..i + 1]) && multiset(s[..]) == old(multiset(s[..]))
  {
    var j := i;
    assert forall p :: 0 <= p < i ==> s[..][p] == s[..i][p];
    while j > 0 && CompareShares(s[j].address, s[j - 1].address) < 0
      invariant 0 <= j && Sinking(s[..], i, j) && multiset(s[..]) == old(multiset(s[..]))
    {
      ghost var before := s[..];
      CompareSharesIsConsensusOrder(s[j].address, s[j - 1].address);
      SinkStep(before, i, j);
      s[j], s[j - 1] := s[j - 1], s[j];
      assert s[..] == before[j := before[j - 1]][j - 1 := before[j]];
      j := j - 1;
    }
    if j > 0 {
      CompareSharesIsConsensusOrder(s[j].address, s[j - 1].address);
    }
    SinkEnds(s[..], i, j);
    assert s[..][..i + 1] == s[..i + 1];
  }

  /** `Shares.Sort`: the same shares in order. Which order equal addresses get is not promised. */
  method Sort(s: array<Share>)
    modifies s
    ensures multiset(s[..]) == old(multiset(s[..])) && InOrder(s[..])
  {
    for i := 0 to s.Length
      invariant SortedShares(s[..i]) && multiset(s[..]) == old(multiset(s[..]))
    {
      Sink(s, i);
    }
    assert s[..s.Length] == s[..];
    InOrderIsSorted(s[..]);
  }

  lemma AnySortMerges(given: seq<Share>, sorted: seq<Share>)
    requires multiset(sorted) == multiset(given) && InOrder(sorted)
    ensures Merged(sorted) == Merged(SortShares(given))
  {
    InOrderIsSorted(sorted);
    SortSharesSorts(given);
    MergedIgnoresOrder(sorted, SortShares(given));
  }

  /** `Compact`: sort in place, then merge in place. */
  method Compact(s: array<Share>) returns (n: nat)
    modifies s
    ensures n <= s.Length && (s.Length > 0 ==> n > 0)
    ensures s[..n] == Merged(SortShares(old(s[..])))
  {
    if s.Length == 0 {
      return 0;
    }
    ghost var given := s[..];
    Sort(s);
    AnySortMerges(given, s[..]);
    n := MergeSorted(s);
  }

  /** Merges neighbours behind a write index. */
  method MergeSorted(s: array<Share>) returns (n: nat)
    requires s.Length > 0
    modifies s
    ensures 0 < n <= s.Length && s[..n] == Merged(old(s[..]))
  {
    ghost var sorted := s[..];
    MergedAppend([], sorted[0]);
    assert sorted[..1] == [] + [sorted[0]];
    var index := 0;
    for i := 1 to s.Length
      invariant Merging(s[..], sorted, i, index)
    {
      index := MergeAt(s, i, index, sorted);
    }
    n := index + 1;
    assert sorted[..s.Length] == sorted && s[..][..n] == s[..n];
  }

  /** Adds the share at `i` to the one at the write index, or moves it behind. */
  method MergeAt(s: array<Share>, i: nat, index: nat, ghost sorted: seq<Share>) returns (index': nat)
    requires i < s.Length && Merging(s[..], sorted, i, index)
    modifies s
    ensures Merging(s[..], sorted, i + 1, index')
  {
    ghost var cur := s[..];
    var share := s[i];
    if s[index].address == share.address {
      s[index] := Share(share.address, Add128(s[index].weight, share.weight));
      MergeSameStep(cur, sorted, i, index, s[index]);
      assert s[..] == cur[index := s[index]];
      index' := index;
    } else {
      MergeNewStep(cur, sorted, i, index);
      index' := index + 1;
      s[index'] := share;
      assert s[..] == cur[index' := share];
    }
  }

  /** What `Compact` returns for any list of shares, whatever its order. */
  lemma CompactMergesMiners(s: seq<Share>)
    ensures MergeOf(Merged(SortShares(s)), s)
  {
    var t := SortShares(s);
    SortSharesSorts(s);
    MinersPermutation(s, t);
    MergedMeaning(t);
    var r := Merged(t);
    forall i | 0 <= i < |r| ensures r[i].weight == MergedWeight(s, r[i].address) {
      WeightOfPermutation(s, t, r[i].address);
    }
  }

  /** With weights of 128 bits all sums are modulo 2^128. */
  lemma {:induction false} MergedWeightFits(s: seq<Share>, a: Address)
    requires forall x :: x in s ==> x.weight < TWO128
    ensures MergedWeight(s, a) == WeightOf(s, a) % TWO128
    ensures CountOf(s, a) == 0 ==> WeightOf(s, a) == 0
  {
    if s != [] {
      MergedWeightFits(s[..|s| - 1], a);
    }
  }
}
