/** What a block that passes the payout check pays, miner by miner (p2pool/sidechain/sidechain.go,
    p2pool/sidechain/utils.go, p2pool/sidechain/share.go). */
module MinerPay {
  import opened Blocks
  import opened Window
  import opened Payout
  import opened Rewards
  import opened Verification

  /** The shares of the window, one per block or uncle, by miner. */
  ghost predicate ByMiner(w: Walked, list: seq<Share>) {
    |list| == |w.shares| && forall i :: 0 <= i < |list| ==>
      list[i] == Share(w.shares[i].block.miner, w.shares[i].weight)
  }

  /** One entry per miner, by address before version 2, and from then on in the order drawn from the key seed. */
  ghost predicate InPayOrder(env: Env, b: PoolBlock, merged: seq<Share>, shares: seq<Share>) {
    var hash := env.seedHash(b.keySeed);
    if b.version <= 1 then shares == merged else Drawn(merged, 0, if hash == 0 then 1 else hash, shares)
  }

  /** Output i goes to the one-time key of its miner at that position. */
  ghost predicate GoesTo(env: Env, b: PoolBlock, miner: Address, i: nat)
    requires i < |b.outputs|
  {
    && b.outputs[i].key == env.derive(miner, b.privateKey, i).0
    && (b.outputs[i].tagged ==> b.outputs[i].viewTag == env.derive(miner, b.privateKey, i).1)
  }

  function RewardsOf(outputs: seq<Output>): (r: seq<nat>)
    ensures |r| == |outputs|
  {
    seq(|outputs|, i requires 0 <= i < |outputs| => outputs[i].reward)
  }

  /** The total that is checked is the sum of the rewards modulo 2^64. */
  lemma {:induction false} TotalMeaning(outputs: seq<Output>)
    ensures OutputsTotal(outputs) == SumOf(RewardsOf(outputs)) % TWO64
  {
    if outputs != [] {
      var n := |outputs| - 1;
      TotalMeaning(outputs[..n]);
      assert RewardsOf(outputs)[..n] == RewardsOf(outputs[..n]);
      AddTo64(SumOf(RewardsOf(outputs[..n])), outputs[n].reward);
    }
  }

  lemma PaysTheSplit(env: Env, b: PoolBlock, w: Walked, shares: seq<Share>)
    requires PayoutOk(env, b, Some(w)) && shares == SharesOf(env, b, w)
    ensures |shares| == |b.outputs| && IsSplit(shares, b.totalReward, Some(RewardsOf(b.outputs)))
    ensures forall i :: 0 <= i < |shares| ==> GoesTo(env, b, shares[i].address, i)
  {
    forall i | 0 <= i < |shares|
      ensures GoesTo(env, b, shares[i].address, i)
      ensures RewardsOf(b.outputs)[i] == Paid(shares, b.totalReward, Weight128(shares, |shares|), i)
    {
      assert OutputOk(env, b, shares[i], Paid(shares, b.totalReward, Weight128(shares, |shares|), i), i);
    }
  }

  lemma SharesMeaning(env: Env, b: PoolBlock, w: Walked, list: seq<Share>, merged: seq<Share>, shares: seq<Share>)
    requires ByMiner(w, list) && merged == Merged(SortShares(list)) && shares == SharesOf(env, b, w)
    ensures MergeOf(merged, list) && InPayOrder(env, b, merged, shares) && multiset(shares) == multiset(merged)
  {
    assert list == ShareList(w.shares);
    CompactMergesMiners(list);
    ShuffleMeaning(merged, b.version, env.seedHash(b.keySeed));
    if b.version > 1 && |merged| > 1 {
      ShuffleIsPermutation(merged, 0, FirstSeed(env.seedHash(b.keySeed)));
    }
  }

  /** A block that passes the payout check pays every miner of its window once, at the one-time key of that
      miner. Unless the arithmetic wraps, the rewards add up to the reward of the block, and each is the
      proportional part of the miner's weight to within one atomic unit. */
  lemma PayoutMeaning(env: Env, b: PoolBlock, w: Walked, list: seq<Share>)
    returns (merged: seq<Share>, shares: seq<Share>)
    requires PayoutOk(env, b, Some(w)) && ByMiner(w, list)
    ensures MergeOf(merged, list) && InPayOrder(env, b, merged, shares) && multiset(shares) == multiset(merged)
    ensures |shares| == |b.outputs| && forall i :: 0 <= i < |shares| ==> GoesTo(env, b, shares[i].address, i)
    ensures Fits(shares, b.totalReward) ==>
      && SumOf(RewardsOf(b.outputs)) == b.totalReward
      && forall i :: 0 <= i < |shares| ==>
           WithinOne(b.outputs[i].reward, Times(shares[i].weight, b.totalReward), Weight(shares, |shares|))
  {
    merged, shares := Merged(SortShares(list)), SharesOf(env, b, w);
    SharesMeaning(env, b, w, list, merged, shares);
    PaysTheSplit(env, b, w, shares);
    if Fits(shares, b.totalReward) {
      var rewards := RewardsOf(b.outputs);
      SplitIsExactAndFair(shares, b.totalReward, Weight(shares, |shares|), Some(rewards));
      assert forall i :: 0 <= i < |shares| ==> rewards[i] == b.outputs[i].reward;
    }
  }

  /** And the check fails for no other reason: a block with the right outputs passes. */
  lemma RightPayoutPasses(env: Env, b: PoolBlock, w: Walked)
    requires var shares := SharesOf(env, b, w);
      && |shares| == |b.outputs|
      && IsSplit(shares, b.totalReward, Some(RewardsOf(b.outputs)))
      && OutputsTotal(b.outputs) == b.totalReward
      && forall i :: 0 <= i < |shares| ==> GoesTo(env, b, shares[i].address, i)
    ensures PayoutOk(env, b, Some(w))
  {
    var shares := SharesOf(env, b, w);
    forall i | 0 <= i < |shares|
      ensures OutputOk(env, b, shares[i], Paid(shares, b.totalReward, Weight128(shares, |shares|), i), i)
    {
      assert GoesTo(env, b, shares[i].address, i);
      assert RewardsOf(b.outputs)[i] == Paid(shares, b.totalReward, Weight128(shares, |shares|), i);
    }
  }
}
