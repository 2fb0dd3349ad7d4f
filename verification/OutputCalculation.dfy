/** Computing the outputs of a block from its share window (p2pool/sidechain/utils.go,
    CalculateOutputs), as done for pruned blocks. */
module OutputCalculation {
  import opened Blocks
  import opened Window
  import opened Payout
  import opened Rewards
  import opened Verification

  function CalculatedAt(env: Env, b: PoolBlock, share: Share, reward: nat, tagged: bool, i: nat): Output {
    var (key, viewTag) := env.derive(share.address, b.privateKey, i);
    Output(reward, key, tagged, viewTag)
  }

  /** All outputs of the block have the expected type. */
  predicate OfType(outputs: seq<Output>, tagged: bool) {
    forall i :: 0 <= i < |outputs| ==> outputs[i].tagged == tagged
  }

  ghost predicate Calculates(env: Env, b: PoolBlock, shares: seq<Share>, rewards: seq<nat>, tagged: bool,
                             outputs: seq<Output>) {
    |outputs| == |shares| == |rewards|
    && forall k :: 0 <= k < |outputs| ==> outputs[k] == CalculatedAt(env, b, shares[k], rewards[k], tagged, k)
  }

  /** What the check of single outputs comes down to. */
  lemma SameAsChecked(env: Env, b: PoolBlock, shares: seq<Share>, rewards: seq<nat>, tagged: bool, outputs: seq<Output>)
    requires Calculates(env, b, shares, rewards, tagged, outputs) && OfType(b.outputs, tagged)
    ensures SameWritten(outputs, b.outputs) <==>
      |shares| == |b.outputs| && forall i :: 0 <= i < |shares| ==> OutputOk(env, b, shares[i], rewards[i], i)
  {
    if |outputs| == |b.outputs| {
      forall i | 0 <= i < |outputs|
        ensures SameOutput(outputs[i], b.outputs[i]) <==> OutputOk(env, b, shares[i], rewards[i], i)
      {
      }
    }
  }

  /** The loop that fills the outputs. The workers fill disjoint entries, so a plain loop does the
      same. */
  method FillOutputs(env: Env, b: PoolBlock, shares: seq<Share>, rewards: seq<nat>, tagged: bool)
    returns (outputs: seq<Output>)
    requires |shares| == |rewards|
    ensures Calculates(env, b, shares, rewards, tagged, outputs)
  {
    outputs := [];
    for i := 0 to |shares|
      invariant |outputs| == i
      invariant forall k :: 0 <= k < i ==> outputs[k] == CalculatedAt(env, b, shares[k], rewards[k], tagged, k)
    {
      outputs := outputs + [CalculatedAt(env, b, shares[i], rewards[i], tagged, i)];
    }
  }

  /** The outputs the window prescribes, whatever outputs the block has or lacks. */
  function Prescribed(env: Env, b: PoolBlock, w: Option<Walked>, tagged: bool): Option<seq<Output>> {
    if w.None? then None
    else
      var shares := SharesOf(env, b, w.value);
      var total := Weight128(shares, |shares|);
      if total == 0 || GivenTo(shares, b.totalReward, total, |shares|) != b.totalReward then None
      else Some(seq(|shares|, i requires 0 <= i < |shares| =>
        CalculatedAt(env, b, shares[i], Paid(shares, b.totalReward, total, i), tagged, i)))
  }

  /** `CalculateOutputs` for a block of the given output type. */
  method CalculateOutputs(env: Env, st: Store, b: PoolBlock, tagged: bool) returns (r: Option<seq<Output>>)
    ensures r == Prescribed(env, b, PplnsWindow(st, env.c, b, env.difficultyByHeight), tagged)
  {
    var window := BlocksInPPLNSWindow(st, env.c, b, env.difficultyByHeight);
    if window.None? {
      return None;
    }
    var shares := GetShares(env, b, window.value);
    var split := SplitReward(b.totalReward, shares);
    if split.None? {
      return None;
    }
    var outputs := FillOutputs(env, b, shares, split.value, tagged);
    r := Some(outputs);
    assert outputs == Prescribed(env, b, window, tagged).value;
  }

  /** A block with outputs of the given type passes the check exactly if its outputs are the prescribed
      ones and add up to its reward. */
  lemma PassesIffPrescribed(env: Env, b: PoolBlock, w: Option<Walked>, tagged: bool)
    requires OfType(b.outputs, tagged)
    ensures var r := Prescribed(env, b, w, tagged);
      PayoutOk(env, b, w) <==> r.Some? && OutputsTotal(b.outputs) == b.totalReward && SameWritten(r.value, b.outputs)
  {
    var r := Prescribed(env, b, w, tagged);
    if r.Some? {
      var shares := SharesOf(env, b, w.value);
      var total := Weight128(shares, |shares|);
      var rewards := seq(|shares|, i requires 0 <= i < |shares| => Paid(shares, b.totalReward, total, i));
      SameAsChecked(env, b, shares, rewards, tagged, r.value);
    }
  }

  /** Equal in everything that is written: a view tag only counts where there is one. */
  predicate SameOutput(a: Output, b: Output) {
    a.reward == b.reward && a.key == b.key && a.tagged == b.tagged && (a.tagged ==> a.viewTag == b.viewTag)
  }

  predicate SameWritten(a: seq<Output>, b: seq<Output>) {
    |a| == |b| && forall i :: 0 <= i < |a| ==> SameOutput(a[i], b[i])
  }
}
