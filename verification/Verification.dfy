/** The rules a block is judged by (p2pool/sidechain/sidechain.go, verifyBlock). */
module Verification {
  import opened Blocks
  import opened Window
  import opened Payout
  import opened Rewards
  import opened ForkChoice
  import R = Retarget

  /** What the chain cannot compute itself: Monero difficulties, the hash that seeds the shuffle,
      and the derivation of one-time keys and view tags. */
  datatype Env = Env(
    c: Consensus,
    difficultyByHeight: nat -> nat,
    seedHash: Hash -> bv64,
    derive: (Address, nat, nat) -> (nat, nat))

  /** The part of the chain's memory that a verdict depends on. */
  datatype View = View(
    store: Store,
    verified: set<PoolBlock>,
    invalid: set<PoolBlock>,
    depth: map<PoolBlock, nat>,
    tip: Option<PoolBlock>,
    currentDifficulty: nat)

  function DepthOf(depth: map<PoolBlock, nat>, b: PoolBlock): nat {
    if b in depth then depth[b] else 0
  }

  /** `verifyBlock` returns no error, a verification error (something is still missing), or the
      reason why the block is invalid. */
  datatype Verdict = Accepted | Waiting | Rejected

  predicate GenesisOk(c: Consensus, b: PoolBlock) {
    && b.parent == ZERO_HASH
    && b.uncles == []
    && b.difficulty == c.minimumDifficulty
    && b.cumulative == c.minimumDifficulty
    && (b.version > 1 ==> b.keySeed == c.id)
  }

  /** The transaction key seed changes when the Monero block below changes. */
  predicate SeedOk(parent: PoolBlock, b: PoolBlock) {
    b.version > 1 ==> b.keySeed == if parent.previousId != b.previousId then parent.derivedSeed else parent.keySeed
  }

  predicate Ascending(ids: seq<Hash>) {
    forall i :: 0 < i < |ids| ==> ids[i - 1] < ids[i]
  }

  // ---------------------------------------------------------------- uncles

  /** The ids of at most n ancestors, `cur` first, and of the uncles they include. */
  function Mined(st: Store, cur: Option<PoolBlock>, n: nat): seq<Hash>
    decreases n
  {
    if n == 0 || cur.None? then []
    else [cur.value.id] + cur.value.uncles + Mined(st, GetParent(st, cur.value), n - 1)
  }

  function MinedBefore(st: Store, b: PoolBlock, parent: PoolBlock): seq<Hash> {
    Mined(st, Some(parent), if b.height + 1 < UNCLE_BLOCK_DEPTH then b.height + 1 else UNCLE_BLOCK_DEPTH)
  }

  /** Within n steps the two chains name the same parent, without dropping more than three
      heights below h. */
  predicate Siblings(st: Store, x: Option<PoolBlock>, y: Option<PoolBlock>, h: nat, n: nat)
    decreases n
  {
    && n > 0
    && x.Some?
    && y.Some?
    && x.value.height + UNCLE_BLOCK_DEPTH >= h
    && (x.value.parent == y.value.parent || Siblings(st, GetParent(st, x.value), GetParent(st, y.value), h, n - 1))
  }

  /** The uncle and the parent are on the same chain. */
  predicate SameChain(st: Store, b: PoolBlock, parent: PoolBlock, uncle: PoolBlock) {
    var x := Descend(st, Some(parent), uncle.height);
    x.Some? && x.value.height >= uncle.height && Siblings(st, x, Some(uncle), b.height, UNCLE_BLOCK_DEPTH)
  }

  predicate UncleHeightOk(b: PoolBlock, uncle: PoolBlock) {
    uncle.height < b.height <= uncle.height + UNCLE_BLOCK_DEPTH
  }

  function UncleVerdict(v: View, b: PoolBlock, parent: PoolBlock, id: Hash): Verdict {
    if id == ZERO_HASH || id in MinedBefore(v.store, b, parent) then Rejected
    else
      match Lookup(v.store, id)
      case None => Waiting
      case Some(u) =>
        if u !in v.verified then Waiting
        else if u in v.invalid || !UncleHeightOk(b, u) || !SameChain(v.store, b, parent, u) then Rejected
        else Accepted
  }

  /** The first verdict that is not favourable, trying uncles in order. */
  function UnclesVerdict(v: View, b: PoolBlock, parent: PoolBlock, ids: seq<Hash>): Verdict {
    if ids == [] then Accepted
    else
      var front := UnclesVerdict(v, b, parent, ids[..|ids| - 1]);
      if front != Accepted then front else UncleVerdict(v, b, parent, ids[|ids| - 1])
  }

  // ---------------------------------------------------------------- payout

  function ShareList(w: seq<Weighted>): (r: seq<Share>)
    ensures |r| == |w|
  {
    seq(|w|, i requires 0 <= i < |w| => Share(w[i].block.miner, w[i].weight))
  }

  /** `GetShares` for a finished window walk. */
  function SharesOf(env: Env, b: PoolBlock, w: Walked): seq<Share> {
    ShuffledShares(Merged(SortShares(ShareList(w.shares))), b.version, env.seedHash(b.keySeed))
  }

  function OutputsTotal(outputs: seq<Output>): nat {
    if outputs == [] then 0 else (OutputsTotal(outputs[..|outputs| - 1]) + outputs[|outputs| - 1].reward) % TWO64
  }

  /** One output pays the right amount to the right one-time key. */
  predicate OutputOk(env: Env, b: PoolBlock, share: Share, reward: nat, i: nat)
    requires i < |b.outputs|
  {
    var (key, viewTag) := env.derive(share.address, b.privateKey, i);
    && b.outputs[i].reward == reward
    && b.outputs[i].key == key
    && (b.outputs[i].tagged ==> b.outputs[i].viewTag == viewTag)
  }

  /** The coinbase outputs are the ones the window of the block prescribes. */
  ghost predicate PayoutOk(env: Env, b: PoolBlock, w: Option<Walked>) {
    && w.Some?
    && OutputsTotal(b.outputs) == b.totalReward
    && var shares := SharesOf(env, b, w.value);
       && |shares| == |b.outputs|
       && var total := Weight128(shares, |shares|);
          && total != 0
          && GivenTo(shares, b.totalReward, total, |shares|) == b.totalReward
          && forall i :: 0 <= i < |shares| ==> OutputOk(env, b, shares[i], Paid(shares, b.totalReward, total, i), i)
  }

  // ---------------------------------------------------------------- the whole verdict

  /** The difficulty the block must have: the cached one on top of the tip, else recomputed. */
  function RequiredDifficulty(env: Env, v: View, parent: PoolBlock): R.Result {
    if v.tip == Some(parent) then R.Difficulty(v.currentDifficulty)
    else
      var r := R.DifficultyAfter(v.store, env.c, parent);
      if r == R.Difficulty(0) then R.Overflow else r
  }

  ghost function WindowVerdict(env: Env, v: View, b: PoolBlock, parent: PoolBlock): Verdict {
    match RequiredDifficulty(env, v, parent)
    case Missing => Waiting
    case Overflow => Rejected
    case Difficulty(d) =>
      if d == b.difficulty && PayoutOk(env, b, PplnsWindow(v.store, env.c, b, env.difficultyByHeight))
      then Accepted else Rejected
  }

  /** Difficulty accumulated below, own difficulty and that of the uncles, modulo 2^128. */
  function CumulativeAfter(parent: PoolBlock, b: PoolBlock, uncles: seq<PoolBlock>): nat {
    AddDifficulties(Add128(parent.cumulative, b.difficulty), uncles)
  }

  /** The block is too deep to influence the window. */
  predicate Skipped(c: Consensus, depth: nat) {
    depth > (c.chainWindowSize - 1) * 2 + UNCLE_BLOCK_DEPTH
  }

  ghost function ChildVerdict(env: Env, v: View, b: PoolBlock, parent: PoolBlock): Verdict {
    if parent !in v.verified then Waiting
    else if parent in v.invalid || !SeedOk(parent, b) || parent.height + 1 != b.height || !Ascending(b.uncles)
      then Rejected
    else
      var u := UnclesVerdict(v, b, parent, b.uncles);
      if u != Accepted then u
      else if b.cumulative != CumulativeAfter(parent, b, FoundUncles(v.store, b.uncles)) then Rejected
      else if DepthOf(v.depth, b) >= env.c.chainWindowSize then Accepted
      else WindowVerdict(env, v, b, parent)
  }

  /** What `verifyBlock` decides. */
  ghost function VerdictOf(env: Env, v: View, b: PoolBlock): Verdict {
    if b.height == 0 then if GenesisOk(env.c, b) then Accepted else Rejected
    else if Skipped(env.c, DepthOf(v.depth, b)) then Accepted
    else if b.parent == ZERO_HASH then Rejected
    else
      match GetParent(v.store, b)
      case None => Waiting
      case Some(parent) => ChildVerdict(env, v, b, parent)
  }

  // ---------------------------------------------------------------- the method

  lemma MinedStep(st: Store, mined: seq<Hash>, tmp: PoolBlock, n: nat)
    requires n > 0
    ensures mined + Mined(st, Some(tmp), n)
         == mined + [tmp.id] + tmp.uncles + Mined(st, GetParent(st, tmp), n - 1)
  {
  }

  /** The loop that collects blocks already mined. */
  method MinedBlocks(st: Store, parent: PoolBlock, n: nat) returns (mined: seq<Hash>)
    ensures mined == Mined(st, Some(parent), n)
  {
    mined := [];
    var tmp, i := Some(parent), 0;
    while tmp.Some? && i < n
      invariant i <= n && Mined(st, Some(parent), n) == mined + Mined(st, tmp, n - i)
      decreases n - i
    {
      MinedStep(st, mined, tmp.value, n - i);
      mined := mined + [tmp.value.id];
      mined := mined + tmp.value.uncles;
      tmp := GetParent(st, tmp.value);
      i := i + 1;
    }
  }

  /** The two ancestor loops for one uncle. */
  method OnSameChain(st: Store, b: PoolBlock, parent: PoolBlock, uncle: PoolBlock, ghost known: set<PoolBlock>)
    returns (same: bool)
    requires Acyclic(st, known) && parent in known
    ensures same == SameChain(st, b, parent, uncle)
  {
    var tmp := parent;
    while tmp.height > uncle.height
      invariant tmp in known
      invariant Descend(st, Some(tmp), uncle.height) == Descend(st, Some(parent), uncle.height)
      decreases tmp.rank
    {
      var next := GetParent(st, tmp);
      if next.None? {
        return false;
      }
      tmp := next.value;
    }
    if tmp.height < uncle.height {
      return false;
    }
    var x, y, j := Some(tmp), Some(uncle), 0;
    while j < UNCLE_BLOCK_DEPTH && x.Some? && y.Some? && x.value.height + UNCLE_BLOCK_DEPTH >= b.height
      invariant j <= UNCLE_BLOCK_DEPTH
      invariant Siblings(st, x, y, b.height, UNCLE_BLOCK_DEPTH - j) == SameChain(st, b, parent, uncle)
      decreases UNCLE_BLOCK_DEPTH - j
    {
      if x.value.parent == y.value.parent {
        return true;
      }
      x, y := GetParent(st, x.value), GetParent(st, y.value);
      j := j + 1;
    }
    return false;
  }

  lemma {:induction false} FoundUnclesAppend(st: Store, ids: seq<Hash>, id: Hash)
    requires |FoundUncles(st, ids)| == |ids| && id in st.byId
    ensures FoundUncles(st, ids + [id]) == FoundUncles(st, ids) + [st.byId[id]]
  {
    if ids == [] {
      assert (ids + [id])[1..] == [];
    } else {
      assert (ids + [id])[1..] == ids[1..] + [id];
      FoundUnclesAppend(st, ids[1..], id);
    }
  }

  /** The uncle loop: the verdict on the uncles, and the cumulative difficulty they lead to. */
  method CheckUncles(v: View, b: PoolBlock, parent: PoolBlock, ghost known: set<PoolBlock>)
    returns (verdict: Verdict, cumulative: nat)
    requires Acyclic(v.store, known) && parent in known
    ensures verdict == UnclesVerdict(v, b, parent, b.uncles)
    ensures verdict == Accepted ==> cumulative == CumulativeAfter(parent, b, FoundUncles(v.store, b.uncles))
  {
    cumulative := Add128(parent.cumulative, b.difficulty);
    var n := if b.height + 1 < UNCLE_BLOCK_DEPTH then b.height + 1 else UNCLE_BLOCK_DEPTH;
    var mined := MinedBlocks(v.store, parent, n);
    for i := 0 to |b.uncles|
      invariant UnclesVerdict(v, b, parent, b.uncles[..i]) == Accepted
      invariant |FoundUncles(v.store, b.uncles[..i])| == i
      invariant cumulative == CumulativeAfter(parent, b, FoundUncles(v.store, b.uncles[..i]))
    {
      var id := b.uncles[i];
      assert b.uncles[..i + 1][..i] == b.uncles[..i] && b.uncles[..i + 1] == b.uncles[..i] + [id];
      verdict := UncleVerdictBy(v, b, parent, id, mined, known);
      if verdict != Accepted {
        UnclesVerdictStops(v, b, parent, b.uncles, i + 1);
        return verdict, cumulative;
      }
      FoundUnclesAppend(v.store, b.uncles[..i], id);
      ghost var found := FoundUncles(v.store, b.uncles[..i]);
      assert (found + [v.store.byId[id]])[..i] == found;
      cumulative := Add128(cumulative, v.store.byId[id].difficulty);
    }
    assert b.uncles[..|b.uncles|] == b.uncles;
    return Accepted, cumulative;
  }

  lemma {:induction false} UnclesVerdictStops(v: View, b: PoolBlock, parent: PoolBlock, ids: seq<Hash>, i: nat)
    requires i <= |ids| && UnclesVerdict(v, b, parent, ids[..i]) != Accepted
    ensures UnclesVerdict(v, b, parent, ids) == UnclesVerdict(v, b, parent, ids[..i])
    decreases |ids|
  {
    if i == |ids| {
      assert ids[..i] == ids;
    } else {
      assert ids[..|ids| - 1][..i] == ids[..i];
      UnclesVerdictStops(v, b, parent, ids[..|ids| - 1], i);
    }
  }

  /** The checks on one uncle. */
  method UncleVerdictBy(v: View, b: PoolBlock, parent: PoolBlock, id: Hash, mined: seq<Hash>,
                        ghost known: set<PoolBlock>)
    returns (verdict: Verdict)
    requires Acyclic(v.store, known) && parent in known && mined == MinedBefore(v.store, b, parent)
    ensures verdict == UncleVerdict(v, b, parent, id)
  {
    // neither the empty hash nor a block that was counted already
    if id == ZERO_HASH || id in mined {
      return Rejected;
    }
    if id !in v.store.byId {
      return Waiting;
    }
    var uncle := v.store.byId[id];
    if uncle !in v.verified {
      return Waiting;
    }
    if uncle in v.invalid {
      return Rejected;
    }
    if uncle.height >= b.height || uncle.height + UNCLE_BLOCK_DEPTH < b.height {
      return Rejected;
    }
    var same := OnSameChain(v.store, b, parent, uncle, known);
    return if same then Accepted else Rejected;
  }

  /** The loop over the output rewards. */
  method TotalOf(outputs: seq<Output>) returns (total: nat)
    ensures total == OutputsTotal(outputs)
  {
    total := 0;
    for i := 0 to |outputs|
      invariant total == OutputsTotal(outputs[..i])
    {
      assert outputs[..i + 1][..i] == outputs[..i];
      total := (total + outputs[i].reward) % TWO64;
    }
    assert outputs[..|outputs|] == outputs;
  }

  /** The work that is split over several workers. */
  method CheckOutputs(env: Env, b: PoolBlock, shares: seq<Share>, rewards: seq<nat>) returns (ok: bool)
    requires |shares| == |b.outputs| == |rewards|
    ensures ok <==> forall i :: 0 <= i < |shares| ==> OutputOk(env, b, shares[i], rewards[i], i)
  {
    for i := 0 to |shares|
      invariant forall k :: 0 <= k < i ==> OutputOk(env, b, shares[k], rewards[k], k)
    {
      if !OutputOk(env, b, shares[i], rewards[i], i) {
        return false;
      }
    }
    return true;
  }

  /** The checks on the coinbase outputs. */
  method CheckPayout(env: Env, v: View, b: PoolBlock) returns (ok: bool)
    ensures ok == PayoutOk(env, b, PplnsWindow(v.store, env.c, b, env.difficultyByHeight))
  {
    var window := BlocksInPPLNSWindow(v.store, env.c, b, env.difficultyByHeight);
    if window.None? {
      return false;
    }
    var shares := GetShares(env, b, window.value);
    var totalReward := TotalOf(b.outputs);
    if |shares| != |b.outputs| || totalReward != b.totalReward {
      return false;
    }
    var rewards := SplitReward(totalReward, shares);
    if rewards.None? {
      return false;
    }
    ok := CheckOutputs(env, b, shares, rewards.value);
  }

  /** `GetShares`: the callback fills a list, which is compacted and shuffled in place. */
  method GetShares(env: Env, b: PoolBlock, w: Walked) returns (shares: seq<Share>)
    ensures shares == SharesOf(env, b, w)
  {
    var list := ShareList(w.shares);
    var a := new Share[|list|](i requires 0 <= i < |list| => list[i]);
    assert a[..] == list;
    var n := Compact(a);
    var merged := a[..n];
    var s := new Share[|merged|](i requires 0 <= i < |merged| => merged[i]);
    assert s[..] == merged;
    ShuffleShares(s, b.version, env.seedHash(b.keySeed));
    shares := s[..];
  }

  /** The checks that need the window. */
  method CheckWindow(env: Env, v: View, b: PoolBlock, parent: PoolBlock) returns (verdict: Verdict)
    ensures verdict == WindowVerdict(env, v, b, parent)
  {
    var difficulty;
    if v.tip == Some(parent) {
      // the shortcut: see VerdictIgnoresTip in ChainSteps
      difficulty := v.currentDifficulty;
    } else {
      var r := R.GetDifficultyForNextBlock(v.store, env.c, parent);
      if r.Missing? {
        return Waiting;
      }
      if r.Overflow? || r.value == 0 {
        return Rejected;
      }
      difficulty := r.value;
    }
    if difficulty != b.difficulty {
      return Rejected;
    }
    var ok := CheckPayout(env, v, b);
    return if ok then Accepted else Rejected;
  }

  /** `verifyBlock`. */
  method VerifyBlock(env: Env, v: View, b: PoolBlock, ghost known: set<PoolBlock>) returns (verdict: Verdict)
    requires Acyclic(v.store, known) && b in known
    ensures verdict == VerdictOf(env, v, b)
  {
    if b.height == 0 {
      return if GenesisOk(env.c, b) then Accepted else Rejected;
    }
    if DepthOf(v.depth, b) > (env.c.chainWindowSize - 1) * 2 + UNCLE_BLOCK_DEPTH {
      return Accepted;
    }
    if b.parent == ZERO_HASH {
      return Rejected;
    }
    var found := GetParent(v.store, b);
    if found.None? {
      return Waiting;
    }
    var parent := found.value;
    if parent !in v.verified {
      return Waiting;
    }
    if parent in v.invalid || !SeedOk(parent, b) || parent.height + 1 != b.height {
      return Rejected;
    }
    for i := 0 to |b.uncles|
      invariant forall k :: 0 < k < i ==> b.uncles[k - 1] < b.uncles[k]
    {
      if i > 0 && b.uncles[i - 1] >= b.uncles[i] {
        return Rejected;
      }
    }
    var uncles, cumulative := CheckUncles(v, b, parent, known);
    if uncles != Accepted {
      return uncles;
    }
    if b.cumulative != cumulative {
      return Rejected;
    }
    // a block this deep is below every window that still counts
    if DepthOf(v.depth, b) >= env.c.chainWindowSize {
      return Accepted;
    }
    verdict := CheckWindow(env, v, b, parent);
  }
}
