/** Decoded pool blocks as the side chain sees them: hashes and keys as numbers, and the coinbase
    outputs that the payout rules speak of (p2pool/sidechain/poolblock.go). */
module TemplateViews {
  import opened Blocks
  import opened Bytes
  import opened Outputs
  import opened Coinbase
  import opened SideData
  import opened Templates
  import W = Window
  import V = Verification
  import C = OutputCalculation

  /** What a block object has besides the fields of the template. */
  datatype Identity = Identity(addr: nat, rank: nat, derivedSeed: Hash, localTimestamp: nat)

  function Number(s: Data): nat {
    SpelledBack(s);
    LittleEndian(s)
  }

  function OutputOf(o: TxOutput): Output {
    Output(o.reward, Number(o.key), o.kind == TX_OUT_TO_TAGGED_KEY, o.viewTag)
  }

  function OutputsOf(os: seq<TxOutput>): (r: seq<Output>)
    ensures |r| == |os|
  {
    seq(|os|, i requires 0 <= i < |os| => OutputOf(os[i]))
  }

  /** The pool block that a template stands for. */
  function BlockOf(t: Template, o: Identity): PoolBlock {
    var s := t.side;
    PoolBlock(
      o.addr,
      o.rank,
      Number(TemplateTag(t.main)),
      Number(s.parent),
      seq(|s.uncles|, i requires 0 <= i < |s.uncles| => Number(s.uncles[i])),
      s.height,
      s.difficultyLo + TWO64 * s.difficultyHi,
      s.cumulativeLo + TWO64 * s.cumulativeHi,
      t.main.timestamp,
      t.version,
      Number(t.main.previousId),
      t.main.coinbase.genHeight,
      Number(s.privateKeySeed),
      o.derivedSeed,
      Address(Number(s.spendKey), Number(s.viewKey)),
      Number(s.privateKey),
      t.main.coinbase.totalReward,
      OutputsOf(t.main.coinbase.outputs),
      o.localTimestamp)
  }

  // ---------------------------------------------------------------- outputs as bytes

  /** A calculated output at its position, with the fields that are written. */
  function TxOutputOf(o: Output, i: nat): TxOutput {
    var kind := if o.tagged then TX_OUT_TO_TAGGED_KEY else TX_OUT_TO_KEY;
    TxOutput(i, o.reward, Spelled(o.key, 32), kind, o.viewTag % 0x100)
  }

  /** The outputs from the `i`-th on. */
  function TxOutputsFrom(os: seq<Output>, i: nat): (r: seq<TxOutput>)
    requires i <= |os|
    ensures |r| == |os| - i && AllKnown(r)
    decreases |os| - i
  {
    if i == |os| then [] else [TxOutputOf(os[i], i)] + TxOutputsFrom(os, i + 1)
  }

  function TxOutputsOf(os: seq<Output>): seq<TxOutput> { TxOutputsFrom(os, 0) }

  lemma SameOutputBytes(a: Output, o: TxOutput, i: nat)
    requires Known(o) && C.SameOutput(a, OutputOf(o))
    ensures PutOutput(TxOutputOf(a, i)) == PutOutput(o)
  {
    SpelledBack(o.key);
  }

  lemma {:induction false} SameEachBytes(a: seq<Output>, os: seq<TxOutput>, i: nat)
    requires i <= |os| == |a| && forall k :: 0 <= k < |os| ==> PutOutput(TxOutputOf(a[k], k)) == PutOutput(os[k])
    ensures PutEach(TxOutputsFrom(a, i)) == PutEach(os[i..])
    decreases |os| - i
  {
    if i < |os| {
      SameEachBytes(a, os, i + 1);
      assert os[i..][1..] == os[i + 1..];
      assert TxOutputsFrom(a, i)[1..] == TxOutputsFrom(a, i + 1);
    }
  }

  /** Outputs that agree in what is written have the same encoding. */
  lemma SameWrittenBytes(a: seq<Output>, os: seq<TxOutput>)
    requires AllKnown(os) && C.SameWritten(a, OutputsOf(os))
    ensures OutputBytes(TxOutputsOf(a)) == OutputBytes(os)
  {
    forall k | 0 <= k < |os| ensures PutOutput(TxOutputOf(a[k], k)) == PutOutput(os[k]) {
      assert C.SameOutput(a[k], OutputsOf(os)[k]) && Known(os[k]);
      SameOutputBytes(a[k], os[k], k);
    }
    SameEachBytes(a, os, 0);
    assert os[0..] == os;
  }

  // ---------------------------------------------------------------- what a payout depends on

  /** No iteration cache belongs to this object. */
  ghost predicate Uncached(st: Store, addr: nat) {
    forall x :: x in st.cache ==> x.addr != addr
  }

  /** Equal in all fields that the payout is computed from; the seed only matters from version 2 on. */
  predicate SamePayout(a: PoolBlock, b: PoolBlock) {
    && a.parent == b.parent
    && a.uncles == b.uncles
    && a.height == b.height
    && a.difficulty == b.difficulty
    && a.version == b.version
    && a.genHeight == b.genHeight
    && a.miner == b.miner
    && a.privateKey == b.privateKey
    && a.totalReward == b.totalReward
    && (a.version > 1 ==> a.keySeed == b.keySeed)
  }

  lemma {:induction false} UnclesByHeight(c: Consensus, a: PoolBlock, b: PoolBlock, cap: nat, acc: W.Acc,
                                          us: seq<PoolBlock>)
    requires a.height == b.height
    ensures W.AddUncles(c, a, cap, acc, us) == W.AddUncles(c, b, cap, acc, us)
  {
    if us != [] {
      UnclesByHeight(c, a, b, cap, acc, us[..|us| - 1]);
    }
  }

  /** Of the tip of a walk only the height matters. */
  lemma {:induction false} WalkByHeight(st: Store, c: Consensus, a: PoolBlock, b: PoolBlock, cap: nat, cur: PoolBlock,
                                        depth: nat, total: nat)
    requires a.height == b.height
    ensures W.Walk(st, c, a, cap, cur, depth, total) == W.Walk(st, c, b, cap, cur, depth, total)
    decreases c.chainWindowSize - depth
  {
    var acc := W.Acc(total, cur.difficulty, []);
    UnclesByHeight(c, a, b, cap, acc, IteratedUncles(st, cur));
    var r := W.AddUncles(c, a, cap, acc, IteratedUncles(st, cur));
    var p := GetParent(st, cur);
    if p.Some? && depth + 1 < c.chainWindowSize {
      WalkByHeight(st, c, a, b, cap, p.value, depth + 1, Add128(r.total, r.weight));
    }
  }

  /** The same miners with the same weights. */
  ghost predicate SameShares(v: Option<W.Walked>, w: Option<W.Walked>) {
    v.Some? == w.Some? && (v.Some? ==> V.ShareList(v.value.shares) == V.ShareList(w.value.shares))
  }

  lemma SharesBefore(here: seq<W.Weighted>, there: seq<W.Weighted>, w: Option<W.Walked>)
    requires V.ShareList(here) == V.ShareList(there)
    ensures SameShares(W.Before(here, w), W.Before(there, w))
  {
    if w.Some? {
      ShareListConcat(here, w.value.shares);
      ShareListConcat(there, w.value.shares);
    }
  }

  lemma ShareListConcat(a: seq<W.Weighted>, b: seq<W.Weighted>)
    ensures V.ShareList(a + b) == V.ShareList(a) + V.ShareList(b)
  {
  }

  /** Blocks that agree in these fields have windows with the same shares. */
  lemma SameWindow(st: Store, c: Consensus, a: PoolBlock, b: PoolBlock, difficultyByHeight: nat -> nat)
    requires SamePayout(a, b) && Uncached(st, a.addr) && Uncached(st, b.addr)
    ensures SameShares(W.PplnsWindow(st, c, a, difficultyByHeight), W.PplnsWindow(st, c, b, difficultyByHeight))
  {
    var cap := W.Cap(a, W.MainDifficulty(a, difficultyByHeight));
    SameWalk(st, c, a, b, cap);
  }

  lemma SameWalk(st: Store, c: Consensus, a: PoolBlock, b: PoolBlock, cap: nat)
    requires SamePayout(a, b) && a !in st.cache && b !in st.cache
    ensures SameShares(W.Walk(st, c, a, cap, a, 0, 0), W.Walk(st, c, b, cap, b, 0, 0))
  {
    var us, acc := IteratedUncles(st, a), W.Acc(0, a.difficulty, []);
    assert us == IteratedUncles(st, b) && UnclesFound(st, a) == UnclesFound(st, b)
      && GetParent(st, a) == GetParent(st, b);
    UnclesByHeight(c, a, b, cap, acc, us);
    var r := W.AddUncles(c, a, cap, acc, us);
    var here, there := r.shares + [W.Weighted(a, r.weight)], r.shares + [W.Weighted(b, r.weight)];
    assert V.ShareList(here) == V.ShareList(there);
    var p := GetParent(st, a);
    if p.Some? && 1 < c.chainWindowSize {
      WalkByHeight(st, c, a, b, cap, p.value, 1, Add128(r.total, r.weight));
      SharesBefore(here, there, W.Walk(st, c, a, cap, p.value, 1, Add128(r.total, r.weight)));
    }
  }

  /** Nor does it matter to the outputs which of the two they are calculated for. */
  lemma SamePrescribed(env: V.Env, st: Store, a: PoolBlock, b: PoolBlock, tagged: bool)
    requires SamePayout(a, b) && Uncached(st, a.addr) && Uncached(st, b.addr)
    ensures C.Prescribed(env, a, W.PplnsWindow(st, env.c, a, env.difficultyByHeight), tagged)
         == C.Prescribed(env, b, W.PplnsWindow(st, env.c, b, env.difficultyByHeight), tagged)
  {
    SameWindow(st, env.c, a, b, env.difficultyByHeight);
    PrescribedBy(env, a, b, W.PplnsWindow(st, env.c, a, env.difficultyByHeight),
                 W.PplnsWindow(st, env.c, b, env.difficultyByHeight), tagged);
  }

  lemma PrescribedBy(env: V.Env, a: PoolBlock, b: PoolBlock, v: Option<W.Walked>, w: Option<W.Walked>, tagged: bool)
    requires SamePayout(a, b) && SameShares(v, w)
    ensures C.Prescribed(env, a, v, tagged) == C.Prescribed(env, b, w, tagged)
  {
    if v.Some? {
      assert V.SharesOf(env, a, v.value) == V.SharesOf(env, b, w.value);
      var r, q := C.Prescribed(env, a, v, tagged), C.Prescribed(env, b, w, tagged);
      if r.Some? {
        assert |r.value| == |q.value| && forall i :: 0 <= i < |r.value| ==> r.value[i] == q.value[i];
        assert r.value == q.value;
      }
    }
  }

  // ---------------------------------------------------------------- payouts of templates

  /** `GetTransactionOutputType`. */
  predicate Tagged(t: Template) { t.main.majorVersion >= HARD_FORK_VIEW_TAGS_VERSION }

  /** The outputs `CalculateOutputs` gives for a template. */
  function Calculated(env: V.Env, st: Store, t: Template, o: Identity): Option<seq<TxOutput>> {
    var b := BlockOf(t, o);
    match C.Prescribed(env, b, W.PplnsWindow(st, env.c, b, env.difficultyByHeight), Tagged(t))
    case None => None
    case Some(os) => Some(TxOutputsOf(os))
  }

  /** The block passes the payout check on this store and, from version 2 on, has a transaction key that
      belongs to its seed. */
  ghost predicate Pays(rules: Rules, env: V.Env, st: Store, t: Template, o: Identity) {
    var b := BlockOf(t, o);
    && Uncached(st, o.addr)
    && V.PayoutOk(env, b, W.PplnsWindow(st, env.c, b, env.difficultyByHeight))
    && (IsV2(t) ==> t.side.privateKey == rules.key(t.side.privateKeySeed, t.main.previousId))
  }

  /** All outputs have the type that the version of the block prescribes; the payout check does not look at it. */
  predicate Typed(t: Template) {
    forall x :: x in t.main.coinbase.outputs ==> x.kind == if Tagged(t) then TX_OUT_TO_TAGGED_KEY else TX_OUT_TO_KEY
  }

  ghost predicate Payable(rules: Rules, env: V.Env, st: Store, t: Template, o: Identity) {
    Pays(rules, env, st, t, o) && Typed(t)
  }

  /** What a payable block has is what would be calculated for it. */
  lemma PayableIsCalculated(rules: Rules, env: V.Env, st: Store, t: Template, o: Identity)
    requires Payable(rules, env, st, t, o)
    ensures var c := Calculated(env, st, t, o); c.Some? && OutputBytes(c.value) == OutputBytes(t.main.coinbase.outputs)
  {
    var b := BlockOf(t, o);
    var w := W.PplnsWindow(st, env.c, b, env.difficultyByHeight);
    C.PassesIffPrescribed(env, b, w, Tagged(t));
    SameWrittenBytes(C.Prescribed(env, b, w, Tagged(t)).value, t.main.coinbase.outputs);
  }

  /** A block that arrived pruned, with its transactions in any state, is paid like the block that was sent. */
  lemma ArrivedPaysAlike(rules: Rules, t: Template, compact: bool, a: Template, o: Identity, mine: Identity)
    requires var r := Arrived(rules, t, true, compact);
      a == r.(main := r.main.(transactions := a.main.transactions, parentIndices := a.main.parentIndices))
    requires IsV2(t) ==> t.side.privateKey == rules.key(t.side.privateKeySeed, t.main.previousId)
    ensures SamePayout(BlockOf(a, mine), BlockOf(t, o)) && Tagged(a) == Tagged(t)
  {
  }

  /** The outputs of a payable block can be calculated from what arrives of its pruned form. */
  lemma ArrivedIsCalculated(rules: Rules, env: V.Env, st: Store, t: Template, compact: bool, a: Template, o: Identity,
                            mine: Identity)
    requires var r := Arrived(rules, t, true, compact);
      a == r.(main := r.main.(transactions := a.main.transactions, parentIndices := a.main.parentIndices))
    requires Payable(rules, env, st, t, o) && Uncached(st, mine.addr)
    ensures var c := Calculated(env, st, a, mine);
      c.Some? && OutputBytes(c.value) == OutputBytes(t.main.coinbase.outputs)
  {
    ArrivedPaysAlike(rules, t, compact, a, o, mine);
    SamePrescribed(env, st, BlockOf(a, mine), BlockOf(t, o), Tagged(t));
    PayableIsCalculated(rules, env, st, t, o);
  }

  // ---------------------------------------------------------------- when a pruned block can be rebuilt

  /** The same rewards to the same keys, whatever the types. */
  ghost predicate SameAmounts(a: seq<Output>, os: seq<TxOutput>, tagged: bool) {
    |a| == |os| && forall i :: 0 <= i < |a| ==> SameAmount(a[i], os[i], tagged)
  }

  ghost predicate SameAmount(a: Output, o: TxOutput, tagged: bool) {
    a.reward == o.reward && a.key == Number(o.key) && a.tagged == tagged
  }

  lemma PaysSameAmounts(env: V.Env, b: PoolBlock, w: Option<W.Walked>, tagged: bool, os: seq<TxOutput>)
    requires V.PayoutOk(env, b, w) && b.outputs == OutputsOf(os)
    ensures C.Prescribed(env, b, w, tagged).Some? && SameAmounts(C.Prescribed(env, b, w, tagged).value, os, tagged)
  {
    var a := C.Prescribed(env, b, w, tagged).value;
    forall i | 0 <= i < |a| ensures SameAmount(a[i], os[i], tagged) {
      assert b.outputs[i] == OutputOf(os[i]);
    }
  }

  /** A view tag more or less makes an encoding longer or shorter. */
  lemma {:induction false} LengthByType(a: seq<Output>, os: seq<TxOutput>, tagged: bool, i: nat)
    requires AllKnown(os) && SameAmounts(a, os, tagged) && i <= |os|
    ensures var c, s := |PutEach(TxOutputsFrom(a, i))|, |PutEach(os[i..])|;
      && (if tagged then s <= c else c <= s)
      && (c == s <==> forall k :: i <= k < |os| ==> (os[k].kind == TX_OUT_TO_TAGGED_KEY) == tagged)
    decreases |os| - i
  {
    if i < |os| {
      LengthByType(a, os, tagged, i + 1);
      assert SameAmount(a[i], os[i], tagged) && Known(os[i]);
      assert os[i..][1..] == os[i + 1..] && TxOutputsFrom(a, i)[1..] == TxOutputsFrom(a, i + 1);
    }
  }

  /** Of a block that pays right, the pruned form has the announced length again exactly if its outputs
      have the prescribed type. */
  lemma RebuiltIffTyped(rules: Rules, env: V.Env, st: Store, t: Template, compact: bool, a: Template, o: Identity,
                        mine: Identity)
    requires var r := Arrived(rules, t, true, compact);
      a == r.(main := r.main.(transactions := a.main.transactions, parentIndices := a.main.parentIndices))
    requires Pays(rules, env, st, t, o) && AllKnown(t.main.coinbase.outputs) && Uncached(st, mine.addr)
    ensures var c := Calculated(env, st, a, mine);
      (c.Some? && |OutputBytes(c.value)| == a.main.coinbase.outputsBlobSize) <==> Typed(t)
  {
    var b, os := BlockOf(t, o), t.main.coinbase.outputs;
    var w := W.PplnsWindow(st, env.c, b, env.difficultyByHeight);
    ArrivedPaysAlike(rules, t, compact, a, o, mine);
    SamePrescribed(env, st, BlockOf(a, mine), b, Tagged(t));
    PaysSameAmounts(env, b, w, Tagged(t), os);
    SizeByType(t, C.Prescribed(env, b, w, Tagged(t)).value);
  }

  lemma SizeByType(t: Template, a: seq<Output>)
    requires AllKnown(t.main.coinbase.outputs) && SameAmounts(a, t.main.coinbase.outputs, Tagged(t))
    ensures |OutputBytes(TxOutputsOf(a))| == |OutputBytes(t.main.coinbase.outputs)| <==> Typed(t)
  {
    var os := t.main.coinbase.outputs;
    LengthByType(a, os, Tagged(t), 0);
    assert os[0..] == os;
    assert forall k :: 0 <= k < |os| ==> Known(os[k]);
  }
}
