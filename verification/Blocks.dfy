/** Sidechain blocks, the index they are looked up in, and the two walks over parents and uncles
    that every other part of the chain uses (p2pool/sidechain/poolblock.go). */
module Blocks {

  datatype Option<+T> = None | Some(value: T)

  /** Template ids are 32 bytes; `Hash.Compare` orders them as little-endian integers, so an id is
      modelled as that integer. Zero is the empty hash. */
  type Hash = nat
  const ZERO_HASH: Hash := 0

  const UNCLE_BLOCK_DEPTH := 3
  const TWO64: nat := 0x1_0000_0000_0000_0000
  const TWO128: nat := 0x1_0000_0000_0000_0000_0000_0000_0000_0000

  /** 128-bit addition as `Difficulty.Add` does it: it wraps. */
  function Add128(a: nat, b: nat): nat { (a + b) % TWO128 }

  /** Reducing first makes no difference. */
  lemma AddTo128(x: nat, y: nat)
    ensures Add128(x % TWO128, y) == (x + y) % TWO128
  {
    var q := x / TWO128;
    assert x == TWO128 * q + x % TWO128;
    RemainderOf(q, x % TWO128 + y);
  }

  lemma RemainderOf(q: nat, y: nat)
    ensures (TWO128 * q + y) % TWO128 == y % TWO128
  {
  }

  lemma AddTo64(x: nat, y: nat)
    ensures (x % TWO64 + y) % TWO64 == (x + y) % TWO64
  {
    var q := x / TWO64;
    assert x == TWO64 * q + x % TWO64;
    Remainder64(q, x % TWO64 + y);
  }

  lemma Remainder64(q: nat, y: nat)
    ensures (TWO64 * q + y) % TWO64 == y % TWO64
  {
  }

  /** 64-bit subtraction: it wraps. */
  function Sub64(a: nat, b: nat): nat { (a - b) % TWO64 }

  datatype Consensus = Consensus(
    id: Hash,
    chainWindowSize: nat,
    targetBlockTime: nat,
    minimumDifficulty: nat,
    unclePenalty: nat)

  /** The parameter bounds that `Consensus.verify` enforces on every network. */
  predicate ValidConsensus(c: Consensus) {
    && 60 <= c.chainWindowSize <= 2160
    && 1 <= c.targetBlockTime <= 120
    && c.minimumDifficulty <= 1000000000
    && 1 <= c.unclePenalty <= 99
  }

  /** Spend and view key, each as the integer its 32 bytes spell in little-endian order. */
  datatype Address = Address(spend: nat, view: nat)

  datatype Output = Output(reward: nat, key: nat, tagged: bool, viewTag: nat)

  /** One block object. `addr` stands for its address, so two objects that hold the same block
      are different values. `rank` is not data: hash references cannot form a cycle, and `rank`
      is a number that grows along every reference. `derivedSeed` is the value of
      `CalculateTransactionPrivateKeySeed` on this block. */
  datatype PoolBlock = PoolBlock(
    addr: nat,
    rank: nat,
    id: Hash,
    parent: Hash,
    uncles: seq<Hash>,
    height: nat,
    difficulty: nat,
    cumulative: nat,
    timestamp: nat,
    version: nat,
    previousId: Hash,
    genHeight: nat,
    keySeed: Hash,
    derivedSeed: Hash,
    miner: Address,
    privateKey: nat,
    totalReward: nat,
    outputs: seq<Output>,
    localTimestamp: nat)

  /** The two objects hold the same block: everything the template id commits to agrees. */
  predicate SameBlock(a: PoolBlock, b: PoolBlock) {
    a == b.(addr := a.addr, localTimestamp := a.localTimestamp)
  }

  datatype IterationCache = IterationCache(parent: PoolBlock, uncles: seq<PoolBlock>)

  /** What a walk over the chain reads: the index by template id and the iteration caches. */
  datatype Store = Store(byId: map<Hash, PoolBlock>, cache: map<PoolBlock, IterationCache>)

  function Lookup(st: Store, id: Hash): Option<PoolBlock> {
    if id in st.byId then Some(st.byId[id]) else None
  }

  /** `iteratorGetParent`. */
  function GetParent(st: Store, b: PoolBlock): Option<PoolBlock> {
    if b in st.cache then Some(st.cache[b].parent) else Lookup(st, b.parent)
  }

  /** A block and ancestors of it, each the parent of the one before. */
  ghost predicate Lineage(st: Store, b: PoolBlock, line: seq<PoolBlock>) {
    && line != []
    && line[0] == b
    && forall i :: 0 < i < |line| ==> GetParent(st, line[i - 1]) == Some(line[i])
  }

  lemma LineageFrom(st: Store, b: PoolBlock, p: PoolBlock, line: seq<PoolBlock>)
    requires GetParent(st, b) == Some(p) && Lineage(st, p, line)
    ensures Lineage(st, b, [b] + line)
  {
    var r := [b] + line;
    forall i | 0 < i < |r| ensures GetParent(st, r[i - 1]) == Some(r[i]) {
      assert i > 1 ==> r[i - 1] == line[i - 2];
    }
  }

  lemma LineageRest(st: Store, b: PoolBlock, line: seq<PoolBlock>)
    requires Lineage(st, b, line) && |line| > 1
    ensures GetParent(st, b) == Some(line[1]) && Lineage(st, line[1], line[1..])
  {
    forall i | 0 < i < |line[1..]| ensures GetParent(st, line[1..][i - 1]) == Some(line[1..][i]) {
      assert GetParent(st, line[i + 1 - 1]) == Some(line[i + 1]);
    }
  }

  /** The uncles that lookups deliver, up to the first one that is missing. */
  function FoundUncles(st: Store, ids: seq<Hash>): seq<PoolBlock>
  {
    if ids == [] || ids[0] !in st.byId then []
    else [st.byId[ids[0]]] + FoundUncles(st, ids[1..])
  }

  /** The blocks `iteratorUncles` hands to its callback, whether or not it ends in an error. */
  function IteratedUncles(st: Store, b: PoolBlock): seq<PoolBlock> {
    if b.uncles == [] then []
    else if b in st.cache then st.cache[b].uncles
    else FoundUncles(st, b.uncles)
  }

  /** `iteratorUncles` returns no error. */
  predicate UnclesFound(st: Store, b: PoolBlock) {
    b.uncles == [] || b in st.cache || |FoundUncles(st, b.uncles)| == |b.uncles|
  }

  /** The parent, for walks that have no bound of their own. Hash references cannot form a cycle,
      so the parent always ranks lower; a reference to anything else is not followed. */
  function Below(st: Store, b: PoolBlock): Option<PoolBlock> {
    var p := GetParent(st, b);
    if p.Some? && p.value.rank < b.rank then p else None
  }

  /** Parents of known blocks are known and rank lower. */
  ghost predicate Acyclic(st: Store, known: set<PoolBlock>) {
    forall b :: b in known && GetParent(st, b).Some? ==>
      GetParent(st, b).value in known && GetParent(st, b).value.rank < b.rank
  }
}
