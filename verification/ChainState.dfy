/** The memory of the side chain (p2pool/sidechain/sidechain.go) as one value, and what holds of it
    in every reachable state. */
module ChainState {
  import opened Blocks
  import opened Verification
  import R = Retarget

  /** The fields of `SideChain` and the flags of its blocks. The last two are history: `links`
      records parent and uncles of every block whose full verification succeeded here, and
      `maxHeight` the greatest height ever added. */
  datatype State = State(
    byId: map<Hash, PoolBlock>,
    byHeight: map<nat, seq<PoolBlock>>,
    keys: seq<nat>,
    keysSorted: bool,
    verified: set<PoolBlock>,
    invalid: set<PoolBlock>,
    depth: map<PoolBlock, nat>,
    cache: map<PoolBlock, IterationCache>,
    tip: Option<PoolBlock>,
    currentDifficulty: nat,
    links: map<PoolBlock, IterationCache>,
    maxHeight: nat)
  {
    function Store(): Store { Blocks.Store(byId, cache) }

    function View(): View { Verification.View(Store(), verified, invalid, depth, tip, currentDifficulty) }

    /** Every block object that was ever added. */
    function Known(): set<PoolBlock> { depth.Keys }

    predicate Stored(b: PoolBlock) { b.id in byId && byId[b.id] == b }

    predicate Valid(b: PoolBlock) { b in verified && b !in invalid }
  }

  /** Ids are hashes: they determine the block, and references are acyclic. */
  ghost predicate Coherent(u: set<PoolBlock>, a: PoolBlock, b: PoolBlock) {
    a in u && b in u ==> (a.id == b.id ==> SameBlock(a, b)) && (a.parent == b.id ==> b.rank < a.rank)
  }

  /** The blocks that can ever be offered. Heights stay clear of 64-bit wrap-around. */
  ghost predicate Universe(u: set<PoolBlock>) {
    && (forall b :: b in u ==> b.id != ZERO_HASH && b.height + UNCLE_BLOCK_DEPTH < TWO64)
    && (forall a, b :: Coherent(u, a, b))
  }

  ghost predicate Distinct<T>(s: seq<T>) {
    forall i, j :: 0 <= i < j < |s| ==> s[i] != s[j]
  }

  predicate Increasing(s: seq<nat>) {
    forall i, j :: 0 <= i < j < |s| ==> s[i] < s[j]
  }

  // ---------------------------------------------------------------- the invariant

  /** What an id leads to has that id and is listed at its height. */
  ghost predicate EntryOk(s: State, id: Hash) {
    id in s.byId ==>
      var b := s.byId[id];
      b.id == id && b in s.Known() && b.height in s.byHeight && b in s.byHeight[b.height]
  }

  /** The blocks listed at a height are stored, have that height, and are listed once. */
  ghost predicate HeightOk(s: State, h: nat) {
    h in s.byHeight ==>
      && s.byHeight[h] != []
      && Distinct(s.byHeight[h])
      && (forall b :: b in s.byHeight[h] ==> s.Stored(b) && b.height == h)
  }

  /** The list of heights, and the truth of the sorted flag. */
  ghost predicate KeysOk(s: State) {
    && Distinct(s.keys)
    && (forall h :: h in s.keys <==> h in s.byHeight)
    && (s.keysSorted ==> Increasing(s.keys))
  }

  /** The three indexes agree exactly. */
  ghost predicate IndexOk(s: State) {
    && (forall id :: EntryOk(s, id))
    && (forall h :: HeightOk(s, h))
    && KeysOk(s)
  }

  ghost predicate FlagsOk(u: set<PoolBlock>, s: State) {
    && s.Known() <= u
    && s.invalid <= s.verified <= s.Known()
    && (s.tip.Some? ==> s.Valid(s.tip.value))
  }

  ghost predicate DepthsOk(s: State) {
    forall b :: b in s.depth ==> b.height + s.depth[b] <= s.maxHeight
  }

  function Ids(blocks: seq<PoolBlock>): (r: seq<Hash>)
    ensures |r| == |blocks|
    ensures forall i :: 0 <= i < |blocks| ==> r[i] == blocks[i].id
  {
    seq(|blocks|, i requires 0 <= i < |blocks| => blocks[i].id)
  }

  /** The entry holds the blocks that the ids in the block refer to. */
  ghost predicate Names(known: set<PoolBlock>, b: PoolBlock, e: IterationCache) {
    && e.parent in known
    && e.parent.id == b.parent
    && Ids(e.uncles) == b.uncles
    && (forall x :: x in e.uncles ==> x in known)
  }

  ghost predicate CacheOk(s: State, b: PoolBlock) {
    b in s.cache ==> b in s.verified && Names(s.Known(), b, s.cache[b])
  }

  /** No uncle of the block is one of its two nearest ancestors, an uncle of those, or the
      ancestor below them. */
  ghost predicate FreshUncles(links: map<PoolBlock, IterationCache>, b: PoolBlock, p: PoolBlock) {
    && b.parent !in b.uncles
    && (forall x :: x in b.uncles ==> x !in p.uncles)
    && (p in links ==>
          var g := links[p].parent;
          && p.parent !in b.uncles
          && (forall x :: x in b.uncles ==> x !in g.uncles)
          && g.parent !in b.uncles)
  }

  /** From version 2 on, a block keeps the key seed of its parent as long as it is mined on the same Monero
      block, and takes the seed derived from the parent when that changes. */
  predicate SeedFollows(p: PoolBlock, b: PoolBlock) {
    b.version > 1 ==>
      && (b.previousId == p.previousId ==> b.keySeed == p.keySeed)
      && (b.previousId != p.previousId ==> b.keySeed == p.derivedSeed)
  }

  /** The rules of full verification that concern parent and uncles. */
  ghost predicate Follows(b: PoolBlock, e: IterationCache) {
    && b.height > 0
    && SeedFollows(e.parent, b)
    && e.parent.height + 1 == b.height
    && (forall x :: x in e.uncles ==> UncleHeightOk(b, x))
    && Ascending(b.uncles)
    && b.cumulative == CumulativeAfter(e.parent, b, e.uncles)
  }

  /** What full verification established about a block, for good. */
  ghost predicate LinkOk(s: State, b: PoolBlock) {
    b in s.links ==>
      var e := s.links[b];
      && s.Valid(b)
      && Names(s.Known(), b, e)
      && s.Valid(e.parent)
      && (forall x :: x in e.uncles ==> s.Valid(x))
      && Follows(b, e)
      && FreshUncles(s.links, b, e.parent)
      && (s.Stored(b) ==> b in s.cache && s.cache[b] == e)
  }

  ghost predicate GenesisVerified(c: Consensus, s: State, b: PoolBlock) {
    s.Valid(b) && b.height == 0 ==> GenesisOk(c, b)
  }

  ghost predicate LinksOk(c: Consensus, s: State) {
    && (forall b :: LinkOk(s, b))
    && (forall b :: GenesisVerified(c, s, b))
  }

  /** The n blocks from b down were all fully verified here, or end in a genesis block. */
  ghost predicate LinkChain(links: map<PoolBlock, IterationCache>, b: PoolBlock, n: nat)
    decreases n
  {
    n == 0 || b.height == 0 || (b in links && LinkChain(links, links[b].parent, n - 1))
  }

  /** The cached difficulty is what a recomputation on the present store gives. */
  ghost predicate DifficultyOk(c: Consensus, s: State) {
    s.tip.Some? && LinkChain(s.links, s.tip.value, c.chainWindowSize) ==>
      && R.DifficultyAfter(s.Store(), c, s.tip.value) == R.Difficulty(s.currentDifficulty)
      && s.currentDifficulty != 0
  }

  /** Everything but the cached difficulty. */
  ghost predicate Sound(u: set<PoolBlock>, c: Consensus, s: State) {
    && ValidConsensus(c)
    && Universe(u)
    && IndexOk(s)
    && FlagsOk(u, s)
    && DepthsOk(s)
    && (forall b :: CacheOk(s, b))
    && LinksOk(c, s)
  }

  ghost predicate Inv(u: set<PoolBlock>, c: Consensus, s: State) {
    Sound(u, c, s) && DifficultyOk(c, s)
  }

  const EMPTY: State := State(map[], map[], [], false, {}, {}, map[], map[], None, 0, map[], 0)

  lemma EmptyOk(u: set<PoolBlock>, c: Consensus)
    requires Universe(u) && ValidConsensus(c)
    ensures Inv(u, c, EMPTY.(currentDifficulty := c.minimumDifficulty))
  {
  }

  // ---------------------------------------------------------------- walks

  lemma ParentIsNamed(u: set<PoolBlock>, c: Consensus, s: State, b: PoolBlock)
    requires Sound(u, c, s) && b in s.Known()
    ensures var p := GetParent(s.Store(), b);
      p.Some? ==> p.value in s.Known() && p.value.id == b.parent && p.value.rank < b.rank
  {
    assert CacheOk(s, b) && EntryOk(s, b.parent);
    var p := GetParent(s.Store(), b);
    if p.Some? {
      assert Coherent(u, b, p.value);
    }
  }

  lemma KnownAcyclic(u: set<PoolBlock>, c: Consensus, s: State)
    requires Sound(u, c, s)
    ensures Acyclic(s.Store(), s.Known())
  {
    forall b | b in s.Known() && GetParent(s.Store(), b).Some?
      ensures GetParent(s.Store(), b).value in s.Known() && GetParent(s.Store(), b).value.rank < b.rank
    {
      ParentIsNamed(u, c, s, b);
    }
  }

  lemma {:induction false} FoundUnclesNamed(s: State, ids: seq<Hash>, i: nat)
    requires (forall id :: EntryOk(s, id)) && i < |FoundUncles(s.Store(), ids)|
    ensures i < |ids|
    ensures var x := FoundUncles(s.Store(), ids)[i]; x.id == ids[i] && s.Stored(x) && x in s.Known()
  {
    assert EntryOk(s, ids[0]);
    if i > 0 {
      FoundUnclesNamed(s, ids[1..], i - 1);
    }
  }

  lemma {:induction false} FoundUnclesLength(st: Blocks.Store, ids: seq<Hash>)
    ensures |FoundUncles(st, ids)| <= |ids|
  {
    if ids != [] && ids[0] in st.byId {
      FoundUnclesLength(st, ids[1..]);
    }
  }

  /** Uncles come out in the order of their ids, and all of them if none is missing. */
  lemma UnclesAreNamed(u: set<PoolBlock>, c: Consensus, s: State, b: PoolBlock)
    requires Sound(u, c, s) && b in s.Known()
    ensures var us := IteratedUncles(s.Store(), b);
      && |us| <= |b.uncles|
      && (UnclesFound(s.Store(), b) ==> |us| == |b.uncles|)
      && forall i :: 0 <= i < |us| ==> us[i] in s.Known() && us[i].id == b.uncles[i]
  {
    var us := IteratedUncles(s.Store(), b);
    FoundUnclesLength(s.Store(), b.uncles);
    assert CacheOk(s, b);
    forall i | 0 <= i < |us| ensures i < |b.uncles| && us[i] in s.Known() && us[i].id == b.uncles[i] {
      if b in s.cache {
        assert us[i] in us && Ids(us)[i] == us[i].id;
      } else {
        FoundUnclesNamed(s, b.uncles, i);
      }
    }
  }

  /** What a walk finds at one block in the first store it also finds in the second. */
  ghost predicate AgreeAt(st: Blocks.Store, st': Blocks.Store, b: PoolBlock) {
    && (UnclesFound(st, b) ==> UnclesFound(st', b) && IteratedUncles(st', b) == IteratedUncles(st, b))
    && (b.height > 0 && GetParent(st, b).Some? ==> GetParent(st', b) == GetParent(st, b))
  }

  /** ... and so on for n blocks, down to a genesis block at most. */
  ghost predicate Agree(st: Blocks.Store, st': Blocks.Store, b: PoolBlock, n: nat)
    decreases n
  {
    n > 0 ==>
      && AgreeAt(st, st', b)
      && (b.height > 0 && GetParent(st, b).Some? ==> Agree(st, st', GetParent(st, b).value, n - 1))
  }

  /** Stores that agree give the same difficulty window. */
  lemma {:induction false} CollectAgrees(st: Blocks.Store, st': Blocks.Store, c: Consensus, tip: PoolBlock,
                                         cur: PoolBlock, depth: nat)
    requires depth < c.chainWindowSize && Agree(st, st', cur, c.chainWindowSize - depth)
    requires R.Collect(st, c, tip, cur, depth).Some?
    ensures R.Collect(st', c, tip, cur, depth) == R.Collect(st, c, tip, cur, depth)
    decreases c.chainWindowSize - depth
  {
    if depth + 1 < c.chainWindowSize && cur.height != 0 {
      CollectAgrees(st, st', c, tip, GetParent(st, cur).value, depth + 1);
    }
  }

  /** Everything a walk finds above height lo in s it also finds in t. */
  ghost predicate KeepsAt(s: State, t: State, lo: int, b: PoolBlock) {
    b in s.Known() && b.height > lo ==>
      var p, us := GetParent(s.Store(), b), IteratedUncles(s.Store(), b);
      && (p.Some? && p.value.height > lo ==> GetParent(t.Store(), b) == p)
      && (UnclesFound(s.Store(), b) && (forall x :: x in us ==> x.height > lo) ==>
            UnclesFound(t.Store(), b) && IteratedUncles(t.Store(), b) == us)
  }

  ghost predicate Keeps(s: State, t: State, lo: int) {
    forall b :: KeepsAt(s, t, lo, b)
  }

  /** n blocks from b down, uncles included, stay above lo. */
  predicate Above(b: PoolBlock, n: nat, lo: int) {
    lo < 0 || b.height > lo + n + UNCLE_BLOCK_DEPTH
  }

  lemma SameHeight(u: set<PoolBlock>, a: PoolBlock, b: PoolBlock)
    requires Universe(u) && a in u && b in u && a.id == b.id
    ensures a.height == b.height && a.parent == b.parent && a.uncles == b.uncles && SameBlock(a, b)
  {
    assert Coherent(u, a, b);
  }

  /** The uncles of a fully verified block, and of every other object that holds the same block,
      are at most three heights below it. */
  lemma UnclesAbove(u: set<PoolBlock>, c: Consensus, s: State, cur: PoolBlock, node: PoolBlock)
    requires Sound(u, c, s) && cur in s.Known() && s.Valid(node) && SameBlock(cur, node)
    requires node.height == 0 || node in s.links
    ensures forall x :: x in IteratedUncles(s.Store(), cur) ==> x.height + UNCLE_BLOCK_DEPTH >= node.height
  {
    assert LinkOk(s, node) && GenesisVerified(c, s, node);
    UnclesAreNamed(u, c, s, cur);
    var us := IteratedUncles(s.Store(), cur);
    forall x | x in us ensures x.height + UNCLE_BLOCK_DEPTH >= node.height {
      var i :| 0 <= i < |us| && us[i] == x;
      if node.height > 0 {
        var y := s.links[node].uncles[i];
        assert Ids(s.links[node].uncles)[i] == y.id;
        assert y in s.links[node].uncles;
        SameHeight(u, x, y);
      }
    }
  }

  lemma ParentBelow(u: set<PoolBlock>, c: Consensus, s: State, cur: PoolBlock, node: PoolBlock)
    requires Sound(u, c, s) && cur in s.Known() && SameBlock(cur, node) && node in s.links
    requires GetParent(s.Store(), cur).Some?
    ensures var p := GetParent(s.Store(), cur).value;
      p in s.Known() && SameBlock(p, s.links[node].parent) && p.height + 1 == node.height
  {
    ParentIsNamed(u, c, s, cur);
    assert LinkOk(s, node);
    SameHeight(u, GetParent(s.Store(), cur).value, s.links[node].parent);
  }

  /** A window of fully verified blocks is walked alike in both states. */
  lemma {:induction false} KeptAgrees(u: set<PoolBlock>, c: Consensus, s: State, t: State, lo: int,
                                      cur: PoolBlock, node: PoolBlock, n: nat)
    requires Sound(u, c, s) && Keeps(s, t, lo) && cur in s.Known() && s.Valid(node) && SameBlock(cur, node)
    requires LinkChain(s.links, node, n) && Above(node, n, lo)
    ensures Agree(s.Store(), t.Store(), cur, n)
    decreases n
  {
    if n > 0 {
      UnclesAbove(u, c, s, cur, node);
      assert KeepsAt(s, t, lo, cur);
      if cur.height > 0 && GetParent(s.Store(), cur).Some? {
        ParentBelow(u, c, s, cur, node);
        assert LinkOk(s, node);
        KeptAgrees(u, c, s, t, lo, GetParent(s.Store(), cur).value, s.links[node].parent, n - 1);
      }
    }
  }

  /** The cached difficulty survives any change that keeps the tip and what is above lo. */
  lemma DifficultyKept(u: set<PoolBlock>, c: Consensus, s: State, t: State, lo: int)
    requires Inv(u, c, s) && Keeps(s, t, lo)
    requires t.tip == s.tip && t.currentDifficulty == s.currentDifficulty
    requires s.tip.Some? ==> Above(s.tip.value, c.chainWindowSize, lo)
    requires s.tip.Some? && LinkChain(t.links, s.tip.value, c.chainWindowSize) ==>
      LinkChain(s.links, s.tip.value, c.chainWindowSize)
    ensures DifficultyOk(c, t)
  {
    if s.tip.Some? && LinkChain(t.links, s.tip.value, c.chainWindowSize) {
      var tip := s.tip.value;
      KeptAgrees(u, c, s, t, lo, tip, tip, c.chainWindowSize);
      CollectAgrees(s.Store(), t.Store(), c, tip, tip, 0);
    }
  }
}
