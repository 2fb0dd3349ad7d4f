/** Forgetting old blocks (p2pool/sidechain/sidechain.go, pruneOldBlocks): one height at a time. */
module Pruning {
  import opened Blocks
  import opened Verification
  import opened ChainState
  import opened ChainSteps
  import S = Selection

  const MONERO_BLOCK_TIME := 120

  function PruneDistance(c: Consensus): nat
    requires ValidConsensus(c)
  {
    c.chainWindowSize * 2 + MONERO_BLOCK_TIME / c.targetBlockTime
  }

  function PruneDelay(c: Consensus): nat { c.chainWindowSize * 4 * c.targetBlockTime }

  /** The block is buried deeply enough, or has been around for long enough. */
  predicate Dead(c: Consensus, depth: map<PoolBlock, nat>, now: nat, b: PoolBlock)
    requires ValidConsensus(c)
  {
    DepthOf(depth, b) >= PruneDistance(c) || now >= b.localTimestamp + PruneDelay(c)
  }

  /** The blocks that stay. */
  function Kept(c: Consensus, depth: map<PoolBlock, nat>, now: nat, v: seq<PoolBlock>): seq<PoolBlock>
    requires ValidConsensus(c)
  {
    if v == [] then []
    else (if Dead(c, depth, now, v[0]) then [] else [v[0]]) + Kept(c, depth, now, v[1..])
  }

  /** The dead blocks of a list. */
  ghost function DeadIn(c: Consensus, depth: map<PoolBlock, nat>, now: nat, v: seq<PoolBlock>): set<PoolBlock>
    requires ValidConsensus(c)
  {
    set b | b in v && Dead(c, depth, now, b)
  }

  ghost function DropIds(byId: map<Hash, PoolBlock>, dead: set<PoolBlock>): map<Hash, PoolBlock> {
    map id | id in byId && byId[id] !in dead :: byId[id]
  }

  /** Height h loses its dead blocks; keys are left to the caller. */
  ghost function BlocksPruned(c: Consensus, s: State, now: nat, h: nat): State
    requires ValidConsensus(c) && h in s.byHeight
  {
    var kept, dead := Kept(c, s.depth, now, s.byHeight[h]), DeadIn(c, s.depth, now, s.byHeight[h]);
    s.(byId := DropIds(s.byId, dead),
       cache := s.cache - dead,
       byHeight := if kept == [] then s.byHeight - {h} else s.byHeight[h := kept])
  }

  /** The backward loop over one height: what stays of the list, the index and the caches. */
  method PruneList(c: Consensus, depth: map<PoolBlock, nat>, now: nat, all: seq<PoolBlock>,
                   byId: map<Hash, PoolBlock>, cache: map<PoolBlock, IterationCache>)
    returns (v: seq<PoolBlock>, byId': map<Hash, PoolBlock>, cache': map<PoolBlock, IterationCache>)
    requires ValidConsensus(c)
    requires forall id :: id in byId ==> byId[id].id == id
    requires forall b :: b in all ==> b.id in byId && byId[b.id] == b
    ensures v == Kept(c, depth, now, all)
    ensures byId' == DropIds(byId, DeadIn(c, depth, now, all))
    ensures cache' == cache - DeadIn(c, depth, now, all)
  {
    v, byId', cache' := all, byId, cache;
    var i := |all|;
    assert DropIds(byId, DeadIn(c, depth, now, all[i..])) == byId;
    while i > 0
      invariant 0 <= i <= |all|
      invariant v == all[..i] + Kept(c, depth, now, all[i..])
      invariant byId' == DropIds(byId, DeadIn(c, depth, now, all[i..]))
      invariant cache' == cache - DeadIn(c, depth, now, all[i..])
    {
      i := i - 1;
      DeleteAt(all, i, Kept(c, depth, now, all[i + 1..]));
      PruneListStep(c, depth, now, all, i);
      var block := v[i];
      if Dead(c, depth, now, block) {
        DropOne(byId, DeadIn(c, depth, now, all[i + 1..]), block);
        if block.id in byId' {
          byId' := byId' - {block.id};
        }
        v := v[..i] + v[i + 1..];
        cache' := cache' - {block};
      }
    }
    assert all[0..] == all;
  }

  lemma DeleteAt(all: seq<PoolBlock>, i: nat, rest: seq<PoolBlock>)
    requires i < |all|
    ensures var v := all[..i + 1] + rest;
      && v[i] == all[i]
      && v[..i] + v[i + 1..] == all[..i] + rest
      && v == all[..i] + ([all[i]] + rest)
  {
  }

  lemma PruneListStep(c: Consensus, depth: map<PoolBlock, nat>, now: nat, all: seq<PoolBlock>, i: nat)
    requires ValidConsensus(c) && i < |all|
    ensures var b := all[i];
      if Dead(c, depth, now, b)
      then
        && Kept(c, depth, now, all[i..]) == Kept(c, depth, now, all[i + 1..])
        && DeadIn(c, depth, now, all[i..]) == DeadIn(c, depth, now, all[i + 1..]) + {b}
      else
        && Kept(c, depth, now, all[i..]) == [b] + Kept(c, depth, now, all[i + 1..])
        && DeadIn(c, depth, now, all[i..]) == DeadIn(c, depth, now, all[i + 1..])
  {
    assert all[i..] == [all[i]] + all[i + 1..];
  }

  lemma DropOne(byId: map<Hash, PoolBlock>, dead: set<PoolBlock>, b: PoolBlock)
    requires forall id :: id in byId ==> byId[id].id == id
    requires b.id in byId && byId[b.id] == b
    ensures DropIds(byId, dead + {b}) == DropIds(byId, dead) - {b.id}
  {
  }

  function Without(keys: seq<nat>, k: nat): seq<nat>
    requires k < |keys|
  {
    keys[..k] + keys[k + 1..]
  }

  lemma {:induction false} KeptContents(c: Consensus, depth: map<PoolBlock, nat>, now: nat, v: seq<PoolBlock>)
    requires ValidConsensus(c)
    ensures forall b :: b in Kept(c, depth, now, v) <==> b in v && !Dead(c, depth, now, b)
    ensures Distinct(v) ==> Distinct(Kept(c, depth, now, v))
  {
    if v != [] {
      assert v == [v[0]] + v[1..];
      KeptContents(c, depth, now, v[1..]);
      if Distinct(v) {
        assert Distinct(v[1..]);
        assert v[0] !in v[1..];
      }
    }
  }

  lemma WithoutKey(keys: seq<nat>, k: nat)
    requires k < |keys| && Distinct(keys)
    ensures Distinct(Without(keys, k))
    ensures Increasing(keys) ==> Increasing(Without(keys, k))
    ensures forall h :: h in Without(keys, k) <==> h in keys && h != keys[k]
  {
    forall h ensures h in Without(keys, k) <==> h in keys && h != keys[k] {
      if h in keys && h != keys[k] {
        var i :| 0 <= i < |keys| && keys[i] == h;
        assert h == if i < k then Without(keys, k)[i] else Without(keys, k)[i - 1];
      }
    }
  }

  /** The state after height h was pruned and, if nothing is left there, key k deleted. */
  ghost function PrunedAt(c: Consensus, s: State, now: nat, h: nat, k: nat): State
    requires ValidConsensus(c) && h in s.byHeight
    requires Kept(c, s.depth, now, s.byHeight[h]) == [] ==> k < |s.keys|
  {
    var t := BlocksPruned(c, s, now, h);
    if Kept(c, s.depth, now, s.byHeight[h]) == [] then t.(keys := Without(s.keys, k)) else t
  }

  lemma PruneKeepsEntries(c: Consensus, s: State, now: nat, h: nat, k: nat)
    requires ValidConsensus(c) && IndexOk(s) && h in s.byHeight
    requires Kept(c, s.depth, now, s.byHeight[h]) == [] ==> k < |s.keys|
    ensures forall id :: EntryOk(PrunedAt(c, s, now, h, k), id)
  {
    var t := PrunedAt(c, s, now, h, k);
    assert HeightOk(s, h);
    KeptContents(c, s.depth, now, s.byHeight[h]);
    forall id ensures EntryOk(t, id) {
      assert EntryOk(s, id);
    }
  }

  lemma PruneKeepsHeights(c: Consensus, s: State, now: nat, h: nat, k: nat)
    requires ValidConsensus(c) && IndexOk(s) && h in s.byHeight
    requires Kept(c, s.depth, now, s.byHeight[h]) == [] ==> k < |s.keys|
    ensures forall g :: HeightOk(PrunedAt(c, s, now, h, k), g)
  {
    var t := PrunedAt(c, s, now, h, k);
    assert HeightOk(s, h);
    KeptContents(c, s.depth, now, s.byHeight[h]);
    forall g ensures HeightOk(t, g) {
      assert HeightOk(s, g);
    }
  }

  lemma PruneKeepsIndex(c: Consensus, s: State, now: nat, h: nat, k: nat)
    requires ValidConsensus(c) && IndexOk(s) && h in s.byHeight
    requires Kept(c, s.depth, now, s.byHeight[h]) == [] ==> k < |s.keys| && s.keys[k] == h
    ensures IndexOk(PrunedAt(c, s, now, h, k))
  {
    PruneKeepsEntries(c, s, now, h, k);
    PruneKeepsHeights(c, s, now, h, k);
    if Kept(c, s.depth, now, s.byHeight[h]) == [] {
      WithoutKey(s.keys, k);
    }
  }

  lemma PruneKeepsLinks(u: set<PoolBlock>, c: Consensus, s: State, now: nat, h: nat, k: nat)
    requires Sound(u, c, s) && h in s.byHeight
    requires Kept(c, s.depth, now, s.byHeight[h]) == [] ==> k < |s.keys|
    ensures var t := PrunedAt(c, s, now, h, k); LinksOk(c, t) && forall x :: CacheOk(t, x)
  {
    var t := PrunedAt(c, s, now, h, k);
    assert HeightOk(s, h);
    forall x ensures LinkOk(t, x) {
      assert LinkOk(s, x);
    }
    forall x ensures GenesisVerified(c, t, x) { assert GenesisVerified(c, s, x); }
    forall x ensures CacheOk(t, x) { assert CacheOk(s, x); }
  }

  lemma {:induction false} FoundAbove(st: Store, st': Store, ids: seq<Hash>, lo: int)
    requires |FoundUncles(st, ids)| == |ids|
    requires forall x :: x in FoundUncles(st, ids) ==> x.height > lo
    requires forall id :: id in st.byId && st.byId[id].height > lo ==> id in st'.byId && st'.byId[id] == st.byId[id]
    ensures FoundUncles(st', ids) == FoundUncles(st, ids)
  {
    if ids != [] {
      FoundUnclesLength(st, ids[1..]);
      FoundAbove(st, st', ids[1..], lo);
    }
  }

  lemma PruneKeepsWalks(c: Consensus, s: State, now: nat, h: nat, k: nat)
    requires ValidConsensus(c) && h in s.byHeight && HeightOk(s, h)
    requires Kept(c, s.depth, now, s.byHeight[h]) == [] ==> k < |s.keys|
    ensures Keeps(s, PrunedAt(c, s, now, h, k), h)
  {
    var t := PrunedAt(c, s, now, h, k);
    forall b ensures KeepsAt(s, t, h, b) {
      if b !in s.cache && UnclesFound(s.Store(), b) && b.uncles != [] && b.height > h
        && forall x :: x in IteratedUncles(s.Store(), b) ==> x.height > h {
        FoundAbove(s.Store(), t.Store(), b.uncles, h);
      }
    }
  }

  lemma DistanceExceedsWindow(c: Consensus)
    requires ValidConsensus(c)
    ensures PruneDistance(c) > c.chainWindowSize + UNCLE_BLOCK_DEPTH
  {
    assert MONERO_BLOCK_TIME / c.targetBlockTime >= 0;
  }

  /** Pruning a height that far below the tip keeps the invariant, the cached difficulty included. */
  lemma PruneOk(u: set<PoolBlock>, c: Consensus, s: State, now: nat, h: nat, k: nat)
    requires Inv(u, c, s) && h in s.byHeight && s.tip.Some? && h + PruneDistance(c) <= s.tip.value.height
    requires Kept(c, s.depth, now, s.byHeight[h]) == [] ==> k < |s.keys| && s.keys[k] == h
    ensures Inv(u, c, PrunedAt(c, s, now, h, k))
  {
    var t := PrunedAt(c, s, now, h, k);
    assert HeightOk(s, h);
    PruneKeepsIndex(c, s, now, h, k);
    PruneKeepsLinks(u, c, s, now, h, k);
    PruneKeepsWalks(c, s, now, h, k);
    DistanceExceedsWindow(c);
    DifficultyKept(u, c, s, t, h);
  }

  // ---------------------------------------------------------------- sorting the keys

  lemma SortedKeysIncrease(keys: seq<nat>)
    requires Distinct(keys)
    ensures var r := S.Sorted(keys);
      Increasing(r) && Distinct(r) && (forall h :: h in r <==> h in keys)
  {
    var r := S.Sorted(keys);
    S.SortedIsSorted(keys);
    forall h ensures h in r <==> h in keys {
      assert h in multiset(r) <==> h in multiset(keys);
    }
    forall i, j | 0 <= i < j < |r| ensures r[i] < r[j] {
      if r[i] == r[j] {
        TwiceCounts(r, i, j);
        DistinctOnce(keys, r[i]);
      }
    }
  }

  lemma TwiceCounts(s: seq<nat>, i: nat, j: nat)
    requires i < j < |s| && s[i] == s[j]
    ensures multiset(s)[s[i]] >= 2
  {
    assert s == s[..j] + ([s[j]] + s[j + 1..]);
    assert s[..j][i] == s[i];
    assert s[i] in multiset(s[..j]);
  }

  lemma {:induction false} DistinctOnce(s: seq<nat>, x: nat)
    requires Distinct(s)
    ensures multiset(s)[x] <= 1
  {
    if s != [] {
      assert s == [s[0]] + s[1..];
      DistinctOnce(s[1..], x);
      if x == s[0] {
        assert x !in s[1..];
        assert x !in multiset(s[1..]);
      }
    }
  }

  lemma SortKeysOk(u: set<PoolBlock>, c: Consensus, s: State)
    requires Inv(u, c, s)
    ensures Inv(u, c, s.(keys := S.Sorted(s.keys), keysSorted := true))
  {
    var t := s.(keys := S.Sorted(s.keys), keysSorted := true);
    SortedKeysIncrease(s.keys);
    forall id ensures EntryOk(t, id) { assert EntryOk(s, id); }
    forall h ensures HeightOk(t, h) { assert HeightOk(s, h); }
    forall x ensures LinkOk(t, x) { assert LinkOk(s, x); }
    forall x ensures GenesisVerified(c, t, x) { assert GenesisVerified(c, s, x); }
    forall x ensures CacheOk(t, x) { assert CacheOk(s, x); }
  }

  // ---------------------------------------------------------------- the loop over the keys

  /** The array under the key slice: the keys, and zeros where keys were deleted. */
  ghost predicate Backing(backing: seq<nat>, keys: seq<nat>) {
    && |keys| <= |backing|
    && backing[..|keys|] == keys
    && (forall i :: |keys| <= i < |backing| ==> backing[i] == 0)
  }

  /** `slices.Delete` on the first `len` entries: shift left and clear the last one. */
  function DeleteShift(backing: seq<nat>, len: nat, k: nat): seq<nat>
    requires k < len <= |backing|
  {
    backing[..k] + backing[k + 1..len] + [0] + backing[len..]
  }

  lemma DeleteKeepsBacking(backing: seq<nat>, keys: seq<nat>, k: nat)
    requires Backing(backing, keys) && k < |keys|
    ensures Backing(DeleteShift(backing, |keys|, k), Without(keys, k)) && |DeleteShift(backing, |keys|, k)| == |backing|
  {
    var r := DeleteShift(backing, |keys|, k);
    assert r[..|keys| - 1] == Without(keys, k) by {
      assert backing[..k] == keys[..k] && backing[k + 1..|keys|] == keys[k + 1..];
    }
  }

  /** The keys below and above the cut, `low` of them below. */
  ghost predicate Split(keys: seq<nat>, cut: nat, low: nat) {
    && low <= |keys|
    && (forall i :: 0 <= i < low ==> keys[i] <= cut)
    && (forall i :: low <= i < |keys| ==> cut < keys[i])
  }

  lemma SplitExists(keys: seq<nat>, cut: nat) returns (low: nat)
    requires Increasing(keys)
    ensures Split(keys, cut, low)
  {
    low := 0;
    while low < |keys| && keys[low] <= cut
      invariant low <= |keys| && forall i :: 0 <= i < low ==> keys[i] <= cut
    {
      low := low + 1;
    }
  }

  lemma SplitAfterDelete(keys: seq<nat>, cut: nat, low: nat, k: nat)
    requires Split(keys, cut, low) && k < low
    ensures Split(Without(keys, k), cut, low - 1)
  {
  }

  /** At least two stored heights lie above the cut. */
  ghost predicate TwoAbove(s: State, cut: nat) {
    exists a, b :: a in s.byHeight && b in s.byHeight && cut < a < b
  }

  lemma TwoKeysAbove(s: State, cut: nat, low: nat)
    requires KeysOk(s) && Split(s.keys, cut, low) && TwoAbove(s, cut)
    ensures low + 2 <= |s.keys|
  {
    var a, b :| a in s.byHeight && b in s.byHeight && cut < a < b;
    assert a in s.keys && b in s.keys;
    var i, j :| 0 <= i < |s.keys| && 0 <= j < |s.keys| && s.keys[i] == a && s.keys[j] == b;
  }

  /** Nothing appears in the index, and no known block or depth changes. */
  ghost predicate OnlyForgets(s: State, t: State) {
    && t.depth == s.depth
    && t.maxHeight == s.maxHeight
    && (forall id :: id in t.byId ==> id in s.byId && t.byId[id] == s.byId[id])
  }

  /** Nothing above the cut is forgotten. */
  ghost predicate KeepsAbove(s: State, t: State, cut: nat) {
    forall id :: id in s.byId && s.byId[id].height > cut ==> id in t.byId
  }

  /** Every block that is forgotten was below the cut, and dead. */
  ghost predicate OnlyDeadGo(c: Consensus, s: State, t: State, now: nat, cut: nat)
    requires ValidConsensus(c)
  {
    forall id :: id in s.byId && id !in t.byId ==> s.byId[id].height <= cut && Dead(c, s.depth, now, s.byId[id])
  }

  /** What one round of the key loop does. */
  lemma PruneRound(u: set<PoolBlock>, c: Consensus, s: State, now: nat, k: nat, cut: nat)
    requires Inv(u, c, s) && k < |s.keys| && s.keys[k] <= cut
    requires s.tip.Some? && cut + PruneDistance(c) == s.tip.value.height
    ensures s.keys[k] in s.byHeight
    ensures var t := PrunedAt(c, s, now, s.keys[k], k);
      Inv(u, c, t) && OnlyForgets(s, t) && OnlyDeadGo(c, s, t, now, cut)
  {
    var h := s.keys[k];
    assert HeightOk(s, h);
    KeptContents(c, s.depth, now, s.byHeight[h]);
    PruneOk(u, c, s, now, h, k);
  }

  /** The invariant of the key loop. */
  ghost predicate PruneLoop(u: set<PoolBlock>, c: Consensus, s0: State, s: State, now: nat, cut: nat,
                            backing: seq<nat>, index: nat, low: nat) {
    && Inv(u, c, s)
    && s == s0.(byId := s.byId, byHeight := s.byHeight, keys := s.keys, cache := s.cache)
    && OnlyForgets(s0, s)
    && OnlyDeadGo(c, s0, s, now, cut)
    && s.keysSorted
    && s.tip.Some?
    && cut + PruneDistance(c) == s.tip.value.height
    && Backing(backing, s.keys)
    && (index == 0 ==> s.keys == backing)
    && Split(s.keys, cut, low)
    && index <= low + 1
    && low + 2 <= |s.keys|
  }

  /** A round finds its height, and keeps the invariant. */
  lemma PruneLoopStep(u: set<PoolBlock>, c: Consensus, s0: State, s: State, now: nat, cut: nat,
                      backing: seq<nat>, k: nat, low: nat)
    requires PruneLoop(u, c, s0, s, now, cut, backing, k, low) && k < |backing| && backing[k] <= cut
    ensures forall id :: id in s.byId ==> s.byId[id].id == id
    ensures var h := backing[k];
      && k + 1 < |s.keys|
      && h == s.keys[k]
      && h in s.byHeight
      && (forall b :: b in s.byHeight[h] ==> s.Stored(b))
      && var t := PrunedAt(c, s, now, h, k);
         if Kept(c, s.depth, now, s.byHeight[h]) == []
         then PruneLoop(u, c, s0, t, now, cut, DeleteShift(backing, |s.keys|, k), k + 1, low - 1)
         else PruneLoop(u, c, s0, t, now, cut, backing, k + 1, low)
  {
    var h := backing[k];
    assert HeightOk(s, h);
    forall id | id in s.byId ensures s.byId[id].id == id {
      assert EntryOk(s, id);
    }
    assert backing[..|s.keys|][k] == s.keys[k];
    PruneRound(u, c, s, now, k, cut);
    if Kept(c, s.depth, now, s.byHeight[h]) == [] {
      DeleteKeepsBacking(backing, s.keys, k);
      SplitAfterDelete(s.keys, cut, low, k);
    }
  }

  // ---------------------------------------------------------------- what the loop gets to

  /** No dead block of this height is left. */
  ghost predicate Clean(c: Consensus, s: State, t: State, now: nat, h: nat)
    requires ValidConsensus(c)
  {
    forall b :: s.Stored(b) && b.height == h && Dead(c, s.depth, now, b) ==> b.id !in t.byId
  }

  /** Of the first n heights, each is clean or the one before it is. */
  ghost predicate Swept(c: Consensus, s: State, t: State, now: nat, n: nat)
    requires ValidConsensus(c)
  {
    n <= |s.keys| && forall i :: 0 <= i < n ==> SweptAt(c, s, t, now, i)
  }

  ghost predicate SweptAt(c: Consensus, s: State, t: State, now: nat, i: nat)
    requires ValidConsensus(c) && i < |s.keys|
  {
    Clean(c, s, t, now, s.keys[i]) || (i > 0 && Clean(c, s, t, now, s.keys[i - 1]))
  }

  /** From this index on, the keys are the original ones from n on. */
  ghost predicate Aligned(s0: State, s: State, index: nat, n: nat) {
    index <= |s.keys| && n <= |s0.keys| && s.keys[index..] == s0.keys[n..]
  }

  lemma PrunedIsClean(u: set<PoolBlock>, c: Consensus, s0: State, s: State, now: nat, k: nat)
    requires Inv(u, c, s) && k < |s.keys| && s.keys[k] in s.byHeight && OnlyForgets(s0, s)
    requires Kept(c, s.depth, now, s.byHeight[s.keys[k]]) == [] ==> k < |s.keys|
    ensures Clean(c, s0, PrunedAt(c, s, now, s.keys[k], k), now, s.keys[k])
  {
    var h, t := s.keys[k], PrunedAt(c, s, now, s.keys[k], k);
    forall b | s0.Stored(b) && b.height == h && Dead(c, s0.depth, now, b) ensures b.id !in t.byId {
      assert EntryOk(s, b.id);
      if s.Stored(b) {
        assert b in DeadIn(c, s.depth, now, s.byHeight[h]);
      }
    }
  }

  lemma StillClean(c: Consensus, s0: State, s: State, t: State, now: nat, h: nat)
    requires ValidConsensus(c) && OnlyForgets(s, t) && Clean(c, s0, s, now, h)
    ensures Clean(c, s0, t, now, h)
  {
  }

  lemma StillSwept(c: Consensus, s0: State, s: State, t: State, now: nat, n: nat)
    requires ValidConsensus(c) && Swept(c, s0, s, now, n) && OnlyForgets(s, t)
    ensures Swept(c, s0, t, now, n)
  {
    forall i | 0 <= i < n ensures SweptAt(c, s0, t, now, i) {
      assert SweptAt(c, s0, s, now, i);
      if Clean(c, s0, s, now, s0.keys[i]) {
        StillClean(c, s0, s, t, now, s0.keys[i]);
      } else {
        StillClean(c, s0, s, t, now, s0.keys[i - 1]);
      }
    }
  }

  lemma SweptFurther(c: Consensus, s0: State, t: State, now: nat, n: nat)
    requires ValidConsensus(c) && Swept(c, s0, t, now, n) && n + 1 < |s0.keys| && Clean(c, s0, t, now, s0.keys[n])
    ensures Swept(c, s0, t, now, n + 1) && Swept(c, s0, t, now, n + 2)
  {
    assert SweptAt(c, s0, t, now, n) && SweptAt(c, s0, t, now, n + 1);
  }

  lemma AlignedStep(s0: State, s: State, k: nat, n: nat)
    requires Aligned(s0, s, k, n) && k + 1 < |s.keys|
    ensures n + 1 < |s0.keys| && s.keys[k] == s0.keys[n]
    ensures s.keys[k + 1..] == s0.keys[n + 1..] && Without(s.keys, k)[k + 1..] == s0.keys[n + 2..]
  {
    assert s.keys[k..][0] == s0.keys[n..][0];
    assert s.keys[k + 1..] == s.keys[k..][1..] && s0.keys[n + 1..] == s0.keys[n..][1..];
    assert s.keys[k + 2..] == s.keys[k..][2..] && s0.keys[n + 2..] == s0.keys[n..][2..];
    assert Without(s.keys, k)[k + 1..] == s.keys[k + 2..];
  }

  /** When a height is emptied, the loop skips the next one. */
  lemma SweepStep(u: set<PoolBlock>, c: Consensus, s0: State, s: State, now: nat, cut: nat, backing: seq<nat>, k: nat,
                  low: nat, n: nat)
    requires PruneLoop(u, c, s0, s, now, cut, backing, k, low) && k < |backing| && backing[k] <= cut
    requires Swept(c, s0, s, now, n) && Aligned(s0, s, k, n)
    requires k < |s.keys| && backing[k] == s.keys[k] && backing[k] in s.byHeight && k + 1 < |s.keys|
    ensures var t := PrunedAt(c, s, now, backing[k], k);
      var n' := if Kept(c, s.depth, now, s.byHeight[backing[k]]) == [] then n + 2 else n + 1;
      Swept(c, s0, t, now, n') && Aligned(s0, t, k + 1, n')
  {
    var t := PrunedAt(c, s, now, backing[k], k);
    PruneRound(u, c, s, now, k, cut);
    PrunedIsClean(u, c, s0, s, now, k);
    StillSwept(c, s0, s, t, now, n);
    AlignedStep(s0, s, k, n);
    SweptFurther(c, s0, t, now, n);
  }

  /** The height is clean, or the stored height right below it is. */
  ghost predicate CleanOrNext(c: Consensus, s: State, t: State, now: nat, h: nat)
    requires ValidConsensus(c)
  {
    || Clean(c, s, t, now, h)
    || exists p :: p in s.byHeight && p < h && Clean(c, s, t, now, p) && NoneBetween(s, p, h)
  }

  ghost predicate NoneBetween(s: State, p: nat, h: nat) {
    forall q :: q in s.byHeight ==> q <= p || h <= q
  }

  /** The loop stops above the cut, so everything up to it was passed. */
  lemma SweptToCut(c: Consensus, s0: State, t: State, now: nat, cut: nat, n: nat, h: nat)
    requires ValidConsensus(c) && KeysOk(s0) && s0.keysSorted && Swept(c, s0, t, now, n)
    requires n == |s0.keys| || cut < s0.keys[n]
    requires h in s0.byHeight && h <= cut
    ensures CleanOrNext(c, s0, t, now, h)
  {
    var i :| 0 <= i < |s0.keys| && s0.keys[i] == h;
    assert SweptAt(c, s0, t, now, i);
    if !Clean(c, s0, t, now, h) {
      var p := s0.keys[i - 1];
      assert p in s0.keys && s0.keys[i - 1] < s0.keys[i];
      forall q | q in s0.byHeight ensures q <= p || h <= q {
        assert q in s0.keys;
        var j :| 0 <= j < |s0.keys| && s0.keys[j] == q;
      }
      assert NoneBetween(s0, p, h);
    }
  }

  /** What one pass does: it forgets only dead blocks at or below the cut, and of two neighbouring
      heights there at least one is clean afterwards. */
  ghost predicate Prunes(c: Consensus, s: State, t: State, now: nat, cut: nat)
    requires ValidConsensus(c)
  {
    && OnlyForgets(s, t)
    && OnlyDeadGo(c, s, t, now, cut)
    && (forall h :: h in s.byHeight && h <= cut ==> CleanOrNext(c, s, t, now, h))
  }

  /** The block is at least two windows and two minutes of blocks deep, or was received at least four windows
      of time ago. */
  predicate Outdated(c: Consensus, s: State, now: nat, b: PoolBlock)
    requires ValidConsensus(c)
  {
    || DepthOf(s.depth, b) >= 2 * c.chainWindowSize + 120 / c.targetBlockTime
    || now >= b.localTimestamp + 4 * c.chainWindowSize * c.targetBlockTime
  }

  lemma DeadMeaning(c: Consensus, s: State, now: nat, b: PoolBlock)
    requires ValidConsensus(c)
    ensures Dead(c, s.depth, now, b) <==> Outdated(c, s, now, b)
  {
    Regroup(c.chainWindowSize, c.targetBlockTime);
  }

  lemma Regroup(w: nat, t: nat)
    ensures w * 4 * t == 4 * w * t
  {
  }

  /** Pruning in plain numbers. What is forgotten is outdated and at least two windows and two minutes of blocks
      below the tip. Outdated blocks that far below stay only at a height right above one that has none left. */
  lemma PrunesMeaning(c: Consensus, s: State, t: State, now: nat, tip: nat)
    requires ValidConsensus(c) && tip >= PruneDistance(c) && IndexOk(s) && Prunes(c, s, t, now, tip - PruneDistance(c))
    ensures forall id :: id in s.byId && id !in t.byId ==>
      var b := s.byId[id];
      b.height + 2 * c.chainWindowSize + 120 / c.targetBlockTime <= tip && Outdated(c, s, now, b)
    ensures forall b :: s.Stored(b) && b.id in t.byId && Outdated(c, s, now, b)
                        && b.height + 2 * c.chainWindowSize + 120 / c.targetBlockTime <= tip ==>
      exists p :: p in s.byHeight && p < b.height && NoneLeft(c, s, t, now, p) && NoneBetween(s, p, b.height)
  {
    forall id | id in s.byId && id !in t.byId
      ensures s.byId[id].height + 2 * c.chainWindowSize + 120 / c.targetBlockTime <= tip
        && Outdated(c, s, now, s.byId[id])
    {
      DeadMeaning(c, s, now, s.byId[id]);
    }
    forall b | s.Stored(b) && b.id in t.byId && Outdated(c, s, now, b)
               && b.height + 2 * c.chainWindowSize + 120 / c.targetBlockTime <= tip
      ensures exists p :: p in s.byHeight && p < b.height && NoneLeft(c, s, t, now, p) && NoneBetween(s, p, b.height)
    {
      LeftBehind(c, s, t, now, tip - PruneDistance(c), b);
    }
  }

  /** No outdated block of this height is left. */
  ghost predicate NoneLeft(c: Consensus, s: State, t: State, now: nat, h: nat)
    requires ValidConsensus(c)
  {
    forall b :: s.Stored(b) && b.height == h && Outdated(c, s, now, b) ==> b.id !in t.byId
  }

  lemma LeftBehind(c: Consensus, s: State, t: State, now: nat, cut: nat, b: PoolBlock)
    requires ValidConsensus(c) && IndexOk(s) && Prunes(c, s, t, now, cut)
    requires s.Stored(b) && b.id in t.byId && Outdated(c, s, now, b) && b.height <= cut
    ensures exists p :: p in s.byHeight && p < b.height && NoneLeft(c, s, t, now, p) && NoneBetween(s, p, b.height)
  {
    DeadMeaning(c, s, now, b);
    assert EntryOk(s, b.id);
    assert CleanOrNext(c, s, t, now, b.height) && !Clean(c, s, t, now, b.height);
    var p :| p in s.byHeight && p < b.height && Clean(c, s, t, now, p) && NoneBetween(s, p, b.height);
    forall x | s.Stored(x) && x.height == p && Outdated(c, s, now, x) ensures x.id !in t.byId {
      DeadMeaning(c, s, now, x);
    }
    assert NoneLeft(c, s, t, now, p);
  }

  /** Neither the tip nor the order of the keys matters to what is pruned. */
  lemma PrunesAlike(c: Consensus, s: State, r: State, t: State, now: nat, cut: nat)
    requires ValidConsensus(c) && r.byId == s.byId && r.byHeight == s.byHeight && r.depth == s.depth
      && r.maxHeight == s.maxHeight
    requires Prunes(c, r, t, now, cut)
    ensures Prunes(c, s, t, now, cut)
  {
    forall h | h in s.byHeight && h <= cut ensures CleanOrNext(c, s, t, now, h) {
      assert CleanOrNext(c, r, t, now, h);
      assert Clean(c, r, t, now, h) ==> Clean(c, s, t, now, h);
      if !Clean(c, r, t, now, h) {
        var p :| p in r.byHeight && p < h && Clean(c, r, t, now, p) && NoneBetween(r, p, h);
        assert Clean(c, s, t, now, p) && NoneBetween(s, p, h);
      }
    }
  }
}
