/** The steps a side chain takes, each proved to keep the invariant of `ChainState`. */
module ChainSteps {
  import opened Blocks
  import opened Verification
  import opened ChainState
  import R = Retarget

  // ---------------------------------------------------------------- helpers

  lemma {:induction false} FoundUnclesGrow(st: Store, st': Store, ids: seq<Hash>)
    requires |FoundUncles(st, ids)| == |ids|
    requires forall id :: id in ids && id in st.byId ==> id in st'.byId && st'.byId[id] == st.byId[id]
    ensures FoundUncles(st', ids) == FoundUncles(st, ids)
  {
    if ids != [] {
      FoundUnclesLength(st, ids[1..]);
      FoundUnclesGrow(st, st', ids[1..]);
    }
  }

  lemma {:induction false} LinkChainShrinks(links: map<PoolBlock, IterationCache>,
                                            more: map<PoolBlock, IterationCache>, b: PoolBlock, n: nat)
    requires forall x :: x in links ==> x in more && more[x] == links[x]
    requires LinkChain(links, b, n)
    ensures LinkChain(more, b, n)
    decreases n
  {
    if n > 0 && b.height > 0 {
      LinkChainShrinks(links, more, links[b].parent, n - 1);
    }
  }

  /** A link added for a block that was not verified is on no chain from a verified block. */
  lemma {:induction false} LinkChainUntouched(s: State, x: PoolBlock, e: IterationCache, b: PoolBlock, n: nat)
    requires (forall y :: LinkOk(s, y)) && s.Valid(b) && x !in s.verified
    requires LinkChain(s.links[x := e], b, n)
    ensures LinkChain(s.links, b, n)
    decreases n
  {
    if n > 0 && b.height > 0 {
      assert LinkOk(s, b);
      LinkChainUntouched(s, x, e, s.links[b].parent, n - 1);
    }
  }

  // ---------------------------------------------------------------- adding a block

  function WithHeight(byHeight: map<nat, seq<PoolBlock>>, b: PoolBlock): map<nat, seq<PoolBlock>> {
    byHeight[b.height := if b.height in byHeight then byHeight[b.height] + [b] else [b]]
  }

  /** The new block enters all indexes. A block that was verified before it was pruned and now
      returns keeps its flags, but no longer counts as fully verified in place. */
  function Inserted(s: State, b: PoolBlock): State {
    var newHeight := b.height !in s.byHeight;
    s.(byId := s.byId[b.id := b],
       byHeight := WithHeight(s.byHeight, b),
       keys := if newHeight then s.keys + [b.height] else s.keys,
       keysSorted := s.keysSorted && (newHeight ==> s.keys != [] && s.keys[|s.keys| - 1] + 1 == b.height),
       depth := s.depth[b := DepthOf(s.depth, b)],
       links := s.links - {b},
       maxHeight := if b.height > s.maxHeight then b.height else s.maxHeight)
  }

  lemma InsertKeepsIndex(s: State, b: PoolBlock)
    requires IndexOk(s) && b.id !in s.byId
    ensures IndexOk(Inserted(s, b))
  {
    var t := Inserted(s, b);
    assert t.Known() == s.Known() + {b};
    forall id ensures EntryOk(t, id) {
      assert EntryOk(s, id);
    }
    forall h ensures HeightOk(t, h) {
      InsertKeepsHeight(s, b, h);
    }
  }

  lemma InsertKeepsHeight(s: State, b: PoolBlock, h: nat)
    requires HeightOk(s, h) && b.id !in s.byId
    ensures HeightOk(Inserted(s, b), h)
  {
    var t := Inserted(s, b);
    if h in s.byHeight {
      assert b !in s.byHeight[h];
    }
  }

  lemma InsertKeepsLinks(u: set<PoolBlock>, c: Consensus, s: State, b: PoolBlock)
    requires Sound(u, c, s) && b.id !in s.byId && b in u
    ensures var t := Inserted(s, b); LinksOk(c, t) && forall x :: CacheOk(t, x)
  {
    var t := Inserted(s, b);
    assert t.Known() == s.Known() + {b};
    forall x ensures LinkOk(t, x) {
      assert LinkOk(s, x);
    }
    forall x ensures GenesisVerified(c, t, x) {
      assert GenesisVerified(c, s, x);
    }
    forall x ensures CacheOk(t, x) {
      assert CacheOk(s, x);
    }
  }

  lemma InsertKeepsWalks(s: State, b: PoolBlock)
    requires b.id !in s.byId
    ensures Keeps(s, Inserted(s, b), -1)
  {
    var t := Inserted(s, b);
    forall x ensures KeepsAt(s, t, -1, x) {
      if x !in s.cache && UnclesFound(s.Store(), x) && x.uncles != [] {
        FoundUnclesGrow(s.Store(), t.Store(), x.uncles);
      }
    }
  }

  lemma InsertOk(u: set<PoolBlock>, c: Consensus, s: State, b: PoolBlock)
    requires Inv(u, c, s) && b.id !in s.byId && b in u
    ensures Inv(u, c, Inserted(s, b))
  {
    var t := Inserted(s, b);
    assert t.Known() == s.Known() + {b};
    InsertKeepsIndex(s, b);
    InsertKeepsLinks(u, c, s, b);
    InsertKeepsWalks(s, b);
    if s.tip.Some? && LinkChain(t.links, s.tip.value, c.chainWindowSize) {
      LinkChainShrinks(t.links, s.links, s.tip.value, c.chainWindowSize);
    }
    DifficultyKept(u, c, s, t, -1);
  }

  // ---------------------------------------------------------------- verdicts

  /** The cache entry that `verifyLoop` fills in: none if parent or an uncle is missing. */
  function CacheEntry(st: Store, b: PoolBlock): Option<IterationCache> {
    var p, us := GetParent(st, b), FoundUncles(st, b.uncles);
    if p.None? || |us| != |b.uncles| then None else Some(IterationCache(p.value, us))
  }

  /** The verdict came from the full set of rules. */
  predicate FullyChecked(c: Consensus, s: State, b: PoolBlock) {
    b.height > 0 && !Skipped(c, DepthOf(s.depth, b))
  }

  function AcceptedIn(c: Consensus, s: State, b: PoolBlock): State {
    var e := CacheEntry(s.Store(), b);
    s.(verified := s.verified + {b},
       cache := if e.Some? then s.cache[b := e.value] else s.cache,
       links := if e.Some? && FullyChecked(c, s, b) then s.links[b := e.value] else s.links)
  }

  function RejectedIn(s: State, b: PoolBlock): State {
    s.(verified := s.verified + {b}, invalid := s.invalid + {b})
  }

  lemma RejectOk(u: set<PoolBlock>, c: Consensus, s: State, b: PoolBlock)
    requires Inv(u, c, s) && b in s.Known() && b !in s.verified
    ensures Inv(u, c, RejectedIn(s, b))
  {
    var t := RejectedIn(s, b);
    forall id ensures EntryOk(t, id) { assert EntryOk(s, id); }
    forall h ensures HeightOk(t, h) { assert HeightOk(s, h); }
    forall x ensures LinkOk(t, x) { assert LinkOk(s, x); }
    forall x ensures GenesisVerified(c, t, x) { assert GenesisVerified(c, s, x); }
    forall x ensures CacheOk(t, x) { assert CacheOk(s, x); }
  }

  // what an accepting verdict means

  lemma {:induction false} AcceptedUncle(v: View, b: PoolBlock, parent: PoolBlock, ids: seq<Hash>, i: nat)
    requires UnclesVerdict(v, b, parent, ids) == Accepted && i < |ids|
    ensures UncleVerdict(v, b, parent, ids[i]) == Accepted
    decreases |ids|
  {
    if i < |ids| - 1 {
      AcceptedUncle(v, b, parent, ids[..|ids| - 1], i);
    }
  }

  lemma {:induction false} AllFound(st: Store, ids: seq<Hash>)
    requires forall i :: 0 <= i < |ids| ==> ids[i] in st.byId
    ensures |FoundUncles(st, ids)| == |ids|
    ensures forall i :: 0 <= i < |ids| ==> FoundUncles(st, ids)[i] == st.byId[ids[i]]
  {
    if ids != [] {
      AllFound(st, ids[1..]);
    }
  }

  /** An accepted, fully checked block has parent and uncles stored and valid. */
  lemma AcceptedFollows(u: set<PoolBlock>, env: Env, s: State, b: PoolBlock)
    requires Sound(u, env.c, s) && b in s.Known() && b !in s.verified
    requires VerdictOf(env, s.View(), b) == Accepted && FullyChecked(env.c, s, b)
    ensures CacheEntry(s.Store(), b).Some?
    ensures var e := CacheEntry(s.Store(), b).value;
      && Names(s.Known(), b, e)
      && s.Stored(e.parent)
      && s.Valid(e.parent)
      && (forall x :: x in e.uncles ==> s.Valid(x))
      && Follows(b, e)
      && UnclesVerdict(s.View(), b, e.parent, b.uncles) == Accepted
  {
    assert CacheOk(s, b) && EntryOk(s, b.parent);
    var p := GetParent(s.Store(), b).value;
    var v := s.View();
    forall i | 0 <= i < |b.uncles|
      ensures b.uncles[i] in s.byId
      ensures s.Valid(s.byId[b.uncles[i]]) && UncleHeightOk(b, s.byId[b.uncles[i]])
      ensures s.byId[b.uncles[i]].id == b.uncles[i] && s.byId[b.uncles[i]] in s.Known()
    {
      AcceptedUncle(v, b, p, b.uncles, i);
      assert EntryOk(s, b.uncles[i]);
    }
    AllFound(s.Store(), b.uncles);
  }

  /** The first two ancestors and their uncles count as mined, and so does the third if stored. */
  lemma MinedCovers(st: Store, p: PoolBlock, n: nat, g: PoolBlock, id: Hash)
    requires n >= 2 && GetParent(st, p) == Some(g)
    requires id == p.id || id in p.uncles || id == g.id || id in g.uncles
      || (n >= 3 && GetParent(st, g).Some? && id == GetParent(st, g).value.id)
    ensures id in Mined(st, Some(p), n)
  {
    var second := Mined(st, Some(g), n - 1);
    assert Mined(st, Some(p), n) == [p.id] + p.uncles + second;
    assert second == [g.id] + g.uncles + Mined(st, GetParent(st, g), n - 2);
    if n >= 3 && GetParent(st, g).Some? {
      assert GetParent(st, g).value.id in Mined(st, GetParent(st, g), n - 2);
    }
  }

  lemma MinedCoversParent(st: Store, p: PoolBlock, n: nat, id: Hash)
    requires n >= 1 && (id == p.id || id in p.uncles)
    ensures id in Mined(st, Some(p), n)
  {
    assert Mined(st, Some(p), n) == [p.id] + p.uncles + Mined(st, GetParent(st, p), n - 1);
  }

  /** The number of ancestors `verifyBlock` looks at. */
  function MinedDepth(b: PoolBlock): nat {
    if b.height + 1 < UNCLE_BLOCK_DEPTH then b.height + 1 else UNCLE_BLOCK_DEPTH
  }

  lemma AcceptedNotMined(v: View, b: PoolBlock, p: PoolBlock, x: Hash)
    requires UnclesVerdict(v, b, p, b.uncles) == Accepted && x in b.uncles
    ensures x !in Mined(v.store, Some(p), MinedDepth(b)) && x in v.store.byId
  {
    var i :| 0 <= i < |b.uncles| && b.uncles[i] == x;
    AcceptedUncle(v, b, p, b.uncles, i);
  }

  lemma NotMinedBelow(u: set<PoolBlock>, c: Consensus, s: State, b: PoolBlock, p: PoolBlock, x: Hash)
    requires Sound(u, c, s) && s.Stored(p) && p in s.links && p.height + 1 == b.height
    requires x !in Mined(s.Store(), Some(p), MinedDepth(b)) && x in s.byId
    ensures var g := s.links[p].parent; x != p.parent && x !in g.uncles && x != g.parent
  {
    var g := s.links[p].parent;
    assert LinkOk(s, p);
    assert GetParent(s.Store(), p) == Some(g);
    if x == p.parent || x in g.uncles || x == g.parent {
      assert CacheOk(s, g) && EntryOk(s, x);
      MinedCovers(s.Store(), p, MinedDepth(b), g, x);
    }
  }

  /** None of the accepted uncles was mined before. */
  lemma AcceptedFresh(u: set<PoolBlock>, c: Consensus, s: State, b: PoolBlock, p: PoolBlock)
    requires Sound(u, c, s) && s.Stored(p) && p.id == b.parent && p.height + 1 == b.height
    requires UnclesVerdict(s.View(), b, p, b.uncles) == Accepted
    ensures FreshUncles(s.links, b, p)
  {
    forall x | x in b.uncles ensures x != b.parent && x !in p.uncles {
      AcceptedNotMined(s.View(), b, p, x);
      if x == b.parent || x in p.uncles {
        MinedCoversParent(s.Store(), p, MinedDepth(b), x);
      }
    }
    if p in s.links {
      var g := s.links[p].parent;
      forall x | x in b.uncles ensures x != p.parent && x !in g.uncles && x != g.parent {
        AcceptedNotMined(s.View(), b, p, x);
        NotMinedBelow(u, c, s, b, p, x);
      }
    }
  }

  lemma AcceptKeepsLinks(u: set<PoolBlock>, env: Env, s: State, b: PoolBlock)
    requires Sound(u, env.c, s) && b in s.Known() && b !in s.verified && VerdictOf(env, s.View(), b) == Accepted
    ensures LinksOk(env.c, AcceptedIn(env.c, s, b))
  {
    assert LinkOk(s, b);
    if FullyChecked(env.c, s, b) {
      AcceptedFollows(u, env, s, b);
      AcceptedFresh(u, env.c, s, b, CacheEntry(s.Store(), b).value.parent);
      NewLinkOk(env.c, s, b, CacheEntry(s.Store(), b).value);
    }
    forall x ensures LinkOk(AcceptedIn(env.c, s, b), x) {
      if x != b {
        OtherLinkOk(env.c, s, b, x);
      }
    }
    AcceptKeepsGenesis(env, s, b);
  }

  lemma OtherLinkOk(c: Consensus, s: State, b: PoolBlock, x: PoolBlock)
    requires (forall y :: LinkOk(s, y)) && b !in s.verified && x != b
    ensures LinkOk(AcceptedIn(c, s, b), x)
  {
    assert LinkOk(s, x) && LinkOk(s, b);
  }

  lemma NewLinkOk(c: Consensus, s: State, b: PoolBlock, e: IterationCache)
    requires (forall y :: LinkOk(s, y)) && b !in s.verified && b !in s.invalid && FullyChecked(c, s, b)
    requires CacheEntry(s.Store(), b) == Some(e) && Names(s.Known(), b, e) && Follows(b, e)
      && FreshUncles(s.links, b, e.parent)
    requires s.Valid(e.parent) && forall x :: x in e.uncles ==> s.Valid(x)
    ensures LinkOk(AcceptedIn(c, s, b), b)
  {
  }

  lemma AcceptKeepsGenesis(env: Env, s: State, b: PoolBlock)
    requires (forall x :: GenesisVerified(env.c, s, x)) && VerdictOf(env, s.View(), b) == Accepted
    ensures forall x :: GenesisVerified(env.c, AcceptedIn(env.c, s, b), x)
  {
    forall x ensures GenesisVerified(env.c, AcceptedIn(env.c, s, b), x) {
      assert GenesisVerified(env.c, s, x);
    }
  }

  lemma EntryNames(u: set<PoolBlock>, c: Consensus, s: State, b: PoolBlock)
    requires Sound(u, c, s) && b in s.Known() && CacheEntry(s.Store(), b).Some?
    ensures Names(s.Known(), b, CacheEntry(s.Store(), b).value)
  {
    ParentIsNamed(u, c, s, b);
    var us := FoundUncles(s.Store(), b.uncles);
    forall i | 0 <= i < |us| ensures us[i].id == b.uncles[i] && us[i] in s.Known() {
      FoundUnclesNamed(s, b.uncles, i);
    }
  }

  lemma AcceptKeepsWalks(u: set<PoolBlock>, c: Consensus, s: State, b: PoolBlock)
    requires Sound(u, c, s) && b !in s.verified
    ensures Keeps(s, AcceptedIn(c, s, b), -1)
  {
    var t := AcceptedIn(c, s, b);
    assert CacheOk(s, b);
    forall x ensures KeepsAt(s, t, -1, x) {
      if x !in s.cache && UnclesFound(s.Store(), x) && x.uncles != [] {
        FoundUnclesGrow(s.Store(), t.Store(), x.uncles);
      }
    }
  }

  lemma AcceptOk(u: set<PoolBlock>, env: Env, s: State, b: PoolBlock)
    requires Inv(u, env.c, s) && b in s.Known() && b !in s.verified && VerdictOf(env, s.View(), b) == Accepted
    ensures Inv(u, env.c, AcceptedIn(env.c, s, b))
  {
    var t, e := AcceptedIn(env.c, s, b), CacheEntry(s.Store(), b);
    forall id ensures EntryOk(t, id) { assert EntryOk(s, id); }
    forall h ensures HeightOk(t, h) { assert HeightOk(s, h); }
    AcceptKeepsLinks(u, env, s, b);
    if e.Some? {
      EntryNames(u, env.c, s, b);
    }
    forall x ensures CacheOk(t, x) { assert CacheOk(s, x); }
    AcceptKeepsWalks(u, env.c, s, b);
    if s.tip.Some? && LinkChain(t.links, s.tip.value, env.c.chainWindowSize) && t.links != s.links {
      LinkChainUntouched(s, b, e.value, s.tip.value, env.c.chainWindowSize);
    }
    DifficultyKept(u, env.c, s, t, -1);
  }

  // ---------------------------------------------------------------- depths and tip

  function RaisedIn(s: State, b: PoolBlock, d: nat): State {
    s.(depth := s.depth[b := d])
  }

  lemma RaiseOk(u: set<PoolBlock>, c: Consensus, s: State, b: PoolBlock, d: nat)
    requires Inv(u, c, s) && b in s.Known() && b.height + d <= s.maxHeight
    ensures Inv(u, c, RaisedIn(s, b, d)) && RaisedIn(s, b, d).Known() == s.Known()
  {
    var t := RaisedIn(s, b, d);
    assert t.Known() == s.Known();
    forall id ensures EntryOk(t, id) { assert EntryOk(s, id); }
    forall h ensures HeightOk(t, h) { assert HeightOk(s, h); }
    forall x ensures LinkOk(t, x) { assert LinkOk(s, x); }
    forall x ensures GenesisVerified(c, t, x) { assert GenesisVerified(c, s, x); }
    forall x ensures CacheOk(t, x) { assert CacheOk(s, x); }
  }

  function TipIn(s: State, b: PoolBlock, d: nat): State {
    s.(tip := Some(b), currentDifficulty := d)
  }

  lemma TipOk(u: set<PoolBlock>, c: Consensus, s: State, b: PoolBlock, d: nat)
    requires Inv(u, c, s) && s.Valid(b) && d != 0 && R.DifficultyAfter(s.Store(), c, b) == R.Difficulty(d)
    ensures Inv(u, c, TipIn(s, b, d))
  {
    var t := TipIn(s, b, d);
    forall id ensures EntryOk(t, id) { assert EntryOk(s, id); }
    forall h ensures HeightOk(t, h) { assert HeightOk(s, h); }
    forall x ensures LinkOk(t, x) { assert LinkOk(s, x); }
    forall x ensures GenesisVerified(c, t, x) { assert GenesisVerified(c, s, x); }
    forall x ensures CacheOk(t, x) { assert CacheOk(s, x); }
  }

  // ---------------------------------------------------------------- the shortcut on top of the tip

  lemma {:induction false} UnclesIgnoreTip(v: View, b: PoolBlock, p: PoolBlock, ids: seq<Hash>)
    ensures UnclesVerdict(v, b, p, ids) == UnclesVerdict(v.(tip := None), b, p, ids)
  {
    if ids != [] {
      UnclesIgnoreTip(v, b, p, ids[..|ids| - 1]);
    }
  }

  /** On top of a tip with a fully verified window, the cached difficulty is the recomputed one. */
  lemma CachedIsRecomputed(u: set<PoolBlock>, env: Env, s: State, p: PoolBlock)
    requires Inv(u, env.c, s) && (s.tip == Some(p) ==> LinkChain(s.links, p, env.c.chainWindowSize))
    ensures RequiredDifficulty(env, s.View(), p) == RequiredDifficulty(env, s.View().(tip := None), p)
  {
  }

  /** So no verdict depends on which block is the tip. */
  lemma VerdictIgnoresTip(u: set<PoolBlock>, env: Env, s: State, b: PoolBlock)
    requires Inv(u, env.c, s) && (s.tip.Some? ==> LinkChain(s.links, s.tip.value, env.c.chainWindowSize))
    ensures VerdictOf(env, s.View(), b) == VerdictOf(env, s.View().(tip := None), b)
  {
    var p := GetParent(s.Store(), b);
    if p.Some? {
      CachedIsRecomputed(u, env, s, p.value);
      ChildIgnoresTip(env, s.View(), b, p.value);
    }
    SameVerdict(env, s.View(), b);
  }

  lemma SameVerdict(env: Env, v: View, b: PoolBlock)
    requires var p := GetParent(v.store, b);
      p.Some? ==> ChildVerdict(env, v, b, p.value) == ChildVerdict(env, v.(tip := None), b, p.value)
    ensures VerdictOf(env, v, b) == VerdictOf(env, v.(tip := None), b)
  {
  }

  lemma ChildIgnoresTip(env: Env, v: View, b: PoolBlock, p: PoolBlock)
    requires RequiredDifficulty(env, v, p) == RequiredDifficulty(env, v.(tip := None), p)
    ensures ChildVerdict(env, v, b, p) == ChildVerdict(env, v.(tip := None), b, p)
  {
    UnclesIgnoreTip(v, b, p, b.uncles);
    WindowIgnoresTip(env, v, b, p);
  }

  lemma WindowIgnoresTip(env: Env, v: View, b: PoolBlock, p: PoolBlock)
    requires RequiredDifficulty(env, v, p) == RequiredDifficulty(env, v.(tip := None), p)
    ensures WindowVerdict(env, v, b, p) == WindowVerdict(env, v.(tip := None), b, p)
  {
  }
}
