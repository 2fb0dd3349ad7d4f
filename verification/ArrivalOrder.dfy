/** Which blocks are valid, defined on the set of all blocks alone, and why the chain arrives at
    exactly those whatever the order of arrival. */
module ArrivalOrder {
  import opened Blocks
  import opened Verification
  import opened ChainState
  import opened ChainSteps
  import opened Window
  import R = Retarget
  import F = ForkChoice

  /** Blocks few enough that no rule is skipped and nothing is pruned: all heights are below the
      window size. There is one object for every id. */
  ghost predicate Low(u: set<PoolBlock>, c: Consensus) {
    && (forall b :: b in u ==> b.height < c.chainWindowSize)
    && (forall a, b :: OneObject(u, a, b))
  }

  ghost predicate OneObject(u: set<PoolBlock>, a: PoolBlock, b: PoolBlock) {
    a in u && b in u && a.id == b.id ==> a == b
  }

  /** All blocks at once, with nothing cached. */
  ghost function FullStore(u: set<PoolBlock>): Blocks.Store {
    Blocks.Store(map b | b in u :: b.id := Pick(u, b.id), map[])
  }

  ghost function Pick(u: set<PoolBlock>, id: Hash): PoolBlock
    requires exists b :: b in u && b.id == id
  {
    var b :| b in u && b.id == id; b
  }

  lemma FullStoreFinds(u: set<PoolBlock>, c: Consensus, b: PoolBlock)
    requires Low(u, c) && b in u
    ensures b.id in FullStore(u).byId && FullStore(u).byId[b.id] == b
  {
    assert OneObject(u, b, Pick(u, b.id));
  }

  lemma FullStoreHolds(u: set<PoolBlock>, id: Hash)
    requires id in FullStore(u).byId
    ensures FullStore(u).byId[id] in u && FullStore(u).byId[id].id == id
  {
  }

  // ---------------------------------------------------------------- validity on the whole set

  ghost predicate UncleRules(u: set<PoolBlock>, b: PoolBlock, p: PoolBlock, x: PoolBlock) {
    && x.id != ZERO_HASH
    && UncleHeightOk(b, x)
    && x.id !in MinedBefore(FullStore(u), b, p)
    && SameChain(FullStore(u), b, p, x)
  }

  /** The rules between a block and a parent whose window is complete. */
  ghost predicate ParentRules(env: Env, u: set<PoolBlock>, b: PoolBlock, p: PoolBlock) {
    var st := FullStore(u);
    && b.parent != ZERO_HASH
    && p.height + 1 == b.height
    && SeedOk(p, b)
    && Ascending(b.uncles)
    && b.cumulative == CumulativeAfter(p, b, FoundUncles(st, b.uncles))
    && b.difficulty != 0
    && R.DifficultyAfter(st, env.c, p) == R.Difficulty(b.difficulty)
    && PayoutOk(env, b, PplnsWindow(st, env.c, b, env.difficultyByHeight))
  }

  /** A valid block is a correct genesis block, or follows all rules on top of a valid parent and
      includes only valid uncles. */
  ghost predicate DagValid(env: Env, u: set<PoolBlock>, b: PoolBlock)
    decreases b.height
  {
    var st := FullStore(u);
    && b in u
    && if b.height == 0 then GenesisOk(env.c, b)
       else
         && b.parent in st.byId
         && var p := st.byId[b.parent];
            && ParentRules(env, u, b, p)
            && DagValid(env, u, p)
            && (forall i :: 0 <= i < |b.uncles| ==>
                  && b.uncles[i] in st.byId
                  && var x := st.byId[b.uncles[i]];
                     UncleRules(u, b, p, x) && DagValid(env, u, x))
  }

  // ---------------------------------------------------------------- stores that walks cannot tell apart

  /** On the blocks of v both stores answer alike, and walks do not leave v. */
  ghost predicate TwinAt(st: Blocks.Store, st': Blocks.Store, v: set<PoolBlock>, b: PoolBlock) {
    b in v ==>
      && GetParent(st, b) == GetParent(st', b)
      && (GetParent(st, b).Some? ==> GetParent(st, b).value in v)
      && UnclesFound(st, b)
      && UnclesFound(st', b)
      && IteratedUncles(st, b) == IteratedUncles(st', b)
      && (b.height > 0 ==> GetParent(st, b).Some?)
  }

  ghost predicate Twin(st: Blocks.Store, st': Blocks.Store, v: set<PoolBlock>) {
    forall b :: TwinAt(st, st', v, b)
  }

  lemma {:induction false} TwinMined(st: Blocks.Store, st': Blocks.Store, v: set<PoolBlock>, cur: Option<PoolBlock>,
                                     n: nat)
    requires Twin(st, st', v) && (cur.Some? ==> cur.value in v)
    ensures Mined(st, cur, n) == Mined(st', cur, n)
    decreases n
  {
    if n > 0 && cur.Some? {
      assert TwinAt(st, st', v, cur.value);
      TwinMined(st, st', v, GetParent(st, cur.value), n - 1);
    }
  }

  lemma {:induction false} TwinDescend(st: Blocks.Store, st': Blocks.Store, v: set<PoolBlock>, b: Option<PoolBlock>,
                                       h: nat)
    requires Twin(st, st', v) && (b.Some? ==> b.value in v)
    ensures F.Descend(st, b, h) == F.Descend(st', b, h)
    ensures F.Descend(st, b, h).Some? ==> F.Descend(st, b, h).value in v
    decreases if b.Some? then b.value.rank + 1 else 0
  {
    if b.Some? && b.value.height > h {
      assert TwinAt(st, st', v, b.value);
      TwinDescend(st, st', v, Below(st, b.value), h);
    }
  }

  lemma {:induction false} TwinSiblings(st: Blocks.Store, st': Blocks.Store, v: set<PoolBlock>, x: Option<PoolBlock>,
                                        y: Option<PoolBlock>, h: nat, n: nat)
    requires Twin(st, st', v) && (x.Some? ==> x.value in v) && (y.Some? ==> y.value in v)
    ensures Siblings(st, x, y, h, n) == Siblings(st', x, y, h, n)
    decreases n
  {
    if n > 0 && x.Some? && y.Some? {
      assert TwinAt(st, st', v, x.value) && TwinAt(st, st', v, y.value);
      TwinSiblings(st, st', v, GetParent(st, x.value), GetParent(st, y.value), h, n - 1);
    }
  }

  lemma TwinSameChain(st: Blocks.Store, st': Blocks.Store, v: set<PoolBlock>, b: PoolBlock, p: PoolBlock, x: PoolBlock)
    requires Twin(st, st', v) && p in v && x in v
    ensures SameChain(st, b, p, x) == SameChain(st', b, p, x)
  {
    TwinDescend(st, st', v, Some(p), x.height);
    TwinSiblings(st, st', v, F.Descend(st, Some(p), x.height), Some(x), b.height, UNCLE_BLOCK_DEPTH);
  }

  /** Inside v a difficulty window is always complete, and the same in both stores. */
  lemma {:induction false} TwinCollect(st: Blocks.Store, st': Blocks.Store, v: set<PoolBlock>, c: Consensus,
                                       tip: PoolBlock, cur: PoolBlock, depth: nat)
    requires Twin(st, st', v) && cur in v
    ensures R.Collect(st, c, tip, cur, depth) == R.Collect(st', c, tip, cur, depth)
    ensures R.Collect(st, c, tip, cur, depth).Some?
    decreases c.chainWindowSize - depth
  {
    assert TwinAt(st, st', v, cur);
    if depth + 1 < c.chainWindowSize && cur.height != 0 {
      TwinCollect(st, st', v, c, tip, GetParent(st, cur).value, depth + 1);
    }
  }

  lemma TwinDifficulty(st: Blocks.Store, st': Blocks.Store, v: set<PoolBlock>, c: Consensus, tip: PoolBlock)
    requires Twin(st, st', v) && tip in v
    ensures R.DifficultyAfter(st, c, tip) == R.DifficultyAfter(st', c, tip)
    ensures !R.DifficultyAfter(st, c, tip).Missing?
  {
    TwinCollect(st, st', v, c, tip, tip, 0);
  }

  lemma {:induction false} TwinWalk(st: Blocks.Store, st': Blocks.Store, v: set<PoolBlock>, c: Consensus,
                                    tip: PoolBlock, cap: nat, cur: PoolBlock, depth: nat, total: nat)
    requires Twin(st, st', v) && cur in v
    ensures Walk(st, c, tip, cap, cur, depth, total) == Walk(st', c, tip, cap, cur, depth, total)
    decreases c.chainWindowSize - depth
  {
    assert TwinAt(st, st', v, cur);
    if depth + 1 < c.chainWindowSize && cur.height != 0 {
      var a := AddUncles(c, tip, cap, Acc(total, cur.difficulty, []), IteratedUncles(st, cur));
      TwinWalk(st, st', v, c, tip, cap, GetParent(st, cur).value, depth + 1, Add128(a.total, a.weight));
    }
  }

  lemma TwinWindow(st: Blocks.Store, st': Blocks.Store, v: set<PoolBlock>, c: Consensus, tip: PoolBlock,
                   difficultyByHeight: nat -> nat)
    requires Twin(st, st', v) && tip in v
    ensures PplnsWindow(st, c, tip, difficultyByHeight) == PplnsWindow(st', c, tip, difficultyByHeight)
  {
    TwinWalk(st, st', v, c, tip, Cap(tip, MainDifficulty(tip, difficultyByHeight)), tip, 0, 0);
  }

  // ---------------------------------------------------------------- a chain of low blocks

  ghost predicate LowAt(env: Env, u: set<PoolBlock>, s: State, b: PoolBlock) {
    && (b in s.Known() ==> s.Stored(b))
    && (s.Valid(b) ==> DagValid(env, u, b) && (b.height > 0 ==> b in s.links))
    && (b in s.invalid ==> !DagValid(env, u, b))
  }

  /** Nothing was pruned or skipped, and every verdict so far is the right one. */
  ghost predicate LowInv(env: Env, u: set<PoolBlock>, s: State) {
    && s.maxHeight < env.c.chainWindowSize
    && (forall b :: LowAt(env, u, s, b))
  }

  ghost predicate LowChain(env: Env, u: set<PoolBlock>, s: State) {
    Inv(u, env.c, s) && Low(u, env.c) && LowInv(env, u, s)
  }

  ghost function ValidSet(s: State): set<PoolBlock> { s.verified - s.invalid }

  lemma NothingHasEmptyId(env: Env, u: set<PoolBlock>, s: State)
    requires LowChain(env, u, s)
    ensures ZERO_HASH !in s.byId && ZERO_HASH !in FullStore(u).byId
  {
    assert EntryOk(s, ZERO_HASH);
    if ZERO_HASH in FullStore(u).byId {
      FullStoreHolds(u, ZERO_HASH);
    }
  }

  lemma GenesisTwin(env: Env, u: set<PoolBlock>, s: State, b: PoolBlock)
    requires LowChain(env, u, s) && s.Valid(b) && b.height == 0
    ensures TwinAt(s.Store(), FullStore(u), ValidSet(s), b)
  {
    assert GenesisVerified(env.c, s, b) && CacheOk(s, b);
    NothingHasEmptyId(env, u, s);
  }

  lemma NamedUnclesFound(env: Env, u: set<PoolBlock>, b: PoolBlock, us: seq<PoolBlock>)
    requires Low(u, env.c) && Ids(us) == b.uncles && forall x :: x in us ==> x in u
    ensures FoundUncles(FullStore(u), b.uncles) == us
  {
    forall i | 0 <= i < |us| ensures b.uncles[i] in FullStore(u).byId && FullStore(u).byId[b.uncles[i]] == us[i] {
      assert us[i] in us && Ids(us)[i] == us[i].id;
      FullStoreFinds(u, env.c, us[i]);
    }
    AllFound(FullStore(u), b.uncles);
  }

  lemma LinkedTwin(env: Env, u: set<PoolBlock>, s: State, b: PoolBlock)
    requires LowChain(env, u, s) && s.Valid(b) && b.height > 0
    ensures TwinAt(s.Store(), FullStore(u), ValidSet(s), b)
  {
    assert LowAt(env, u, s, b) && LinkOk(s, b);
    var e := s.links[b];
    FullStoreFinds(u, env.c, e.parent);
    NamedUnclesFound(env, u, b, e.uncles);
  }

  /** Seen from valid blocks, the store is as good as the set of all blocks. */
  lemma ValidTwin(env: Env, u: set<PoolBlock>, s: State)
    requires LowChain(env, u, s)
    ensures Twin(s.Store(), FullStore(u), ValidSet(s))
  {
    forall b ensures TwinAt(s.Store(), FullStore(u), ValidSet(s), b) {
      if s.Valid(b) {
        if b.height == 0 {
          GenesisTwin(env, u, s, b);
        } else {
          LinkedTwin(env, u, s, b);
        }
      }
    }
  }

  /** The parent and all uncles are stored, valid and at fitting heights. */
  ghost predicate Ready(s: State, b: PoolBlock) {
    b.height == 0
    || (&& b.parent in s.byId
        && s.Valid(s.byId[b.parent])
        && s.byId[b.parent].height + 1 == b.height
        && forall i :: 0 <= i < |b.uncles| ==> UncleReady(s, b, b.uncles[i]))
  }

  ghost predicate UncleReady(s: State, b: PoolBlock, id: Hash) {
    id in s.byId && s.Valid(s.byId[id]) && UncleHeightOk(b, s.byId[id])
  }

  /** Once its parent and uncles are valid, a block's own walks are as good as on all blocks. */
  lemma ReadyTwin(env: Env, u: set<PoolBlock>, s: State, b: PoolBlock)
    requires LowChain(env, u, s) && b in s.Known() && b !in s.verified && Ready(s, b) && b.height > 0
    ensures Twin(s.Store(), FullStore(u), ValidSet(s) + {b})
    ensures FoundUncles(FullStore(u), b.uncles) == FoundUncles(s.Store(), b.uncles)
    ensures |FoundUncles(s.Store(), b.uncles)| == |b.uncles|
  {
    ValidTwin(env, u, s);
    var v := ValidSet(s);
    var us := FoundUncles(s.Store(), b.uncles);
    assert CacheOk(s, b) && EntryOk(s, b.parent);
    FullStoreFinds(u, env.c, s.byId[b.parent]);
    forall i | 0 <= i < |b.uncles|
      ensures b.uncles[i] in s.byId && s.byId[b.uncles[i]].id == b.uncles[i] && s.byId[b.uncles[i]] in u
    {
      assert UncleReady(s, b, b.uncles[i]) && EntryOk(s, b.uncles[i]);
    }
    AllFound(s.Store(), b.uncles);
    assert Ids(us) == b.uncles;
    NamedUnclesFound(env, u, b, us);
    forall x ensures TwinAt(s.Store(), FullStore(u), v + {b}, x) {
      assert TwinAt(s.Store(), FullStore(u), v, x);
    }
  }

  /** A verdict on an uncle that is there agrees with the rules on the set of all blocks. */
  lemma UncleAgrees(env: Env, u: set<PoolBlock>, s: State, b: PoolBlock, p: PoolBlock, x: PoolBlock)
    requires LowChain(env, u, s) && s.Valid(p) && s.Stored(x) && s.Valid(x)
    ensures UncleVerdict(s.View(), b, p, x.id) == if UncleRules(u, b, p, x) then Accepted else Rejected
  {
    ValidTwin(env, u, s);
    TwinMined(s.Store(), FullStore(u), ValidSet(s), Some(p), MinedDepth(b));
    TwinSameChain(s.Store(), FullStore(u), ValidSet(s), b, p, x);
  }

  lemma LinkedParent(env: Env, u: set<PoolBlock>, s: State, b: PoolBlock)
    requires LowChain(env, u, s) && s.Valid(b) && b.height > 0
    ensures b in s.links && s.Valid(s.links[b].parent)
  {
    assert LowAt(env, u, s, b) && LinkOk(s, b);
  }

  lemma {:induction false} AllLinked(env: Env, u: set<PoolBlock>, s: State, b: PoolBlock, n: nat)
    requires LowChain(env, u, s) && s.Valid(b)
    ensures LinkChain(s.links, b, n)
    decreases n
  {
    if n > 0 && b.height > 0 {
      LinkedParent(env, u, s, b);
      AllLinked(env, u, s, s.links[b].parent, n - 1);
    }
  }

  /** The fast path for blocks on top of the tip decides as the slow one. */
  lemma FastPathAgrees(env: Env, u: set<PoolBlock>, s: State, p: PoolBlock)
    requires LowChain(env, u, s) && s.Valid(p)
    ensures var r := R.DifficultyAfter(FullStore(u), env.c, p);
      && !r.Missing?
      && RequiredDifficulty(env, s.View(), p) == if r == R.Difficulty(0) then R.Overflow else r
  {
    ValidTwin(env, u, s);
    TwinDifficulty(s.Store(), FullStore(u), ValidSet(s), env.c, p);
    if s.tip == Some(p) {
      AllLinked(env, u, s, p, env.c.chainWindowSize);
    }
  }

  // ---------------------------------------------------------------- verdicts are right

  lemma NeverDeep(env: Env, u: set<PoolBlock>, s: State, b: PoolBlock)
    requires LowChain(env, u, s) && b in s.Known()
    ensures DepthOf(s.depth, b) < env.c.chainWindowSize && !Skipped(env.c, DepthOf(s.depth, b))
    ensures b.height > 0 ==> FullyChecked(env.c, s, b)
  {
  }

  /** A stored block judged valid, with what its validity says about it. */
  lemma ValidIsDagValid(env: Env, u: set<PoolBlock>, s: State, b: PoolBlock)
    requires LowChain(env, u, s) && s.Valid(b)
    ensures DagValid(env, u, b)
  {
    assert LowAt(env, u, s, b);
  }

  lemma DagValidNotInvalid(env: Env, u: set<PoolBlock>, s: State, b: PoolBlock)
    requires LowChain(env, u, s) && DagValid(env, u, b)
    ensures b !in s.invalid
  {
    assert LowAt(env, u, s, b);
  }

  lemma AcceptedUncleIsReady(env: Env, s: State, b: PoolBlock, p: PoolBlock)
    requires UnclesVerdict(s.View(), b, p, b.uncles) == Accepted
    ensures forall i :: 0 <= i < |b.uncles| ==> UncleReady(s, b, b.uncles[i])
  {
    forall i | 0 <= i < |b.uncles| ensures UncleReady(s, b, b.uncles[i]) {
      AcceptedUncle(s.View(), b, p, b.uncles, i);
    }
  }

  /** What the verdict on a ready block comes down to. */
  lemma ReadyWindow(env: Env, u: set<PoolBlock>, s: State, b: PoolBlock, p: PoolBlock)
    requires LowChain(env, u, s) && b in s.Known() && b !in s.verified && Ready(s, b) && b.height > 0
    requires b.parent in s.byId && p == s.byId[b.parent]
    ensures WindowVerdict(env, s.View(), b, p)
      == if b.difficulty != 0 && R.DifficultyAfter(FullStore(u), env.c, p) == R.Difficulty(b.difficulty)
            && PayoutOk(env, b, PplnsWindow(FullStore(u), env.c, b, env.difficultyByHeight))
         then Accepted else Rejected
  {
    ReadyTwin(env, u, s, b);
    TwinWindow(s.Store(), FullStore(u), ValidSet(s) + {b}, env.c, b, env.difficultyByHeight);
    FastPathAgrees(env, u, s, p);
  }

  /** An unverified block finds its parent by lookup. */
  lemma ParentLookup(env: Env, u: set<PoolBlock>, s: State, b: PoolBlock)
    requires LowChain(env, u, s) && b in s.Known() && b !in s.verified
    ensures GetParent(s.Store(), b) == Lookup(s.Store(), b.parent)
    ensures b.parent in s.byId ==>
      var p := s.byId[b.parent];
      p in u && s.Stored(p) && p.id == b.parent && b.parent in FullStore(u).byId && FullStore(u).byId[b.parent] == p
  {
    assert CacheOk(s, b) && EntryOk(s, b.parent);
    if b.parent in s.byId {
      FullStoreFinds(u, env.c, s.byId[b.parent]);
    }
  }

  lemma UncleLookup(env: Env, u: set<PoolBlock>, s: State, id: Hash)
    requires LowChain(env, u, s) && id in s.byId
    ensures var x := s.byId[id];
      x in u && s.Stored(x) && x.id == id && id in FullStore(u).byId && FullStore(u).byId[id] == x
  {
    assert EntryOk(s, id);
    FullStoreFinds(u, env.c, s.byId[id]);
  }

  lemma AcceptedUnclesFollowRules(env: Env, u: set<PoolBlock>, s: State, b: PoolBlock, p: PoolBlock, i: nat)
    requires LowChain(env, u, s) && s.Valid(p) && UnclesVerdict(s.View(), b, p, b.uncles) == Accepted && i < |b.uncles|
    ensures b.uncles[i] in FullStore(u).byId
    ensures var x := FullStore(u).byId[b.uncles[i]]; UncleRules(u, b, p, x) && DagValid(env, u, x)
  {
    AcceptedUncle(s.View(), b, p, b.uncles, i);
    UncleLookup(env, u, s, b.uncles[i]);
    var x := s.byId[b.uncles[i]];
    UncleAgrees(env, u, s, b, p, x);
    ValidIsDagValid(env, u, s, x);
  }

  /** What is accepted is valid. */
  lemma AcceptedIsValid(env: Env, u: set<PoolBlock>, s: State, b: PoolBlock)
    requires LowChain(env, u, s) && b in s.Known() && b !in s.verified && VerdictOf(env, s.View(), b) == Accepted
    ensures DagValid(env, u, b)
  {
    NeverDeep(env, u, s, b);
    if b.height > 0 {
      ParentLookup(env, u, s, b);
      var p := s.byId[b.parent];
      AcceptedUncleIsReady(env, s, b, p);
      ReadyTwin(env, u, s, b);
      ReadyWindow(env, u, s, b, p);
      assert ParentRules(env, u, b, p);
      ValidIsDagValid(env, u, s, p);
      forall i | 0 <= i < |b.uncles|
        ensures b.uncles[i] in FullStore(u).byId
        ensures var x := FullStore(u).byId[b.uncles[i]]; UncleRules(u, b, p, x) && DagValid(env, u, x)
      {
        AcceptedUnclesFollowRules(env, u, s, b, p, i);
      }
    }
  }

  /** The id names a valid block that follows the rules for uncles. */
  ghost predicate NamesValidUncle(env: Env, u: set<PoolBlock>, b: PoolBlock, p: PoolBlock, id: Hash) {
    && id in FullStore(u).byId
    && var x := FullStore(u).byId[id]; x.id == id && UncleRules(u, b, p, x) && DagValid(env, u, x)
  }

  lemma {:induction false} NoneRejected(v: View, b: PoolBlock, p: PoolBlock, ids: seq<Hash>)
    requires forall i :: 0 <= i < |ids| ==> UncleVerdict(v, b, p, ids[i]) != Rejected
    ensures UnclesVerdict(v, b, p, ids) != Rejected
  {
    if ids != [] {
      NoneRejected(v, b, p, ids[..|ids| - 1]);
    }
  }

  lemma ValidUnclesNotRejected(env: Env, u: set<PoolBlock>, s: State, b: PoolBlock, p: PoolBlock, ids: seq<Hash>)
    requires LowChain(env, u, s) && s.Valid(p)
    requires forall i :: 0 <= i < |ids| ==> NamesValidUncle(env, u, b, p, ids[i])
    ensures UnclesVerdict(s.View(), b, p, ids) != Rejected
  {
    forall i | 0 <= i < |ids| ensures UncleVerdict(s.View(), b, p, ids[i]) != Rejected {
      assert NamesValidUncle(env, u, b, p, ids[i]);
      ValidUncleNotRejected(env, u, s, b, p, FullStore(u).byId[ids[i]]);
    }
    NoneRejected(s.View(), b, p, ids);
  }

  lemma UncleNotRejected(v: View, b: PoolBlock, p: PoolBlock, id: Hash)
    requires id != ZERO_HASH && id !in MinedBefore(v.store, b, p)
    requires id in v.store.byId && v.store.byId[id] in v.verified ==> UncleVerdict(v, b, p, id) == Accepted
    ensures UncleVerdict(v, b, p, id) != Rejected
  {
  }

  lemma ValidUncleNotMined(env: Env, u: set<PoolBlock>, s: State, b: PoolBlock, p: PoolBlock, x: PoolBlock)
    requires LowChain(env, u, s) && s.Valid(p) && UncleRules(u, b, p, x)
    ensures x.id != ZERO_HASH && x.id !in MinedBefore(s.Store(), b, p)
  {
    ValidTwin(env, u, s);
    TwinMined(s.Store(), FullStore(u), ValidSet(s), Some(p), MinedDepth(b));
  }

  lemma VerifiedUncleAccepted(env: Env, u: set<PoolBlock>, s: State, b: PoolBlock, p: PoolBlock, x: PoolBlock)
    requires LowChain(env, u, s) && s.Valid(p) && UncleRules(u, b, p, x) && DagValid(env, u, x)
    requires x.id in FullStore(u).byId && FullStore(u).byId[x.id] == x
    requires x.id in s.byId && s.byId[x.id] in s.verified
    ensures UncleVerdict(s.View(), b, p, x.id) == Accepted
  {
    UncleLookup(env, u, s, x.id);
    DagValidNotInvalid(env, u, s, x);
    UncleAgrees(env, u, s, b, p, x);
  }

  lemma ValidUncleNotRejected(env: Env, u: set<PoolBlock>, s: State, b: PoolBlock, p: PoolBlock, x: PoolBlock)
    requires LowChain(env, u, s) && s.Valid(p) && UncleRules(u, b, p, x) && DagValid(env, u, x)
    requires x.id in FullStore(u).byId && FullStore(u).byId[x.id] == x
    ensures UncleVerdict(s.View(), b, p, x.id) != Rejected
  {
    ValidUncleNotMined(env, u, s, b, p, x);
    if x.id in s.byId && s.byId[x.id] in s.verified {
      VerifiedUncleAccepted(env, u, s, b, p, x);
    }
    UncleNotRejected(s.View(), b, p, x.id);
  }

  /** What is valid is not rejected. */
  lemma ValidIsNotRejected(env: Env, u: set<PoolBlock>, s: State, b: PoolBlock)
    requires LowChain(env, u, s) && b in s.Known() && b !in s.verified && DagValid(env, u, b)
    ensures VerdictOf(env, s.View(), b) != Rejected
  {
    NeverDeep(env, u, s, b);
    if b.height > 0 {
      ParentLookup(env, u, s, b);
      if b.parent in s.byId && s.byId[b.parent] in s.verified {
        var p := s.byId[b.parent];
        DagValidNotInvalid(env, u, s, p);
        forall i | 0 <= i < |b.uncles| ensures NamesValidUncle(env, u, b, p, b.uncles[i]) {
          FullStoreHolds(u, b.uncles[i]);
        }
        ValidUnclesNotRejected(env, u, s, b, p, b.uncles);
        if UnclesVerdict(s.View(), b, p, b.uncles) == Accepted {
          AcceptedUncleIsReady(env, s, b, p);
          ReadyTwin(env, u, s, b);
          ReadyWindow(env, u, s, b, p);
        }
      }
    }
  }

  lemma {:induction false} ReadyUnclesDecided(s: State, b: PoolBlock, p: PoolBlock, ids: seq<Hash>)
    requires forall i :: 0 <= i < |ids| ==> UncleReady(s, b, ids[i])
    ensures UnclesVerdict(s.View(), b, p, ids) != Waiting
    decreases |ids|
  {
    if ids != [] {
      ReadyUnclesDecided(s, b, p, ids[..|ids| - 1]);
      assert UncleReady(s, b, ids[|ids| - 1]);
    }
  }

  lemma NotWaiting(env: Env, v: View, b: PoolBlock, p: PoolBlock)
    requires b.height > 0 && GetParent(v.store, b) == Some(p) && p in v.verified
    requires UnclesVerdict(v, b, p, b.uncles) != Waiting && WindowVerdict(env, v, b, p) != Waiting
    ensures VerdictOf(env, v, b) != Waiting
  {
  }

  /** A ready block gets a verdict. */
  lemma ReadyIsDecided(env: Env, u: set<PoolBlock>, s: State, b: PoolBlock)
    requires LowChain(env, u, s) && b in s.Known() && b !in s.verified && Ready(s, b)
    ensures VerdictOf(env, s.View(), b) != Waiting
  {
    NeverDeep(env, u, s, b);
    if b.height > 0 {
      ParentLookup(env, u, s, b);
      ReadyUnclesDecided(s, b, s.byId[b.parent], b.uncles);
      ReadyWindow(env, u, s, b, s.byId[b.parent]);
      NotWaiting(env, s.View(), b, s.byId[b.parent]);
    }
  }

  // ---------------------------------------------------------------- steps

  lemma LowInsert(env: Env, u: set<PoolBlock>, s: State, b: PoolBlock)
    requires LowChain(env, u, s) && b in u && b.id !in s.byId
    ensures LowInv(env, u, Inserted(s, b)) && b !in s.Known()
  {
    var t := Inserted(s, b);
    assert LowAt(env, u, s, b) && LinkOk(s, b);
    assert t.Known() == s.Known() + {b};
    forall x ensures LowAt(env, u, t, x) {
      assert LowAt(env, u, s, x);
    }
  }

  /** One more valid block. */
  lemma LowAtAfterAccept(env: Env, u: set<PoolBlock>, s: State, t: State, b: PoolBlock, x: PoolBlock)
    requires LowAt(env, u, s, x) && t.Known() == s.Known() && t.byId == s.byId && t.invalid == s.invalid
    requires t.verified == s.verified + {b} && (forall y :: y in s.links ==> y in t.links)
    requires DagValid(env, u, b) && (b.height > 0 ==> b in t.links)
    ensures LowAt(env, u, t, x)
  {
  }

  lemma LowAccept(env: Env, u: set<PoolBlock>, s: State, b: PoolBlock)
    requires LowChain(env, u, s) && b in s.Known() && b !in s.verified && VerdictOf(env, s.View(), b) == Accepted
    ensures LowInv(env, u, AcceptedIn(env.c, s, b))
  {
    AcceptedIsValid(env, u, s, b);
    AcceptedIsLinked(env, u, s, b);
    LowAfterAccept(env, u, s, b);
  }

  lemma LowAfterAccept(env: Env, u: set<PoolBlock>, s: State, b: PoolBlock)
    requires LowInv(env, u, s) && DagValid(env, u, b) && (b.height > 0 ==> b in AcceptedIn(env.c, s, b).links)
    ensures LowInv(env, u, AcceptedIn(env.c, s, b))
  {
    var t := AcceptedIn(env.c, s, b);
    forall x ensures LowAt(env, u, t, x) {
      assert LowAt(env, u, s, x);
      LowAtAfterAccept(env, u, s, t, b, x);
    }
  }

  lemma AcceptedIsLinked(env: Env, u: set<PoolBlock>, s: State, b: PoolBlock)
    requires LowChain(env, u, s) && b in s.Known() && b !in s.verified && VerdictOf(env, s.View(), b) == Accepted
    ensures b.height > 0 ==> b in AcceptedIn(env.c, s, b).links
  {
    NeverDeep(env, u, s, b);
    if b.height > 0 {
      AcceptedFollows(u, env, s, b);
    }
  }

  /** One more invalid block. */
  lemma LowAtAfterReject(env: Env, u: set<PoolBlock>, s: State, b: PoolBlock, x: PoolBlock)
    requires LowAt(env, u, s, x) && !DagValid(env, u, b)
    ensures LowAt(env, u, RejectedIn(s, b), x)
  {
  }

  lemma LowReject(env: Env, u: set<PoolBlock>, s: State, b: PoolBlock)
    requires LowChain(env, u, s) && b in s.Known() && b !in s.verified && VerdictOf(env, s.View(), b) == Rejected
    ensures LowInv(env, u, RejectedIn(s, b))
  {
    if DagValid(env, u, b) {
      ValidIsNotRejected(env, u, s, b);
    }
    forall x ensures LowAt(env, u, RejectedIn(s, b), x) {
      assert LowAt(env, u, s, x);
      LowAtAfterReject(env, u, s, b, x);
    }
  }

  /** Depths, tip and cached difficulty do not matter to verdicts already given. */
  lemma LowUnaffected(env: Env, u: set<PoolBlock>, s: State, t: State)
    requires LowInv(env, u, s) && t.Known() == s.Known() && t.maxHeight == s.maxHeight
    requires t.byId == s.byId && t.verified == s.verified && t.invalid == s.invalid && t.links == s.links
    ensures LowInv(env, u, t)
  {
    forall x ensures LowAt(env, u, t, x) {
      assert LowAt(env, u, s, x);
    }
  }

  /** Every stored block that is ready but has no verdict is in `rest`. */
  ghost predicate Pending(s: State, rest: set<PoolBlock>) {
    forall b :: PendingAt(s, rest, b)
  }

  ghost predicate PendingAt(s: State, rest: set<PoolBlock>, b: PoolBlock) {
    s.Stored(b) && b !in s.verified && Ready(s, b) ==> b in rest
  }

  lemma PendingInsert(env: Env, u: set<PoolBlock>, s: State, b: PoolBlock)
    requires LowChain(env, u, s) && b in u && b.id !in s.byId && Pending(s, {})
    ensures Pending(Inserted(s, b), {b})
  {
    var t := Inserted(s, b);
    LowInsert(env, u, s, b);
    forall x ensures PendingAt(t, {b}, x) {
      if t.Stored(x) && x !in t.verified && Ready(t, x) && x != b {
        assert PendingAt(s, {}, x);
        forall i | 0 <= i < |x.uncles| && x.height > 0 ensures UncleReady(s, x, x.uncles[i]) {
          assert UncleReady(t, x, x.uncles[i]);
        }
        assert Ready(s, x);
      }
    }
  }

  /** The stored blocks up to three heights above. */
  ghost predicate OnTop(s: State, b: PoolBlock, x: PoolBlock) {
    s.Stored(x) && b.height < x.height <= b.height + UNCLE_BLOCK_DEPTH
  }

  /** Accepting a block makes only blocks on top of it ready. */
  lemma PendingAccept(env: Env, u: set<PoolBlock>, s: State, b: PoolBlock, rest: set<PoolBlock>, more: set<PoolBlock>)
    requires Inv(u, env.c, s) && b !in s.verified && Pending(s, rest + {b})
    requires forall x :: OnTop(s, b, x) ==> x in more
    ensures Pending(AcceptedIn(env.c, s, b), rest + more)
  {
    var t := AcceptedIn(env.c, s, b);
    forall x ensures PendingAt(t, rest + more, x) {
      if t.Stored(x) && x !in t.verified && Ready(t, x) && x !in rest {
        assert PendingAt(s, rest + {b}, x);
        assert EntryOk(s, x.parent);
        if s.byId[x.parent] == b {
          assert OnTop(s, b, x);
        } else {
          var i :| 0 <= i < |x.uncles| && !UncleReady(s, x, x.uncles[i]);
          assert UncleReady(t, x, x.uncles[i]);
          assert OnTop(s, b, x);
        }
      }
    }
  }

  lemma PendingReject(s: State, b: PoolBlock, rest: set<PoolBlock>)
    requires b !in s.verified && Pending(s, rest + {b})
    ensures Pending(RejectedIn(s, b), rest)
  {
    var t := RejectedIn(s, b);
    forall x ensures PendingAt(t, rest, x) {
      assert PendingAt(s, rest + {b}, x);
      if Ready(t, x) && x.height > 0 {
        forall i | 0 <= i < |x.uncles| ensures UncleReady(s, x, x.uncles[i]) {
          assert UncleReady(t, x, x.uncles[i]);
        }
        assert Ready(s, x);
      }
    }
  }

  /** A block that is verified, or still has to wait, need not be looked at again. */
  lemma PendingDrop(env: Env, u: set<PoolBlock>, s: State, b: PoolBlock, rest: set<PoolBlock>)
    requires LowChain(env, u, s) && b in s.Known() && Pending(s, rest + {b})
    requires b in s.verified || VerdictOf(env, s.View(), b) == Waiting
    ensures Pending(s, rest)
  {
    forall x ensures PendingAt(s, rest, x) {
      assert PendingAt(s, rest + {b}, x);
      if x == b && b !in s.verified && Ready(s, b) {
        ReadyIsDecided(env, u, s, b);
      }
    }
  }

  lemma PendingUnaffected(s: State, t: State, rest: set<PoolBlock>)
    requires Pending(s, rest) && t.byId == s.byId && t.verified == s.verified && t.invalid == s.invalid
    ensures Pending(t, rest)
  {
    forall x ensures PendingAt(t, rest, x) {
      assert PendingAt(s, rest, x);
      if Ready(t, x) && x.height > 0 {
        forall i | 0 <= i < |x.uncles| ensures UncleReady(s, x, x.uncles[i]) {
          assert UncleReady(t, x, x.uncles[i]);
        }
      }
    }
  }

  // ---------------------------------------------------------------- the outcome

  /** A known block that is ready was judged, and rightly. */
  lemma ReadyGotVerified(env: Env, u: set<PoolBlock>, s: State, b: PoolBlock)
    requires LowChain(env, u, s) && Pending(s, {}) && b in s.Known() && Ready(s, b) && DagValid(env, u, b)
    ensures s.Valid(b)
  {
    assert LowAt(env, u, s, b) && PendingAt(s, {}, b);
  }

  lemma KnownIsStored(env: Env, u: set<PoolBlock>, s: State, b: PoolBlock)
    requires LowChain(env, u, s) && b in s.Known()
    ensures s.Stored(b)
  {
    assert LowAt(env, u, s, b);
  }

  lemma {:induction false} ValidGetsVerified(env: Env, u: set<PoolBlock>, s: State, b: PoolBlock)
    requires LowChain(env, u, s) && s.Known() == u && Pending(s, {}) && DagValid(env, u, b)
    ensures s.Valid(b)
    decreases b.height
  {
    var st := FullStore(u);
    if b.height > 0 {
      var p := st.byId[b.parent];
      FullStoreHolds(u, b.parent);
      KnownIsStored(env, u, s, p);
      ValidGetsVerified(env, u, s, p);
      forall i | 0 <= i < |b.uncles| ensures UncleReady(s, b, b.uncles[i]) {
        var x := st.byId[b.uncles[i]];
        FullStoreHolds(u, b.uncles[i]);
        KnownIsStored(env, u, s, x);
        ValidGetsVerified(env, u, s, x);
      }
    }
    ReadyGotVerified(env, u, s, b);
  }

  /** When all blocks were added, exactly the valid ones are verified and valid. */
  lemma OutcomeIgnoresOrder(env: Env, u: set<PoolBlock>, s: State)
    requires LowChain(env, u, s) && s.Known() == u && Pending(s, {})
    ensures ValidSet(s) == set b | b in u && DagValid(env, u, b)
  {
    forall b ensures b in ValidSet(s) <==> b in u && DagValid(env, u, b) {
      if s.Valid(b) {
        ValidIsDagValid(env, u, s, b);
      }
      if b in u && DagValid(env, u, b) {
        ValidGetsVerified(env, u, s, b);
      }
    }
  }
}
