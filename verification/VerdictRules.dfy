/** The verdict on a block in plain rules on its fields (p2pool/sidechain/sidechain.go, verifyBlock),
    independent of the order in which they are checked. */
module VerdictRules {
  import opened Blocks
  import opened Verification
  import opened ChainState
  import opened ChainSteps
  import opened ForkChoice
  import opened Window
  import R = Retarget
  import N = NoDoubleCounting

  // ---------------------------------------------------------------- blocks that were counted before

  /** One of the n blocks from p down is the block with this id, or has it as an uncle. */
  ghost predicate CountedBefore(st: Store, p: PoolBlock, n: nat, id: Hash) {
    exists x :: x in Chain(st, Some(p), n) && (id == x.id || id in x.uncles)
  }

  lemma {:induction false} MinedMeaning(st: Store, p: PoolBlock, n: nat, id: Hash)
    ensures id in Mined(st, Some(p), n) <==> CountedBefore(st, p, n, id)
    decreases n
  {
    if n > 0 {
      var g := GetParent(st, p);
      var rest := Chain(st, g, n - 1);
      assert Chain(st, Some(p), n) == [p] + rest;
      assert Mined(st, Some(p), n) == [p.id] + p.uncles + Mined(st, g, n - 1);
      if g.Some? {
        MinedMeaning(st, g.value, n - 1, id);
      }
      if id == p.id || id in p.uncles {
        assert p in [p] + rest;
      }
      if CountedBefore(st, p, n, id) && !(id == p.id || id in p.uncles) {
        var x :| x in [p] + rest && (id == x.id || id in x.uncles);
        assert x in rest;
      }
      if g.Some? && CountedBefore(st, g.value, n - 1, id) {
        var x :| x in rest && (id == x.id || id in x.uncles);
        assert x in [p] + rest;
      }
    }
  }

  // ---------------------------------------------------------------- uncles from the same chain

  /** The line from p down to the height of the uncle. */
  ghost predicate DownTo(st: Store, p: PoolBlock, line: seq<PoolBlock>, h: nat) {
    && Lineage(st, p, line)
    && line[|line| - 1].height == h
    && forall i :: 0 <= i < |line| - 1 ==> line[i].height > h
  }

  /** Equally long lines of at most three blocks, the first of them not too low, end at the same parent. */
  ghost predicate Joined(st: Store, x: PoolBlock, u: PoolBlock, xs: seq<PoolBlock>, us: seq<PoolBlock>, h: nat,
                         n: nat) {
    && Lineage(st, x, xs)
    && Lineage(st, u, us)
    && |xs| == |us| <= n
    && xs[|xs| - 1].parent == us[|us| - 1].parent
    && forall i :: 0 <= i < |xs| ==> h <= xs[i].height + 3
  }

  /** From the parent down to the height of the uncle, and from there and from the uncle to the same parent. */
  ghost predicate KinLines(st: Store, b: PoolBlock, p: PoolBlock, u: PoolBlock, line: seq<PoolBlock>,
                           xs: seq<PoolBlock>,
                           us: seq<PoolBlock>) {
    DownTo(st, p, line, u.height) && Joined(st, line[|line| - 1], u, xs, us, b.height, 3)
  }

  /** The uncle shares an ancestor with the chain of the parent, close enough to the block. */
  ghost predicate CloseKin(st: Store, b: PoolBlock, p: PoolBlock, u: PoolBlock) {
    exists line, xs, us :: KinLines(st, b, p, u, line, xs, us)
  }

  lemma {:induction false} SiblingsJoin(st: Store, x: PoolBlock, u: PoolBlock, h: nat, n: nat)
    returns (xs: seq<PoolBlock>, us: seq<PoolBlock>)
    requires Siblings(st, Some(x), Some(u), h, n)
    ensures Joined(st, x, u, xs, us, h, n)
    decreases n
  {
    xs, us := [x], [u];
    if x.parent != u.parent {
      var y, w := GetParent(st, x).value, GetParent(st, u).value;
      xs, us := SiblingsJoin(st, y, w, h, n - 1);
      LineageFrom(st, x, y, xs);
      LineageFrom(st, u, w, us);
      assert forall i :: 0 <= i < |[x] + xs| ==> ([x] + xs)[i] == x || ([x] + xs)[i] == xs[i - 1];
      xs, us := [x] + xs, [u] + us;
    }
  }

  lemma {:induction false} JoinedAreSiblings(st: Store, x: PoolBlock, u: PoolBlock, xs: seq<PoolBlock>,
                                             us: seq<PoolBlock>,
                                             h: nat, n: nat)
    requires Joined(st, x, u, xs, us, h, n)
    ensures Siblings(st, Some(x), Some(u), h, n)
    decreases n
  {
    assert h <= xs[0].height + 3;
    if |xs| > 1 {
      LineageRest(st, x, xs);
      LineageRest(st, u, us);
      assert forall i :: 0 <= i < |xs[1..]| ==> xs[1..][i] == xs[i + 1];
      JoinedAreSiblings(st, xs[1], us[1], xs[1..], us[1..], h, n - 1);
    }
  }

  lemma {:induction false} DescendIsDownTo(st: Store, p: PoolBlock, h: nat) returns (line: seq<PoolBlock>)
    requires Descend(st, Some(p), h).Some? && Descend(st, Some(p), h).value.height == h
    ensures DownTo(st, p, line, h) && line[|line| - 1] == Descend(st, Some(p), h).value
    decreases p.rank
  {
    line := [p];
    if p.height > h {
      line := DescendIsDownTo(st, Below(st, p).value, h);
      LineageFrom(st, p, Below(st, p).value, line);
      assert forall i :: 0 < i < |[p] + line| ==> ([p] + line)[i] == line[i - 1];
      line := [p] + line;
    }
  }

  lemma {:induction false} DownToIsDescend(st: Store, known: set<PoolBlock>, p: PoolBlock, line: seq<PoolBlock>, h: nat)
    requires Acyclic(st, known) && p in known && DownTo(st, p, line, h)
    ensures Descend(st, Some(p), h) == Some(line[|line| - 1])
    decreases |line|
  {
    if |line| > 1 {
      assert line[0].height > h;
      LineageRest(st, p, line);
      assert forall i :: 0 <= i < |line[1..]| ==> line[1..][i] == line[i + 1];
      DownToIsDescend(st, known, line[1], line[1..], h);
    }
  }

  lemma SameChainMeaning(st: Store, known: set<PoolBlock>, b: PoolBlock, p: PoolBlock, u: PoolBlock)
    requires Acyclic(st, known) && p in known
    ensures SameChain(st, b, p, u) <==> CloseKin(st, b, p, u)
  {
    if SameChain(st, b, p, u) {
      SameChainIsClose(st, b, p, u);
    }
    if CloseKin(st, b, p, u) {
      var line, xs, us :| KinLines(st, b, p, u, line, xs, us);
      DownToIsDescend(st, known, p, line, u.height);
      JoinedAreSiblings(st, line[|line| - 1], u, xs, us, b.height, 3);
    }
  }

  lemma SameChainIsClose(st: Store, b: PoolBlock, p: PoolBlock, u: PoolBlock)
    requires SameChain(st, b, p, u)
    ensures CloseKin(st, b, p, u)
  {
    var x := Descend(st, Some(p), u.height).value;
    DescendStopsBelow(st, p, u.height);
    var line := DescendIsDownTo(st, p, u.height);
    var xs, us := SiblingsJoin(st, x, u, b.height, 3);
    assert KinLines(st, b, p, u, line, xs, us);
  }

  lemma {:induction false} DescendStopsBelow(st: Store, p: PoolBlock, h: nat)
    ensures var x := Descend(st, Some(p), h); x.Some? ==> x.value.height <= h
    decreases p.rank
  {
    if p.height > h && Below(st, p).Some? {
      DescendStopsBelow(st, Below(st, p).value, h);
    }
  }

  // ---------------------------------------------------------------- the rules

  /** An uncle that a block may include. */
  ghost predicate GoodUncle(v: View, b: PoolBlock, p: PoolBlock, id: Hash) {
    && id != ZERO_HASH
    && !CountedBefore(v.store, p, if b.height < 2 then b.height + 1 else 3, id)
    && id in v.store.byId
    && var u := v.store.byId[id];
       && u in v.verified
       && u !in v.invalid
       && u.height < b.height <= u.height + 3
       && CloseKin(v.store, b, p, u)
  }

  lemma UncleIff(v: View, known: set<PoolBlock>, b: PoolBlock, p: PoolBlock, id: Hash)
    requires Acyclic(v.store, known) && p in known
    ensures UncleVerdict(v, b, p, id) == Accepted <==> GoodUncle(v, b, p, id)
    ensures UncleVerdict(v, b, p, id) == Waiting ==> id !in v.store.byId || v.store.byId[id] !in v.verified
  {
    MinedMeaning(v.store, p, if b.height < 2 then b.height + 1 else 3, id);
    if id in v.store.byId {
      SameChainMeaning(v.store, known, b, p, v.store.byId[id]);
    }
  }

  lemma {:induction false} UnclesCases(v: View, b: PoolBlock, p: PoolBlock, ids: seq<Hash>)
    ensures UnclesVerdict(v, b, p, ids) == Accepted <==>
      forall i :: 0 <= i < |ids| ==> UncleVerdict(v, b, p, ids[i]) == Accepted
    ensures UnclesVerdict(v, b, p, ids) == Waiting ==>
      exists i :: 0 <= i < |ids| && UncleVerdict(v, b, p, ids[i]) == Waiting
  {
    if ids != [] {
      var n := |ids| - 1;
      UnclesCases(v, b, p, ids[..n]);
      assert forall i :: 0 <= i < n ==> ids[..n][i] == ids[i];
    }
  }

  ghost predicate UnclesGood(v: View, b: PoolBlock, p: PoolBlock) {
    forall i :: 0 <= i < |b.uncles| ==> GoodUncle(v, b, p, b.uncles[i])
  }

  ghost predicate UncleLacks(v: View, b: PoolBlock) {
    exists i :: 0 <= i < |b.uncles| && (b.uncles[i] !in v.store.byId || v.store.byId[b.uncles[i]] !in v.verified)
  }

  lemma UnclesIff(v: View, known: set<PoolBlock>, b: PoolBlock, p: PoolBlock)
    requires Acyclic(v.store, known) && p in known
    ensures UnclesVerdict(v, b, p, b.uncles) == Accepted <==> UnclesGood(v, b, p)
    ensures UnclesVerdict(v, b, p, b.uncles) == Waiting ==> UncleLacks(v, b)
  {
    UnclesCases(v, b, p, b.uncles);
    forall i | 0 <= i < |b.uncles|
      ensures UncleVerdict(v, b, p, b.uncles[i]) == Accepted <==> GoodUncle(v, b, p, b.uncles[i])
      ensures UncleVerdict(v, b, p, b.uncles[i]) == Waiting ==>
        b.uncles[i] !in v.store.byId || v.store.byId[b.uncles[i]] !in v.verified
    {
      UncleIff(v, known, b, p, b.uncles[i]);
    }
  }

  function DifficultiesOf(st: Store, ids: seq<Hash>): nat
    requires forall i :: 0 <= i < |ids| ==> ids[i] in st.byId
  {
    if ids == [] then 0 else DifficultiesOf(st, ids[..|ids| - 1]) + st.byId[ids[|ids| - 1]].difficulty
  }

  lemma {:induction false} FoundDifficulties(st: Store, ids: seq<Hash>, us: seq<PoolBlock>)
    requires |us| == |ids| && forall i :: 0 <= i < |ids| ==> ids[i] in st.byId && us[i] == st.byId[ids[i]]
    ensures SumDifficulties(us) == DifficultiesOf(st, ids)
  {
    if ids != [] {
      FoundDifficulties(st, ids[..|ids| - 1], us[..|us| - 1]);
    }
  }

  lemma CumulativeMeaning(st: Store, p: PoolBlock, b: PoolBlock)
    requires forall i :: 0 <= i < |b.uncles| ==> b.uncles[i] in st.byId
    ensures CumulativeAfter(p, b, FoundUncles(st, b.uncles))
         == (p.cumulative + b.difficulty + DifficultiesOf(st, b.uncles)) % TWO128
  {
    AllFound(st, b.uncles);
    FoundDifficulties(st, b.uncles, FoundUncles(st, b.uncles));
    AddDifficultiesIsSum(p.cumulative + b.difficulty, FoundUncles(st, b.uncles));
  }

  /** The cumulative difficulty is that of the parent, the block and its uncles together. */
  predicate AddsUp(st: Store, p: PoolBlock, b: PoolBlock) {
    && (forall i :: 0 <= i < |b.uncles| ==> b.uncles[i] in st.byId)
    && b.cumulative == (p.cumulative + b.difficulty + DifficultiesOf(st, b.uncles)) % TWO128
  }

  lemma AddsUpIff(st: Store, p: PoolBlock, b: PoolBlock)
    requires forall i :: 0 <= i < |b.uncles| ==> b.uncles[i] in st.byId
    ensures AddsUp(st, p, b) <==> b.cumulative == CumulativeAfter(p, b, FoundUncles(st, b.uncles))
  {
    CumulativeMeaning(st, p, b);
  }

  lemma GoodAreFound(v: View, b: PoolBlock, p: PoolBlock)
    requires UnclesGood(v, b, p)
    ensures forall i :: 0 <= i < |b.uncles| ==> b.uncles[i] in v.store.byId
  {
    forall i | 0 <= i < |b.uncles| ensures b.uncles[i] in v.store.byId {
      assert GoodUncle(v, b, p, b.uncles[i]);
    }
  }

  /** What a block must be like on top of a verified parent. */
  ghost predicate FitsParent(v: View, b: PoolBlock, p: PoolBlock) {
    && p !in v.invalid
    && b.height == p.height + 1
    && SeedFollows(p, b)
    && (forall i :: 0 < i < |b.uncles| ==> b.uncles[i - 1] < b.uncles[i])
    && UnclesGood(v, b, p)
    && AddsUp(v.store, p, b)
  }

  /** The difficulty it must have, and what it must pay. */
  ghost predicate FitsWindow(env: Env, v: View, b: PoolBlock, p: PoolBlock) {
    && (if v.tip == Some(p) then b.difficulty == v.currentDifficulty
        else b.difficulty != 0 && R.DifficultyAfter(v.store, env.c, p) == R.Difficulty(b.difficulty))
    && PayoutOk(env, b, PplnsWindow(v.store, env.c, b, env.difficultyByHeight))
  }

  /** Something is not there yet. */
  ghost predicate Lacks(env: Env, v: View, b: PoolBlock) {
    || GetParent(v.store, b).None?
    || GetParent(v.store, b).value !in v.verified
    || UncleLacks(v, b)
    || R.DifficultyAfter(v.store, env.c, GetParent(v.store, b).value).Missing?
  }

  lemma WindowIff(env: Env, v: View, b: PoolBlock, p: PoolBlock)
    ensures WindowVerdict(env, v, b, p) == Accepted <==> FitsWindow(env, v, b, p)
    ensures WindowVerdict(env, v, b, p) == Waiting ==> R.DifficultyAfter(v.store, env.c, p).Missing?
  {
  }

  lemma SeedIff(p: PoolBlock, b: PoolBlock)
    ensures SeedOk(p, b) <==> SeedFollows(p, b)
  {
  }

  lemma ParentIff(v: View, known: set<PoolBlock>, b: PoolBlock, p: PoolBlock)
    requires Acyclic(v.store, known) && p in known && UnclesVerdict(v, b, p, b.uncles) == Accepted
    ensures FitsParent(v, b, p) <==>
      && !(p in v.invalid || !SeedOk(p, b) || p.height + 1 != b.height || !Ascending(b.uncles))
      && b.cumulative == CumulativeAfter(p, b, FoundUncles(v.store, b.uncles))
  {
    UnclesIff(v, known, b, p);
    SeedIff(p, b);
    GoodAreFound(v, b, p);
    AddsUpIff(v.store, p, b);
  }

  lemma ChildIff(env: Env, v: View, known: set<PoolBlock>, b: PoolBlock, p: PoolBlock)
    requires Acyclic(v.store, known) && b in known && GetParent(v.store, b) == Some(p)
    ensures ChildVerdict(env, v, b, p) == Accepted <==>
      && p in v.verified
      && FitsParent(v, b, p)
      && (DepthOf(v.depth, b) >= env.c.chainWindowSize || FitsWindow(env, v, b, p))
    ensures ChildVerdict(env, v, b, p) == Waiting ==> Lacks(env, v, b)
  {
    UnclesIff(v, known, b, p);
    WindowIff(env, v, b, p);
    if UnclesVerdict(v, b, p, b.uncles) == Accepted {
      ParentIff(v, known, b, p);
    }
  }

  /** The rules for every block but a genesis block or one too deep to matter. */
  ghost predicate Correct(env: Env, v: View, b: PoolBlock) {
    && b.parent != ZERO_HASH
    && GetParent(v.store, b).Some?
    && var p := GetParent(v.store, b).value;
       && p in v.verified
       && FitsParent(v, b, p)
       && (DepthOf(v.depth, b) >= env.c.chainWindowSize || FitsWindow(env, v, b, p))
  }

  /** A block is accepted exactly if it is correct. What is not accepted is rejected, unless something that
      it needs is not there yet. */
  lemma VerdictIff(env: Env, v: View, known: set<PoolBlock>, b: PoolBlock)
    requires Acyclic(v.store, known) && b in known && b.height > 0
    requires env.c.chainWindowSize > 0 && DepthOf(v.depth, b) <= 2 * env.c.chainWindowSize + 1
    ensures VerdictOf(env, v, b) == Accepted <==> Correct(env, v, b)
    ensures VerdictOf(env, v, b) == Waiting ==> Lacks(env, v, b)
  {
    if GetParent(v.store, b).Some? {
      ChildIff(env, v, known, b, GetParent(v.store, b).value);
    }
  }

  predicate CorrectGenesis(c: Consensus, b: PoolBlock) {
    && b.parent == ZERO_HASH
    && |b.uncles| == 0
    && b.difficulty == c.minimumDifficulty == b.cumulative
    && (b.version <= 1 || b.keySeed == c.id)
  }

  /** The verdicts that need no parent. */
  lemma VerdictAtEnds(env: Env, v: View, b: PoolBlock)
    requires env.c.chainWindowSize > 0
    ensures b.height == 0 ==>
      VerdictOf(env, v, b) == if CorrectGenesis(env.c, b) then Accepted else Rejected
    ensures b.height > 0 && DepthOf(v.depth, b) > 2 * env.c.chainWindowSize + 1 ==> VerdictOf(env, v, b) == Accepted
  {
  }

  /** A wrong seed is no reason to wait. */
  lemma WrongSeedIsRejected(env: Env, v: View, b: PoolBlock, p: PoolBlock)
    requires b.height > 0 && b.parent != ZERO_HASH && GetParent(v.store, b) == Some(p) && p in v.verified
    requires env.c.chainWindowSize > 0 && DepthOf(v.depth, b) <= 2 * env.c.chainWindowSize + 1
    requires b.version > 1 && b.keySeed != if b.previousId == p.previousId then p.keySeed else p.derivedSeed
    ensures VerdictOf(env, v, b) == Rejected
  {
  }

  // ---------------------------------------------------------------- seeds over whole runs

  /** The n fully verified blocks from b down are of version 2 or later and mined on one Monero block. */
  ghost predicate OneMoneroBlock(links: N.Links, b: PoolBlock, n: nat)
    decreases n
  {
    n == 0 || (b in links && b.version > 1 && links[b].parent.previousId == b.previousId
               && OneMoneroBlock(links, links[b].parent, n - 1))
  }

  /** All blocks mined on one Monero block share the key seed. */
  lemma {:induction false} SeedIsKept(u: set<PoolBlock>, c: Consensus, s: State, b: PoolBlock, n: nat)
    requires Inv(u, c, s) && OneMoneroBlock(s.links, b, n)
    ensures N.Base(s.links, b, n).keySeed == b.keySeed && N.Base(s.links, b, n).previousId == b.previousId
    decreases n
  {
    if n > 0 {
      assert LinkOk(s, b);
      SeedIsKept(u, c, s, s.links[b].parent, n - 1);
    }
  }
}
