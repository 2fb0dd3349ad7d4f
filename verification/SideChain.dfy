/** The block store that is verified, scored and pruned as blocks arrive
    (p2pool/sidechain/sidechain.go). */
module SideChainStore {
  import opened Blocks
  import opened Verification
  import opened ChainState
  import opened ChainSteps
  import opened Pruning
  import opened Depths
  import opened PruneSafety
  import opened ArrivalOrder
  import opened Heaviest
  import R = Retarget
  import F = ForkChoice
  import Selection

  /** A verdict, once given, never changes. */
  ghost predicate Settles(s: State, t: State) {
    && s.verified <= t.verified
    && (forall b :: b in s.verified ==> (b in t.invalid <==> b in s.invalid))
  }

  /** The invariant of every reachable state, and what holds besides if all blocks are low. */
  ghost predicate Good(env: Env, u: set<PoolBlock>, s: State) {
    && Inv(u, env.c, s)
    && Footing(env.c, s)
    && NoGaps(s.depth)
    && (Low(u, env.c) ==> LowInv(env, u, s))
  }

  /** The invariant of the key loop: it stays in bounds, and has swept the first `n` of the original keys. */
  ghost predicate Sweeping(u: set<PoolBlock>, c: Consensus, s0: State, s: State, now: nat, cut: nat, backing: seq<nat>,
                           k: nat, low: nat, n: nat) {
    && PruneLoop(u, c, s0, s, now, cut, backing, k, low)
    && KeysOk(s0)
    && s0.keysSorted
    && Swept(c, s0, s, now, n)
    && Aligned(s0, s, k, n)
  }

  lemma SweepStarts(u: set<PoolBlock>, c: Consensus, s: State, now: nat, cut: nat) returns (low: nat)
    requires Inv(u, c, s) && s.keysSorted && TwoAbove(s, cut)
    requires s.tip.Some? && cut + PruneDistance(c) == s.tip.value.height
    ensures Sweeping(u, c, s, s, now, cut, s.keys, 0, low, 0)
  {
    low := SplitExists(s.keys, cut);
    TwoKeysAbove(s, cut, low);
  }

  /** At the end of the key loop every height up to the cut was passed. */
  lemma SweepEnds(u: set<PoolBlock>, c: Consensus, s0: State, s: State, now: nat, cut: nat, backing: seq<nat>, k: nat,
                  low: nat, n: nat)
    requires Sweeping(u, c, s0, s, now, cut, backing, k, low, n) && (k >= |backing| || backing[k] > cut)
    ensures Inv(u, c, s) && Prunes(c, s0, s, now, cut)
  {
    assert backing[..|s.keys|][k] == s.keys[k] == s.keys[k..][0];
    assert n < |s0.keys| && s0.keys[n..][0] == s0.keys[n];
    forall h | h in s0.byHeight && h <= cut ensures CleanOrNext(c, s0, s, now, h) {
      SweptToCut(c, s0, s, now, cut, n, h);
    }
  }

  /** Only verdicts, caches and links differ. */
  ghost predicate OnlyJudges(s: State, t: State) {
    && t == s.(verified := t.verified, invalid := t.invalid, cache := t.cache, links := t.links)
    && Settles(s, t)
  }

  ghost predicate InStack(s: State, b0: PoolBlock, stack: seq<PoolBlock>) {
    forall b :: b in stack ==> b in s.Known() && (b == b0 || s.Stored(b))
  }

  /** The invariant of `verifyLoop`; `rest` is what the caller still has to look at, and `trace` what was
      accepted so far. */
  ghost predicate Verifying(env: Env, u: set<PoolBlock>, s0: State, s: State, b0: PoolBlock, stack: seq<PoolBlock>,
                            rest: set<PoolBlock>, trace: seq<Acceptance>) {
    && Good(env, u, s)
    && OnlyJudges(s0, s)
    && InStack(s, b0, stack)
    && Traces(s0, s, trace)
    && (Low(u, env.c) ==> Pending(s, rest + Elements(stack)) && AllKin(trace))
  }

  /** ... with the best block so far, and whether the first one turned out invalid. */
  ghost predicate InRound(env: Env, u: set<PoolBlock>, main: F.MainChain, s0: State, s: State, b0: PoolBlock,
                          stack: seq<PoolBlock>, rest: set<PoolBlock>, trace: seq<Acceptance>,
                          highest: Option<PoolBlock>, failed: bool) {
    && Verifying(env, u, s0, s, b0, stack, rest, trace)
    && highest == Best(env.c, main, trace)
    && s0.invalid <= s0.verified
    && (failed <==> b0 in s.invalid && b0 !in s0.invalid)
  }

  lemma StartsVerifying(env: Env, u: set<PoolBlock>, s: State, b0: PoolBlock, rest: set<PoolBlock>)
    requires Good(env, u, s) && b0 in s.Known() && (Low(u, env.c) ==> Pending(s, rest + {b0}))
    ensures Verifying(env, u, s, s, b0, [b0], rest, [])
  {
    assert Elements([b0]) == {b0};
  }

  lemma DoneVerifying(env: Env, u: set<PoolBlock>, s0: State, s: State, b0: PoolBlock, rest: set<PoolBlock>,
                      trace: seq<Acceptance>)
    requires Verifying(env, u, s0, s, b0, [], rest, trace)
    ensures Good(env, u, s) && OnlyJudges(s0, s) && Traces(s0, s, trace)
    ensures Low(u, env.c) ==> Pending(s, rest) && AllKin(trace)
  {
    assert rest + Elements([]) == rest;
  }

  lemma PopElements(stack: seq<PoolBlock>)
    requires stack != []
    ensures Elements(stack) == Elements(stack[..|stack| - 1]) + {stack[|stack| - 1]}
  {
    assert stack == stack[..|stack| - 1] + [stack[|stack| - 1]];
  }

  /** A popped block that is verified or has to wait changes nothing. */
  lemma DropStep(env: Env, u: set<PoolBlock>, s0: State, s: State, b0: PoolBlock, stack: seq<PoolBlock>,
                 rest: set<PoolBlock>, trace: seq<Acceptance>)
    requires stack != [] && Verifying(env, u, s0, s, b0, stack, rest, trace)
    requires stack[|stack| - 1] in s.verified || VerdictOf(env, s.View(), stack[|stack| - 1]) == Waiting
    ensures Verifying(env, u, s0, s, b0, stack[..|stack| - 1], rest, trace)
  {
    var b, front := stack[|stack| - 1], stack[..|stack| - 1];
    assert b in stack;
    PopElements(stack);
    if Low(u, env.c) {
      assert rest + Elements(stack) == rest + Elements(front) + {b};
      PendingDrop(env, u, s, b, rest + Elements(front));
    }
  }

  lemma RejectGood(env: Env, u: set<PoolBlock>, s: State, b: PoolBlock)
    requires Good(env, u, s) && b in s.Known() && b !in s.verified && VerdictOf(env, s.View(), b) == Rejected
    ensures Good(env, u, RejectedIn(s, b))
  {
    RejectOk(u, env.c, s, b);
    FootingKept(env.c, s, RejectedIn(s, b));
    if Low(u, env.c) {
      LowReject(env, u, s, b);
    }
  }

  lemma RejectStep(env: Env, u: set<PoolBlock>, s0: State, s: State, b0: PoolBlock, stack: seq<PoolBlock>,
                   rest: set<PoolBlock>, trace: seq<Acceptance>)
    requires stack != [] && Verifying(env, u, s0, s, b0, stack, rest, trace)
    requires stack[|stack| - 1] !in s.verified && VerdictOf(env, s.View(), stack[|stack| - 1]) == Rejected
    ensures Verifying(env, u, s0, RejectedIn(s, stack[|stack| - 1]), b0, stack[..|stack| - 1], rest, trace)
  {
    var b, front := stack[|stack| - 1], stack[..|stack| - 1];
    assert b in stack;
    PopElements(stack);
    RejectGood(env, u, s, b);
    TraceUnaffected(s0, s, RejectedIn(s, b), trace);
    if Low(u, env.c) {
      assert rest + Elements(stack) == rest + Elements(front) + {b};
      PendingReject(s, b, rest + Elements(front));
    }
  }

  /** Either way a block that is not accepted leaves the stack. */
  lemma NotAcceptedStep(env: Env, u: set<PoolBlock>, s0: State, s: State, b0: PoolBlock, stack: seq<PoolBlock>,
                        rest: set<PoolBlock>, trace: seq<Acceptance>)
    requires stack != [] && Verifying(env, u, s0, s, b0, stack, rest, trace)
    requires stack[|stack| - 1] !in s.verified && VerdictOf(env, s.View(), stack[|stack| - 1]) != Accepted
    ensures var b := stack[|stack| - 1];
      var t := if VerdictOf(env, s.View(), b) == Rejected then RejectedIn(s, b) else s;
      Verifying(env, u, s0, t, b0, stack[..|stack| - 1], rest, trace)
  {
    if VerdictOf(env, s.View(), stack[|stack| - 1]) == Rejected {
      RejectStep(env, u, s0, s, b0, stack, rest, trace);
    } else {
      DropStep(env, u, s0, s, b0, stack, rest, trace);
    }
  }

  /** The blocks stored up to three heights above, in the order they are pushed. */
  function BlocksOnTop(byHeight: map<nat, seq<PoolBlock>>, h: nat): seq<PoolBlock> {
    BlocksUpTo(byHeight, h, UNCLE_BLOCK_DEPTH)
  }

  function BlocksUpTo(byHeight: map<nat, seq<PoolBlock>>, h: nat, n: nat): seq<PoolBlock> {
    if n == 0 then [] else BlocksUpTo(byHeight, h, n - 1) + BlocksAt(byHeight, h + n)
  }

  lemma {:induction false} UpToContains(byHeight: map<nat, seq<PoolBlock>>, h: nat, i: nat, n: nat, x: PoolBlock)
    requires 1 <= i <= n && x in BlocksAt(byHeight, h + i)
    ensures x in BlocksUpTo(byHeight, h, n)
  {
    if i < n {
      UpToContains(byHeight, h, i, n - 1, x);
    }
  }

  lemma {:induction false} UpToGrows(byHeight: map<nat, seq<PoolBlock>>, h: nat, i: nat, n: nat)
    requires i <= n
    ensures BlocksUpTo(byHeight, h, i) <= BlocksUpTo(byHeight, h, n)
  {
    if i < n {
      UpToGrows(byHeight, h, i, n - 1);
    }
  }

  lemma {:induction false} UpToOnly(byHeight: map<nat, seq<PoolBlock>>, h: nat, n: nat, x: PoolBlock) returns (i: nat)
    requires x in BlocksUpTo(byHeight, h, n)
    ensures 1 <= i <= n && x in BlocksAt(byHeight, h + i)
  {
    if x in BlocksAt(byHeight, h + n) {
      i := n;
    } else {
      i := UpToOnly(byHeight, h, n - 1, x);
    }
  }

  lemma AboveIsOnTop(byHeight: map<nat, seq<PoolBlock>>, b: PoolBlock, i: nat)
    requires 1 <= i <= UNCLE_BLOCK_DEPTH
    ensures forall x :: x in BlocksAt(byHeight, b.height + i) ==> x in BlocksOnTop(byHeight, b.height)
  {
    forall x | x in BlocksAt(byHeight, b.height + i) ensures x in BlocksOnTop(byHeight, b.height) {
      UpToContains(byHeight, b.height, i, UNCLE_BLOCK_DEPTH, x);
    }
  }

  lemma TookFromAbove(byHeight: map<nat, seq<PoolBlock>>, h: nat, i: nat, n: nat)
    requires 1 <= i <= UNCLE_BLOCK_DEPTH && n <= |BlocksAt(byHeight, h + i)|
    ensures BlocksUpTo(byHeight, h, i - 1) + BlocksAt(byHeight, h + i)[..n] <= BlocksOnTop(byHeight, h)
  {
    assert BlocksUpTo(byHeight, h, i - 1) + BlocksAt(byHeight, h + i)[..n] <= BlocksUpTo(byHeight, h, i);
    UpToGrows(byHeight, h, i, UNCLE_BLOCK_DEPTH);
  }

  lemma IsMisplaced(byHeight: map<nat, seq<PoolBlock>>, b: PoolBlock, i: nat, x: PoolBlock)
    requires 1 < i <= UNCLE_BLOCK_DEPTH && x in BlocksAt(byHeight, b.height + i) && x.parent == b.id
    ensures Misplaced(byHeight, b)
  {
  }

  lemma OnTopListed(s: State, b: PoolBlock)
    requires IndexOk(s)
    ensures forall x :: OnTop(s, b, x) ==> x in BlocksOnTop(s.byHeight, b.height)
    ensures forall x :: x in BlocksOnTop(s.byHeight, b.height) ==>
      s.Stored(x) && x in s.Known() && x != b && b.height < x.height <= b.height + 3
  {
    forall x | OnTop(s, b, x) ensures x in BlocksOnTop(s.byHeight, b.height) {
      assert EntryOk(s, x.id);
      AboveIsOnTop(s.byHeight, b, x.height - b.height);
    }
    forall x | x in BlocksOnTop(s.byHeight, b.height)
      ensures s.Stored(x) && x in s.Known() && x != b && b.height < x.height <= b.height + 3
    {
      var i := UpToOnly(s.byHeight, b.height, UNCLE_BLOCK_DEPTH, x);
      assert HeightOk(s, b.height + i) && EntryOk(s, x.id);
    }
  }

  lemma AcceptGood(env: Env, u: set<PoolBlock>, s: State, b: PoolBlock)
    requires Good(env, u, s) && b in s.Known() && b !in s.verified && VerdictOf(env, s.View(), b) == Accepted
    ensures Good(env, u, AcceptedIn(env.c, s, b))
  {
    AcceptOk(u, env, s, b);
    FootingAccept(u, env, s, b);
    if Low(u, env.c) {
      LowAccept(env, u, s, b);
    }
  }

  /** What was waiting for the accepted block is on top of it. */
  lemma AcceptPending(env: Env, u: set<PoolBlock>, s: State, b: PoolBlock, rest: set<PoolBlock>, stack: seq<PoolBlock>)
    requires Inv(u, env.c, s) && b !in s.verified && stack != [] && b == stack[|stack| - 1]
      && Pending(s, rest + Elements(stack))
    ensures Pending(AcceptedIn(env.c, s, b), rest + Elements(stack[..|stack| - 1] + BlocksOnTop(s.byHeight, b.height)))
  {
    var front, more := stack[..|stack| - 1], BlocksOnTop(s.byHeight, b.height);
    PopElements(stack);
    OnTopListed(s, b);
    assert rest + Elements(stack) == rest + Elements(front) + {b};
    PendingAccept(env, u, s, b, rest + Elements(front), Elements(more));
    assert rest + Elements(front) + Elements(more) == rest + Elements(front + more);
  }

  lemma AcceptInStack(c: Consensus, s: State, b0: PoolBlock, stack: seq<PoolBlock>)
    requires IndexOk(s) && stack != [] && InStack(s, b0, stack)
    ensures var b := stack[|stack| - 1];
      InStack(AcceptedIn(c, s, b), b0, stack[..|stack| - 1] + BlocksOnTop(s.byHeight, b.height))
  {
    var b, front := stack[|stack| - 1], stack[..|stack| - 1];
    var more := BlocksOnTop(s.byHeight, b.height);
    OnTopListed(s, b);
    forall x | x in front + more ensures x in s.Known() && (x == b0 || s.Stored(x)) {
      assert x in front || x in more;
      assert x in front ==> x in stack;
    }
  }

  lemma AcceptStep(env: Env, u: set<PoolBlock>, s0: State, s: State, b0: PoolBlock, stack: seq<PoolBlock>,
                   rest: set<PoolBlock>, trace: seq<Acceptance>)
    requires stack != [] && Verifying(env, u, s0, s, b0, stack, rest, trace)
    requires stack[|stack| - 1] !in s.verified && VerdictOf(env, s.View(), stack[|stack| - 1]) == Accepted
    ensures var b := stack[|stack| - 1];
      var t, stack' := AcceptedIn(env.c, s, b), stack[..|stack| - 1] + BlocksOnTop(s.byHeight, b.height);
      Verifying(env, u, s0, t, b0, stack', rest, trace + [Acceptance(b, t.Store())])
  {
    var b := stack[|stack| - 1];
    assert b in stack;
    AcceptGood(env, u, s, b);
    AcceptInStack(env.c, s, b0, stack);
    var t := AcceptedIn(env.c, s, b);
    TraceOneMore(s0, s, t, trace, Acceptance(b, t.Store()));
    if Low(u, env.c) {
      AcceptPending(env, u, s, b, rest, stack);
      KinOneMore(env, u, s0, t, trace, b);
    }
  }

  /** A valid block near the top of a longer chain, on which a difficulty can be computed. */
  ghost predicate BecomesTip(c: Consensus, s: State, main: F.MainChain, b: PoolBlock) {
    && s.Valid(b)
    && DepthOf(s.depth, b) < c.chainWindowSize
    && F.LongerChain(s.Store(), c, main, s.tip, b, true).longer
    && R.DifficultyAfter(s.Store(), c, b).Difficulty?
    && R.DifficultyAfter(s.Store(), c, b) != R.Difficulty(0)
  }

  /** What a call of `updateChainTip` does. */
  ghost predicate TipMoves(c: Consensus, s: State, t: State, main: F.MainChain, b: PoolBlock, now: nat)
    requires ValidConsensus(c)
  {
    if !BecomesTip(c, s, main, b) || s.tip == Some(b) then t == s
    else
      && t.tip == Some(b)
      && R.DifficultyAfter(s.Store(), c, b) == R.Difficulty(t.currentDifficulty)
      && (if b.height < PruneDistance(c) then t == TipIn(s, b, t.currentDifficulty)
          else Prunes(c, s, t, now, b.height - PruneDistance(c)))
  }

  /** A tip gives way only to a block with more cumulative difficulty, if the two have a common ancestor, and
      else to one with more work in its window. */
  ghost predicate TipRises(c: Consensus, s: State, t: State) {
    s.tip.Some? && t.tip != s.tip ==>
      && t.tip.Some?
      && var a, b := s.tip.value, t.tip.value;
         if F.Related(s.Store(), a, b) then a.cumulative < b.cumulative
         else WindowWork(c, s, a) % TWO128 < WindowWork(c, s, b) % TWO128
  }

  /** The difficulty of the blocks in the window that ends with this one, and of their uncles. */
  ghost function WindowWork(c: Consensus, s: State, b: PoolBlock): nat {
    F.ChainWork(s.Store(), F.Chain(s.Store(), Some(b), c.chainWindowSize))
  }

  lemma LongerRises(c: Consensus, s: State, main: F.MainChain, b: PoolBlock)
    requires F.LongerChain(s.Store(), c, main, s.tip, b, true).longer
    ensures forall t: State :: t.tip == Some(b) ==> TipRises(c, s, t)
  {
    if s.tip.Some? {
      F.TotalIsWork(s.Store(), F.Chain(s.Store(), s.tip, c.chainWindowSize));
      F.TotalIsWork(s.Store(), F.Chain(s.Store(), Some(b), c.chainWindowSize));
    }
  }

  /** At least two stored heights lie above the cut that the tip causes. */
  ghost predicate RoomToPrune(c: Consensus, s: State)
    requires ValidConsensus(c)
  {
    s.tip.Some? && s.tip.value.height >= PruneDistance(c) ==> TwoAbove(s, s.tip.value.height - PruneDistance(c))
  }

  /** What pruning below the tip does, if the tip is high enough to cause any. */
  ghost predicate PrunesBelowTip(c: Consensus, s: State, t: State, now: nat)
    requires ValidConsensus(c)
  {
    if s.tip.None? || s.tip.value.height < PruneDistance(c) then t == s
    else Prunes(c, s, t, now, s.tip.value.height - PruneDistance(c))
  }

  lemma SortedPrunes(c: Consensus, s: State, r: State, t: State, now: nat, cut: nat)
    requires ValidConsensus(c) && s.tip.Some? && s.tip.value.height == cut + PruneDistance(c)
    requires r == s.(keys := r.keys, keysSorted := r.keysSorted) && Prunes(c, r, t, now, cut)
    ensures PrunesBelowTip(c, s, t, now)
  {
    PrunesAlike(c, s, r, t, now, cut);
  }

  /** A new tip leaves enough above the cut. */
  lemma NewTipGood(env: Env, u: set<PoolBlock>, s: State, b: PoolBlock, d: nat)
    requires Good(env, u, s) && s.Valid(b) && DepthOf(s.depth, b) < env.c.chainWindowSize
    requires d != 0 && R.DifficultyAfter(s.Store(), env.c, b) == R.Difficulty(d)
    ensures Good(env, u, TipIn(s, b, d))
    ensures RoomToPrune(env.c, TipIn(s, b, d))
  {
    var t := TipIn(s, b, d);
    TipOk(u, env.c, s, b, d);
    assert FootingAt(env.c, s, b);
    SameHeightsKeepTwo(s, t);
    FootingKept(env.c, s, t);
    if Low(u, env.c) {
      LowUnaffected(env, u, s, t);
    }
  }

  /** ... and pruning below it keeps everything that holds in reachable states. */
  lemma PrunedGood(env: Env, u: set<PoolBlock>, s: State, t: State, tip: PoolBlock, now: nat)
    requires Good(env, u, s) && Inv(u, env.c, t) && s.tip == Some(tip) && s.Valid(tip)
    requires t.verified == s.verified && t.invalid == s.invalid && t.links == s.links
    requires if tip.height < PruneDistance(env.c) then t == s
      else TwoAbove(s, tip.height - PruneDistance(env.c)) && Prunes(env.c, s, t, now, tip.height - PruneDistance(env.c))
    ensures Good(env, u, t) && OnlyForgets(s, t) && (Low(u, env.c) ==> t.byId == s.byId)
  {
    if tip.height >= PruneDistance(env.c) {
      FootingPrune(env.c, s, t, tip.height - PruneDistance(env.c));
    }
    DistanceExceedsWindow(env.c);
    if Low(u, env.c) {
      LowUnaffected(env, u, s, t);
    }
  }

  lemma NewTipPruned(env: Env, u: set<PoolBlock>, s: State, t: State, b: PoolBlock, d: nat, now: nat)
    requires Good(env, u, TipIn(s, b, d)) && Inv(u, env.c, t) && s.Valid(b)
    requires t.verified == s.verified && t.invalid == s.invalid && t.links == s.links
    requires RoomToPrune(env.c, TipIn(s, b, d)) && PrunesBelowTip(env.c, TipIn(s, b, d), t, now)
    ensures Good(env, u, t) && OnlyForgets(s, t) && (Low(u, env.c) ==> t.byId == s.byId)
    ensures b.height >= PruneDistance(env.c) ==> Prunes(env.c, s, t, now, b.height - PruneDistance(env.c))
  {
    PrunedGood(env, u, TipIn(s, b, d), t, b, now);
    if b.height >= PruneDistance(env.c) {
      PrunesAlike(env.c, s, TipIn(s, b, d), t, now, b.height - PruneDistance(env.c));
    }
  }

  // ---------------------------------------------------------------- the block that is offered

  /** If all blocks accepted in the round are kin, none of them has more cumulative difficulty than the one
      that is offered. */
  ghost predicate HeaviestOf(s0: State, s: State, trace: seq<Acceptance>, highest: Option<PoolBlock>) {
    AllKin(trace) ==> forall b :: s.Valid(b) && b !in s0.verified ==> NotHeavier(b, highest)
  }

  lemma BestIsKnown(c: Consensus, main: F.MainChain, s0: State, s: State, trace: seq<Acceptance>)
    requires Traces(s0, s, trace) && s.verified <= s.Known()
    ensures Best(c, main, trace).Some? ==>
      s.Valid(Best(c, main, trace).value) && Best(c, main, trace).value in s.Known()
  {
    BestIsAccepted(c, main, trace);
  }

  lemma BestOffered(c: Consensus, main: F.MainChain, s0: State, s: State, trace: seq<Acceptance>)
    requires Traces(s0, s, trace) && s.verified <= s.Known()
    ensures HeaviestOf(s0, s, trace, Best(c, main, trace))
    ensures Best(c, main, trace).Some? ==>
      s.Valid(Best(c, main, trace).value) && Best(c, main, trace).value in s.Known()
    ensures Best(c, main, trace).None? ==> forall b :: s.Valid(b) ==> b in s0.verified
  {
    BestIsKnown(c, main, s0, s, trace);
    BestIsAccepted(c, main, trace);
    if AllKin(trace) && trace != [] {
      var k := BestIsHeaviest(c, main, trace);
      forall b | s.Valid(b) && b !in s0.verified ensures NotHeavier(b, Best(c, main, trace)) {
        assert InTrace(trace, b);
      }
    }
    if trace == [] {
      forall b | s.Valid(b) ensures b in s0.verified {
        assert !InTrace(trace, b);
      }
    }
  }

  lemma LowTipMoves(env: Env, u: set<PoolBlock>, s: State, t: State, main: F.MainChain, b: PoolBlock, now: nat)
    requires LowChain(env, u, s) && s.Valid(b) && TipMoves(env.c, s, t, main, b, now)
    ensures t.verified == s.verified && t.invalid == s.invalid && t.byId == s.byId
    ensures t.tip == if s.tip != Some(b) && F.LongerChain(s.Store(), env.c, main, s.tip, b, true).longer
                        && HasNext(R.DifficultyAfter(s.Store(), env.c, b)) then Some(b) else s.tip
  {
    NeverDeep(env, u, s, b);
    DistanceExceedsWindow(env.c);
  }

  lemma OfferKeepsHeaviest(env: Env, u: set<PoolBlock>, s: State, t: State, main: F.MainChain, b: PoolBlock, now: nat)
    requires LowChain(env, u, s) && s.Valid(b) && TipMoves(env.c, s, t, main, b, now)
    requires forall x :: s.Valid(x) ==> Topped(env, u, x, s.tip) || x.cumulative <= b.cumulative
    ensures TipHeaviest(env, u, t)
  {
    LowTipMoves(env, u, s, t, main, b, now);
    OfferHeaviest(env, u, s, t, main, b);
  }

  /** After a round the tip is the heaviest again. */
  lemma RoundRests(env: Env, u: set<PoolBlock>, s0: State, s: State, t: State, main: F.MainChain,
                   trace: seq<Acceptance>,
                   highest: Option<PoolBlock>, rest: set<PoolBlock>, now: nat)
    requires LowChain(env, u, s) && OnlyJudges(s0, s) && TipHeaviest(env, u, s0) && Pending(s, rest)
    requires AllKin(trace) && HeaviestOf(s0, s, trace, highest)
    requires highest.Some? ==> s.Valid(highest.value) && TipMoves(env.c, s, t, main, highest.value, now)
    requires highest.None? ==> t == s && forall b :: s.Valid(b) ==> b in s0.verified
    ensures Rested(env, u, t, rest)
  {
    if highest.Some? {
      var h := highest.value;
      forall x | s.Valid(x) ensures Topped(env, u, x, s.tip) || x.cumulative <= h.cumulative {
        if x in s0.verified {
          assert s0.Valid(x);
        } else {
          assert NotHeavier(x, highest);
        }
      }
      OfferKeepsHeaviest(env, u, s, t, main, h, now);
      LowTipMoves(env, u, s, t, main, h, now);
      PendingUnaffected(s, t, rest);
    } else {
      forall x | s.Valid(x) ensures Topped(env, u, x, s.tip) {
        assert s0.Valid(x);
      }
    }
  }

  /** How a call ends. A block that got its verdict while depths were updated is offered as tip if it is
      valid. Any other is judged with all that waited for it, and the best of those accepted is offered. */
  ghost predicate Concluded(c: Consensus, s: State, t: State, main: F.MainChain, b: PoolBlock, now: nat, judged: State,
                            trace: seq<Acceptance>)
    requires ValidConsensus(c)
  {
    if b in s.verified then if b in s.invalid then t == s else TipMoves(c, s, t, main, b, now)
    else
      && OnlyJudges(s, judged)
      && Traces(s, judged, trace)
      && var highest := Best(c, main, trace);
         if highest.None? then t == judged else TipMoves(c, judged, t, main, highest.value, now)
  }

  // ---------------------------------------------------------------- between calls

  /** What holds of low blocks between rounds of verification: ready blocks that were not judged are in
      `rest`, and the tip is the heaviest valid block. */
  ghost predicate Rested(env: Env, u: set<PoolBlock>, s: State, rest: set<PoolBlock>) {
    Pending(s, rest) && TipHeaviest(env, u, s)
  }

  /** What holds whenever no call is in progress: besides the invariant, depths are settled if the
      blocks are tidy; if they are low, every ready block is judged and the tip is the heaviest. */
  ghost predicate AtRest(env: Env, u: set<PoolBlock>, s: State) {
    && Good(env, u, s)
    && (Tidy(u) ==> EdgesExcept(s, {}) && DeepOk(env.c, s, {}))
    && (Low(u, env.c) ==> Rested(env, u, s, {}))
  }

  lemma EmptyAtRest(env: Env, u: set<PoolBlock>)
    requires Universe(u) && ValidConsensus(env.c)
    ensures AtRest(env, u, EMPTY.(currentDifficulty := env.c.minimumDifficulty))
  {
    var s := EMPTY.(currentDifficulty := env.c.minimumDifficulty);
    EmptyOk(u, env.c);
    forall b ensures FootingAt(env.c, s, b) && PendingAt(s, {}, b) && LowAt(env, u, s, b) && Backed(s.depth, b)
      && DeepAt(env.c, s, {}, b)
    {
    }
    forall p, c ensures EdgeOk(s, p, c, {}) {
    }
  }

  lemma InsertGood(env: Env, u: set<PoolBlock>, s: State, b: PoolBlock)
    requires AtRest(env, u, s) && b in u && b.id !in s.byId
    ensures var t := Inserted(s, b);
      && Good(env, u, t)
      && (Tidy(u) ==> EdgesBesides(t, b) && DeepOk(env.c, t, {b}))
      && (Low(u, env.c) ==> Rested(env, u, t, {b}))
  {
    InsertOk(u, env.c, s, b);
    FootingInsert(env.c, s, b);
    InsertLeavesNoGaps(s.depth, b);
    if Tidy(u) {
      InsertOpensEdges(s, b);
      DeepInsert(env.c, s, b);
    }
    if Low(u, env.c) {
      LowInsert(env, u, s, b);
      PendingInsert(env, u, s, b);
    }
  }

  /** What one call did, when the block was new. */
  ghost predicate Added(s: State, t: State, b: PoolBlock) {
    && Settles(s, t)
    && Deepens(s, t)
    && t.Known() == s.Known() + {b}
    && t.maxHeight == (if b.height > s.maxHeight then b.height else s.maxHeight)
    && (forall id :: id in t.byId ==> t.byId[id] == b || (id in s.byId && t.byId[id] == s.byId[id]))
  }

  lemma AdvancesAdded(s: State, t: State, r: State, b: PoolBlock)
    requires b.id !in s.byId && Advances(Inserted(s, b), t) && Settles(t, r) && OnlyForgets(t, r)
    ensures Added(s, r, b)
  {
    assert Inserted(s, b).Known() == s.Known() + {b};
  }

  // ---------------------------------------------------------------- the worklist of depths

  /** What every step but adding a block does: verdicts are final, depths do not fall, and nothing
      appears in the index. */
  ghost predicate Advances(s: State, t: State) {
    && Settles(s, t)
    && Deepens(s, t)
    && t.Known() == s.Known()
    && t.maxHeight == s.maxHeight
    && (forall id :: id in t.byId ==> id in s.byId && t.byId[id] == s.byId[id])
  }

  /** The invariant of `updateDepths` for the new block b. */
  ghost predicate Spreading(env: Env, u: set<PoolBlock>, s0: State, s: State, stack: seq<PoolBlock>, b: PoolBlock) {
    && Good(env, u, s)
    && Advances(s0, s)
    && (forall x :: x in stack ==> x in s.Known())
    && (Tidy(u) ==> EdgesExcept(s, Elements(stack)) && DeepOk(env.c, s, Elements(stack)))
    && (Low(u, env.c) ==> s.byId == s0.byId && Rested(env, u, s, {b}))
  }

  lemma PendingMore(s: State, rest: set<PoolBlock>, more: set<PoolBlock>)
    requires Pending(s, rest) && rest <= more
    ensures Pending(s, more)
  {
    forall x ensures PendingAt(s, more, x) {
      assert PendingAt(s, rest, x);
    }
  }

  lemma PushesGood(env: Env, u: set<PoolBlock>, s: State, t: State, stack: seq<PoolBlock>, stack': seq<PoolBlock>,
                   rest: set<PoolBlock>)
    requires Good(env, u, s) && Pushes(s, t, stack, stack')
    ensures Good(env, u, t) && Advances(s, t)
    ensures Low(u, env.c) && Rested(env, u, s, rest) ==> Rested(env, u, t, rest)
  {
    PushesOk(u, env.c, s, t, stack, stack');
    SameHeightsKeepTwo(s, t);
    FootingKept(env.c, s, t);
    if Low(u, env.c) {
      LowUnaffected(env, u, s, t);
      if Rested(env, u, s, rest) {
        PendingUnaffected(s, t, rest);
      }
    }
  }

  lemma VerifyKeepsSpreading(env: Env, u: set<PoolBlock>, s0: State, s: State, t: State, stack: seq<PoolBlock>,
                             b: PoolBlock)
    requires Spreading(env, u, s0, s, stack, b) && Good(env, u, t) && Settles(s, t) && OnlyForgets(s, t)
    requires Low(u, env.c) ==> t.byId == s.byId && Rested(env, u, t, {b})
    ensures Spreading(env, u, s0, t, stack, b) && SlackOf(t) == SlackOf(s)
  {
    if Tidy(u) {
      ShrinkKeepsEdges(s, t, Elements(stack));
      DeepKept(env.c, s, t, Elements(stack));
    }
  }

  lemma SpreadStep(env: Env, u: set<PoolBlock>, s0: State, s: State, t: State, stack: seq<PoolBlock>,
                   stack': seq<PoolBlock>, b: PoolBlock)
    requires stack != [] && Spreading(env, u, s0, s, stack, b) && Pushes(s, t, stack[..|stack| - 1], stack')
    requires Tidy(u) ==> ParentReaches(t, stack[|stack| - 1])
    requires DeepAt(env.c, s, {}, stack[|stack| - 1])
      && DepthOf(t.depth, stack[|stack| - 1]) == DepthOf(s.depth, stack[|stack| - 1])
    ensures Spreading(env, u, s0, t, stack', b) && SlackOf(t) + |stack'| < SlackOf(s) + |stack|
  {
    var cur, front := stack[|stack| - 1], stack[..|stack| - 1];
    assert cur in stack;
    PushesGood(env, u, s, t, front, stack', {b});
    if Tidy(u) {
      PopElements(stack);
      PushesKeepsEdges(u, env.c, s, t, front, stack', cur);
      PushesKeepDeep(env.c, s, t, front, stack', cur);
      SettleBlock(u, env.c, t, stack', cur);
    }
  }

  /** The new block with the depth it took from above. */
  lemma TakenStep(env: Env, u: set<PoolBlock>, s: State, b: PoolBlock, taken: seq<PoolBlock>, consistent: bool)
    requires Good(env, u, s) && b in s.Known()
    requires taken <= BlocksOnTop(s.byHeight, b.height)
    requires if consistent then taken == BlocksOnTop(s.byHeight, b.height) else Misplaced(s.byHeight, b)
    requires Tidy(u) ==> EdgesBesides(s, b) && DeepOk(env.c, s, {b})
    requires Low(u, env.c) ==> Rested(env, u, s, {b})
    ensures Tidy(u) ==> consistent
    ensures Spreading(env, u, s, RaisedIn(s, b, TakenDepth(s.depth, b.id, s.depth[b], taken)), [b], b)
  {
    var d := TakenDepth(s.depth, b.id, s.depth[b], taken);
    OnTopListed(s, b);
    TakenDepthBounds(s, b, s.depth[b], taken);
    TakenLeavesNoGaps(s, b, d, taken);
    RaisedGood(env, u, s, b, d);
    if Tidy(u) {
      TidyIsConsistent(u, env.c, s, b);
      ChildrenLend(s, b, d, taken);
      TakenClosesEdges(u, env.c, s, RaisedIn(s, b, d), b);
      DeepRaise(env.c, s, b, d);
      assert Elements([b]) == {b};
    }
  }

  /** The depth taken is its own, or that of a block at most three heights above. */
  lemma TakenLeavesNoGaps(s: State, b: PoolBlock, d: nat, taken: seq<PoolBlock>)
    requires NoGaps(s.depth) && b in s.Known()
    requires d == s.depth[b] || exists x :: x in taken && Lends(x, b.id) && d == DepthOf(s.depth, x) + 1
    requires forall x :: x in taken ==> x in s.Known() && b.height < x.height <= b.height + 3
    ensures NoGaps(s.depth[b := d])
  {
    if d == s.depth[b] {
      assert s.depth[b := d] == s.depth;
    } else {
      var x :| x in taken && Lends(x, b.id) && d == DepthOf(s.depth, x) + 1;
      RaiseLeavesNoGaps(s.depth, b, d, x);
    }
  }

  /** Raising one depth within the bound affects nothing else. */
  lemma RaisedGood(env: Env, u: set<PoolBlock>, s: State, b: PoolBlock, d: nat)
    requires Good(env, u, s) && b in s.Known() && s.depth[b] <= d && b.height + d <= s.maxHeight
    requires NoGaps(s.depth[b := d])
    requires Low(u, env.c) ==> Rested(env, u, s, {b})
    ensures Good(env, u, RaisedIn(s, b, d)) && Advances(s, RaisedIn(s, b, d))
    ensures Low(u, env.c) ==> Rested(env, u, RaisedIn(s, b, d), {b})
  {
    var t := RaisedIn(s, b, d);
    RaiseOk(u, env.c, s, b, d);
    SameHeightsKeepTwo(s, t);
    FootingKept(env.c, s, t);
    if Low(u, env.c) {
      LowUnaffected(env, u, s, t);
      PendingUnaffected(s, t, {b});
    }
  }

  lemma ChildrenLend(s: State, b: PoolBlock, d: nat, taken: seq<PoolBlock>)
    requires taken == BlocksOnTop(s.byHeight, b.height)
    requires forall x :: x in taken && Lends(x, b.id) ==> DepthOf(s.depth, x) + 1 <= d
    ensures forall x :: x in BlocksAt(s.byHeight, b.height + 1) && x.parent == b.id ==> DepthOf(s.depth, x) + 1 <= d
  {
    AboveIsOnTop(s.byHeight, b, 1);
  }

  // ---------------------------------------------------------------- deep blocks

  /** A genesis block, or one too deep to be checked any more, has its verdict, unless it is on the worklist. */
  ghost predicate DeepAt(c: Consensus, s: State, open: set<PoolBlock>, b: PoolBlock) {
    b in s.Known() && b !in s.verified && (b.height == 0 || DepthOf(s.depth, b) > 2 * c.chainWindowSize + 1) ==>
      b in open
  }

  ghost predicate DeepOk(c: Consensus, s: State, open: set<PoolBlock>) {
    forall b :: DeepAt(c, s, open, b)
  }

  lemma DeepKept(c: Consensus, s: State, t: State, open: set<PoolBlock>)
    requires DeepOk(c, s, open) && t.depth == s.depth && s.verified <= t.verified
    ensures DeepOk(c, t, open)
  {
    forall b ensures DeepAt(c, t, open, b) {
      assert DeepAt(c, s, open, b);
    }
  }

  lemma DeepInsert(c: Consensus, s: State, b: PoolBlock)
    requires DeepOk(c, s, {})
    ensures DeepOk(c, Inserted(s, b), {b})
  {
    forall x ensures DeepAt(c, Inserted(s, b), {b}, x) {
      assert DeepAt(c, s, {}, x);
    }
  }

  lemma DeepRaise(c: Consensus, s: State, b: PoolBlock, d: nat)
    requires DeepOk(c, s, {b})
    ensures DeepOk(c, RaisedIn(s, b, d), {b})
  {
    forall x ensures DeepAt(c, RaisedIn(s, b, d), {b}, x) {
      assert DeepAt(c, s, {b}, x);
    }
  }

  lemma PushesKeepDeep(c: Consensus, s: State, t: State, stack: seq<PoolBlock>, stack': seq<PoolBlock>, cur: PoolBlock)
    requires Pushes(s, t, stack, stack') && DeepOk(c, s, Elements(stack) + {cur})
    requires DeepAt(c, s, {}, cur) && DepthOf(t.depth, cur) == DepthOf(s.depth, cur)
    ensures DeepOk(c, t, Elements(stack'))
  {
    forall x ensures DeepAt(c, t, Elements(stack'), x) {
      assert DeepAt(c, s, Elements(stack) + {cur}, x);
      StillPushed(stack, stack', x);
    }
  }

  /** Such blocks never wait. */
  lemma DeepIsDecided(env: Env, s: State, b: PoolBlock)
    requires ValidConsensus(env.c) && (b.height == 0 || DepthOf(s.depth, b) > 2 * env.c.chainWindowSize + 1)
    ensures VerdictOf(env, s.View(), b) != Waiting
  {
  }

  // ---------------------------------------------------------------- runs

  /** One call of `AddPoolBlock`: the block, whether it can be serialised, and the main chain and
      the time at that moment. */
  datatype Arrival = Arrival(block: PoolBlock, encodes: bool, main: F.MainChain, now: nat)

  ghost predicate EveryBlock(u: set<PoolBlock>, arrivals: seq<Arrival>) {
    forall b :: b in u ==> exists a :: a in arrivals && a.block == b && a.encodes
  }

  ghost predicate AllIn(known: set<PoolBlock>, arrivals: seq<Arrival>) {
    forall a :: a in arrivals && a.encodes ==> a.block in known
  }

  /** Under an id there is only one low block. */
  lemma ArrivalIsKnown(env: Env, u: set<PoolBlock>, s: State, t: State, a: Arrival)
    requires Inv(u, env.c, s) && Low(u, env.c) && a.block in u
    requires a.block.id in s.byId || !a.encodes ==> t == s
    requires a.block.id !in s.byId && a.encodes ==> Added(s, t, a.block)
    ensures s.Known() <= t.Known() && (a.encodes ==> a.block in t.Known())
  {
    if a.block.id in s.byId {
      assert EntryOk(s, a.block.id) && OneObject(u, a.block, s.byId[a.block.id]);
    }
  }

  /** What becomes of low blocks: exactly the valid ones are verified and valid. The tip is one of them, and
      none is heavier, unless one on which no difficulty can be computed is as heavy. */
  ghost predicate Outcome(env: Env, u: set<PoolBlock>, s: State) {
    && ValidSet(s) == (set b | b in u && DagValid(env, u, b))
    && (forall b :: b in u && DagValid(env, u, b) ==> Topped(env, u, b, s.tip))
    && (s.tip.Some? ==> DagValid(env, u, s.tip.value))
  }

  lemma AllArrived(env: Env, u: set<PoolBlock>, s: State, arrivals: seq<Arrival>)
    requires AtRest(env, u, s) && Low(u, env.c) && EveryBlock(u, arrivals) && AllIn(s.Known(), arrivals)
    ensures Outcome(env, u, s)
  {
    ArrivedIsKnown(u, s.Known(), arrivals);
    assert s.Known() == u;
    OutcomeIgnoresOrder(env, u, s);
    HeaviestOutcome(env, u, s);
  }

  lemma ArrivedIsKnown(u: set<PoolBlock>, known: set<PoolBlock>, arrivals: seq<Arrival>)
    requires EveryBlock(u, arrivals) && AllIn(known, arrivals)
    ensures u <= known
  {
    forall b | b in u ensures b in known {
      var a :| a in arrivals && a.block == b && a.encodes;
    }
  }

  lemma HeaviestOutcome(env: Env, u: set<PoolBlock>, s: State)
    requires TipHeaviest(env, u, s) && (s.tip.Some? ==> s.Valid(s.tip.value))
    requires ValidSet(s) == set b | b in u && DagValid(env, u, b)
    ensures Outcome(env, u, s)
  {
    if s.tip.Some? {
      assert s.tip.value in ValidSet(s);
    }
    forall b | b in u && DagValid(env, u, b) ensures Topped(env, u, b, s.tip) {
      assert b in ValidSet(s);
    }
  }

  class SideChain {
    const env: Env
    /** Every block object that can ever be offered. */
    ghost const universe: set<PoolBlock>

    var byId: map<Hash, PoolBlock>
    var byHeight: map<nat, seq<PoolBlock>>
    var keys: seq<nat>
    var keysSorted: bool
    var verified: set<PoolBlock>
    var invalid: set<PoolBlock>
    var depth: map<PoolBlock, nat>
    var cache: map<PoolBlock, IterationCache>
    var tip: Option<PoolBlock>
    var currentDifficulty: nat
    ghost var links: map<PoolBlock, IterationCache>
    ghost var maxHeight: nat

    ghost function Snapshot(): State
      reads this
    {
      State(byId, byHeight, keys, keysSorted, verified, invalid, depth, cache, tip, currentDifficulty, links, maxHeight)
    }

    ghost predicate Valid()
      reads this
    {
      AtRest(env, universe, Snapshot())
    }

    constructor (env: Env, ghost u: set<PoolBlock>)
      requires Universe(u) && ValidConsensus(env.c)
      ensures this.env == env && universe == u
      ensures Valid() && Snapshot() == EMPTY.(currentDifficulty := env.c.minimumDifficulty)
    {
      this.env := env;
      universe := u;
      byId, byHeight, keys, keysSorted := map[], map[], [], false;
      verified, invalid, depth, cache := {}, {}, map[], map[];
      tip, currentDifficulty := None, env.c.minimumDifficulty;
      links, maxHeight := map[], 0;
      new;
      EmptyAtRest(env, u);
    }

    // -------------------------------------------------------------- pruning

    /** Sorts the keys unless they are known to be sorted. */
    method SortKeys()
      requires Inv(universe, env.c, Snapshot())
      modifies this`keys, this`keysSorted
      ensures Inv(universe, env.c, Snapshot()) && keysSorted
      ensures multiset(keys) == multiset(old(keys))
    {
      if !keysSorted {
        SortKeysOk(universe, env.c, Snapshot());
        Selection.SortedIsSorted(keys);
        keys := Selection.Sorted(keys);
        keysSorted := true;
      }
    }

    /** One round of the key loop. `slices.Delete` panics for an index past the keys. */
    method PruneKey(height: nat, keyIndex: nat, now: nat, backing: seq<nat>) returns (backing': seq<nat>)
      requires ValidConsensus(env.c) && keyIndex < |keys| <= |backing| && height in byHeight
      requires forall id :: id in byId ==> byId[id].id == id
      requires forall b :: b in byHeight[height] ==> b.id in byId && byId[b.id] == b
      modifies this`byId, this`byHeight, this`keys, this`cache
      ensures Snapshot() == PrunedAt(env.c, old(Snapshot()), now, height, keyIndex)
      ensures backing' == if Kept(env.c, depth, now, old(byHeight)[height]) == []
        then DeleteShift(backing, |old(keys)|, keyIndex) else backing
    {
      backing' := backing;
      var v;
      v, byId, cache := PruneList(env.c, depth, now, byHeight[height], byId, cache);
      if v == [] {
        byHeight := byHeight - {height};
        backing' := DeleteShift(backing, |keys|, keyIndex);
        keys := Without(keys, keyIndex);
      } else {
        byHeight := byHeight[height := v];
      }
    }

    /** `pruneOldBlocks`, called right after the tip changed. */
    method PruneOldBlocks(now: nat)
      requires Inv(universe, env.c, Snapshot())
      requires RoomToPrune(env.c, Snapshot())
      modifies this`byId, this`byHeight, this`keys, this`keysSorted, this`cache
      ensures Inv(universe, env.c, Snapshot()) && PrunesBelowTip(env.c, old(Snapshot()), Snapshot(), now)
    {
      if tip.None? || tip.value.height < PruneDistance(env.c) {
        return;
      }
      ghost var s := Snapshot();
      SortKeys();
      ghost var r, cut := Snapshot(), tip.value.height - PruneDistance(env.c);
      SameHeightsKeepTwo(s, r);
      PruneBelow(tip.value.height - PruneDistance(env.c), now);
      SortedPrunes(env.c, s, r, Snapshot(), now, cut);
    }

    /** The key loop. */
    method PruneBelow(h: nat, now: nat)
      requires Inv(universe, env.c, Snapshot()) && keysSorted && TwoAbove(Snapshot(), h)
      requires tip.Some? && h + PruneDistance(env.c) == tip.value.height
      modifies this`byId, this`byHeight, this`keys, this`cache
      ensures Inv(universe, env.c, Snapshot()) && Prunes(env.c, old(Snapshot()), Snapshot(), now, h)
    {
      ghost var s0 := Snapshot();
      ghost var low := SweepStarts(universe, env.c, s0, now, h);
      var backing, keyIndex;
      ghost var n;
      backing, keyIndex, low, n := PruneKeys(h, now, s0, low);
      SweepEnds(universe, env.c, s0, Snapshot(), now, h, backing, keyIndex, low, n);
    }

    /** The key loop itself. */
    method PruneKeys(h: nat, now: nat, ghost s0: State, ghost first: nat)
      returns (backing: seq<nat>, keyIndex: nat, ghost low: nat, ghost n: nat)
      requires Sweeping(universe, env.c, s0, Snapshot(), now, h, keys, 0, first, 0)
      modifies this`byId, this`byHeight, this`keys, this`cache
      ensures Sweeping(universe, env.c, s0, Snapshot(), now, h, backing, keyIndex, low, n)
      ensures keyIndex >= |backing| || backing[keyIndex] > h
    {
      backing, keyIndex, low, n := keys, 0, first, 0;
      // in sorted keys nothing further on is at or below the cut
      while keyIndex < |backing| && backing[keyIndex] <= h
        invariant Sweeping(universe, env.c, s0, Snapshot(), now, h, backing, keyIndex, low, n)
        decreases |backing| - keyIndex
      {
        backing, low, n := PruneNext(keyIndex, now, h, backing, s0, low, n);
        keyIndex := keyIndex + 1;
      }
    }

    /** One round of the key loop, and how far the sweep has come. */
    method PruneNext(keyIndex: nat, now: nat, h: nat, backing: seq<nat>, ghost s0: State, ghost low: nat, ghost n: nat)
      returns (backing': seq<nat>, ghost low': nat, ghost n': nat)
      requires Sweeping(universe, env.c, s0, Snapshot(), now, h, backing, keyIndex, low, n)
      requires keyIndex < |backing| && backing[keyIndex] <= h
      modifies this`byId, this`byHeight, this`keys, this`cache
      ensures Sweeping(universe, env.c, s0, Snapshot(), now, h, backing', keyIndex + 1, low', n')
        && |backing'| == |backing|
    {
      ghost var s := Snapshot();
      PruneLoopStep(universe, env.c, s0, s, now, h, backing, keyIndex, low);
      SweepStep(universe, env.c, s0, s, now, h, backing, keyIndex, low, n);
      ghost var gone := Kept(env.c, depth, now, byHeight[backing[keyIndex]]) == [];
      backing' := PruneKey(backing[keyIndex], keyIndex, now, backing);
      low' := if gone then low - 1 else low;
      n' := if gone then n + 2 else n + 1;
    }

    // -------------------------------------------------------------- the tip

    /** The new tip, the difficulty on top of it, and pruning below it. */
    method SetTip(b: PoolBlock, difficulty: nat, now: nat)
      requires Good(env, universe, Snapshot()) && b in verified && b !in invalid
        && DepthOf(depth, b) < env.c.chainWindowSize
      requires difficulty != 0 && R.DifficultyAfter(Store(byId, cache), env.c, b) == R.Difficulty(difficulty)
      modifies this`tip, this`currentDifficulty, this`byId, this`byHeight, this`keys, this`keysSorted, this`cache
      ensures Good(env, universe, Snapshot()) && OnlyForgets(old(Snapshot()), Snapshot())
      ensures tip == Some(b) && currentDifficulty == difficulty
      ensures if b.height < PruneDistance(env.c) then Snapshot() == TipIn(old(Snapshot()), b, difficulty)
        else Prunes(env.c, old(Snapshot()), Snapshot(), now, b.height - PruneDistance(env.c))
      ensures Low(universe, env.c) ==> byId == old(byId)
    {
      ghost var s := Snapshot();
      NewTipGood(env, universe, s, b, difficulty);
      tip, currentDifficulty := Some(b), difficulty;
      assert Snapshot() == TipIn(s, b, difficulty);
      PruneOldBlocks(now);
      NewTipPruned(env, universe, s, Snapshot(), b, difficulty, now);
    }

    /** `updateChainTip`. */
    method UpdateChainTip(b: PoolBlock, main: F.MainChain, now: nat)
      requires Good(env, universe, Snapshot()) && b in depth
      modifies this`tip, this`currentDifficulty, this`byId, this`byHeight, this`keys, this`keysSorted, this`cache
      ensures Good(env, universe, Snapshot()) && OnlyForgets(old(Snapshot()), Snapshot())
      ensures TipMoves(env.c, old(Snapshot()), Snapshot(), main, b, now)
      ensures TipRises(env.c, old(Snapshot()), Snapshot())
      ensures Low(universe, env.c) ==> byId == old(byId)
    {
      if b !in verified || b in invalid {
        return;
      }
      if DepthOf(depth, b) >= env.c.chainWindowSize {
        return;
      }
      if tip == Some(b) {
        return;
      }
      ghost var s := Snapshot();
      KnownAcyclic(universe, env.c, s);
      var choice := F.IsLongerChain(Store(byId, cache), env.c, main, tip, b, true, depth.Keys);
      if choice.longer {
        var difficulty := R.GetDifficultyForNextBlock(Store(byId, cache), env.c, b);
        if difficulty.Difficulty? && difficulty.value != 0 {
          LongerRises(env.c, s, main, b);
          SetTip(b, difficulty.value, now);
        }
      }
    }

    // -------------------------------------------------------------- verification

    /** `verifyLoop`: judge a block, and on success everything that may have waited for it. Fails
        if it finds the block itself invalid. */
    method VerifyLoop(b0: PoolBlock, main: F.MainChain, now: nat, ghost rest: set<PoolBlock>)
      returns (failed: bool, ghost judged: State, ghost trace: seq<Acceptance>, ghost highest: Option<PoolBlock>)
      requires Good(env, universe, Snapshot()) && b0 in depth
      requires Low(universe, env.c) ==> Rested(env, universe, Snapshot(), rest + {b0})
      modifies this`verified, this`invalid, this`links, this`tip, this`currentDifficulty
      modifies this`byId, this`byHeight, this`keys, this`keysSorted, this`cache
      ensures Good(env, universe, Snapshot()) && Settles(old(Snapshot()), Snapshot())
        && OnlyForgets(old(Snapshot()), Snapshot())
      ensures Low(universe, env.c) ==> byId == old(byId) && Rested(env, universe, Snapshot(), rest)
      ensures failed <==> b0 in invalid && b0 !in old(invalid)
      ensures b0 in verified || VerdictOf(env, old(Snapshot()).View(), b0) == Waiting
      ensures OnlyJudges(old(Snapshot()), judged) && Traces(old(Snapshot()), judged, trace)
      ensures highest == Best(env.c, main, trace) && HeaviestOf(old(Snapshot()), judged, trace, highest)
      ensures if highest.None? then Snapshot() == judged
        else TipMoves(env.c, judged, Snapshot(), main, highest.value, now)
    {
      ghost var s := Snapshot();
      var best;
      best, failed, trace := JudgeAll(b0, main, rest);
      judged, highest := Snapshot(), best;
      BestOffered(env.c, main, s, judged, trace);
      if best.Some? {
        UpdateChainTip(best.value, main, now);
      }
      if Low(universe, env.c) {
        RoundRests(env, universe, s, judged, Snapshot(), main, trace, highest, rest, now);
      }
    }

    /** The loop of `verifyLoop`: until nothing on the stack is left to judge. */
    method JudgeAll(b0: PoolBlock, main: F.MainChain, ghost rest: set<PoolBlock>)
      returns (highest: Option<PoolBlock>, failed: bool, ghost trace: seq<Acceptance>)
      requires Good(env, universe, Snapshot()) && b0 in depth
      requires Low(universe, env.c) ==> Pending(Snapshot(), rest + {b0})
      modifies this`verified, this`invalid, this`links, this`cache
      ensures Good(env, universe, Snapshot()) && OnlyJudges(old(Snapshot()), Snapshot())
      ensures Traces(old(Snapshot()), Snapshot(), trace) && highest == Best(env.c, main, trace)
      ensures Low(universe, env.c) ==> Pending(Snapshot(), rest) && AllKin(trace)
      ensures failed <==> b0 in invalid && b0 !in old(invalid)
      ensures b0 in verified || VerdictOf(env, old(Snapshot()).View(), b0) == Waiting
    {
      ghost var s0 := Snapshot();
      var stack := [b0];
      highest, failed, trace := None, false, [];
      StartsVerifying(env, universe, s0, b0, rest);
      while stack != []
        invariant InRound(env, universe, main, s0, Snapshot(), b0, stack, rest, trace, highest, failed)
        invariant b0 in verified || VerdictOf(env, s0.View(), b0) == Waiting || (stack == [b0] && Snapshot() == s0)
        decreases depth.Keys - verified, |stack|
      {
        stack, highest, failed, trace := JudgeNext(stack, highest, failed, main, s0, b0, rest, trace);
      }
      DoneVerifying(env, universe, s0, Snapshot(), b0, rest, trace);
    }

    /** ... which fails if the block that is rejected is the first one. */
    method JudgeNext(stack: seq<PoolBlock>, highest: Option<PoolBlock>, failed: bool, main: F.MainChain,
                     ghost s0: State, b0: PoolBlock, ghost rest: set<PoolBlock>, ghost trace: seq<Acceptance>)
      returns (stack': seq<PoolBlock>, highest': Option<PoolBlock>, failed': bool, ghost trace': seq<Acceptance>)
      requires stack != [] && InRound(env, universe, main, s0, Snapshot(), b0, stack, rest, trace, highest, failed)
      modifies this`verified, this`invalid, this`links, this`cache
      ensures InRound(env, universe, main, s0, Snapshot(), b0, stack', rest, trace', highest', failed')
      ensures if verified == old(verified) then |stack'| < |stack|
        else verified == old(verified) + {stack[|stack| - 1]} && stack[|stack| - 1] in depth
      ensures stack[|stack| - 1] in verified || VerdictOf(env, old(Snapshot()).View(), stack[|stack| - 1]) == Waiting
    {
      var block, verdict := stack[|stack| - 1], Waiting;
      stack', highest', verdict, trace' := JudgeLast(stack, highest, main, s0, b0, rest, trace);
      failed' := failed || (verdict == Rejected && block == b0);
    }

    /** Judges one block and records the verdict in its flags. */
    method Judge(block: PoolBlock) returns (verdict: Verdict)
      requires Inv(universe, env.c, Snapshot()) && block in depth && block !in verified
      modifies this`verified, this`invalid, this`links, this`cache
      ensures verdict == VerdictOf(env, old(Snapshot()).View(), block)
      ensures Snapshot() == match verdict
        case Accepted => AcceptedIn(env.c, old(Snapshot()), block)
        case Rejected => RejectedIn(old(Snapshot()), block)
        case Waiting => old(Snapshot())
    {
      KnownAcyclic(universe, env.c, Snapshot());
      verdict := VerifyBlock(env, View(Store(byId, cache), verified, invalid, depth, tip, currentDifficulty), block,
        depth.Keys);
      match verdict
      case Rejected => verified, invalid := verified + {block}, invalid + {block};
      case Waiting =>
      case Accepted => Accept(block);
    }

    /** `isLongerChain` of the highest block so far and a newly verified one. */
    method Prefer(highest: Option<PoolBlock>, block: PoolBlock, main: F.MainChain) returns (r: Option<PoolBlock>)
      requires Inv(universe, env.c, Snapshot()) && block in depth && (highest.Some? ==> highest.value in depth)
      ensures r == highest || r == Some(block)
      ensures r == if F.LongerChain(Store(byId, cache), env.c, main, highest, block, true).longer then Some(block)
        else highest
    {
      KnownAcyclic(universe, env.c, Snapshot());
      var choice := F.IsLongerChain(Store(byId, cache), env.c, main, highest, block, true, depth.Keys);
      r := if choice.longer then Some(block) else highest;
    }

    /** One round of `verifyLoop`: the block on top of the stack. */
    method JudgeLast(stack: seq<PoolBlock>, highest: Option<PoolBlock>, main: F.MainChain,
                     ghost s0: State, ghost b0: PoolBlock, ghost rest: set<PoolBlock>,
                     ghost trace: seq<Acceptance>)
      returns (stack': seq<PoolBlock>, highest': Option<PoolBlock>, verdict: Verdict, ghost trace': seq<Acceptance>)
      requires stack != [] && Verifying(env, universe, s0, Snapshot(), b0, stack, rest, trace)
        && highest == Best(env.c, main, trace)
      modifies this`verified, this`invalid, this`links, this`cache
      ensures Verifying(env, universe, s0, Snapshot(), b0, stack', rest, trace')
      ensures highest' == Best(env.c, main, trace')
      ensures if verified == old(verified) then |stack'| < |stack|
        else verified == old(verified) + {stack[|stack| - 1]} && stack[|stack| - 1] in depth
      ensures invalid == if verdict == Rejected then old(invalid) + {stack[|stack| - 1]} else old(invalid)
      ensures verdict == Rejected ==> stack[|stack| - 1] !in old(verified)
      ensures stack[|stack| - 1] in verified || VerdictOf(env, old(Snapshot()).View(), stack[|stack| - 1]) == Waiting
    {
      var block := stack[|stack| - 1];
      assert block in stack;
      if block in verified {
        DropStep(env, universe, s0, Snapshot(), b0, stack, rest, trace);
        return stack[..|stack| - 1], highest, Waiting, trace;
      }
      stack', highest', verdict, trace' := JudgeNew(stack, highest, main, s0, b0, rest, trace);
    }

    /** After an accepted block, those above it come next. */
    method PushAbove(stack: seq<PoolBlock>, highest: Option<PoolBlock>, main: F.MainChain, ghost s: State,
                     ghost s0: State, ghost b0: PoolBlock, ghost rest: set<PoolBlock>, ghost trace: seq<Acceptance>)
      returns (stack': seq<PoolBlock>, highest': Option<PoolBlock>, ghost trace': seq<Acceptance>)
      requires stack != [] && Verifying(env, universe, s0, s, b0, stack, rest, trace)
      requires stack[|stack| - 1] in depth && stack[|stack| - 1] !in s.verified && highest == Best(env.c, main, trace)
      requires VerdictOf(env, s.View(), stack[|stack| - 1]) == Accepted
        && Snapshot() == AcceptedIn(env.c, s, stack[|stack| - 1])
      ensures Verifying(env, universe, s0, Snapshot(), b0, stack', rest, trace')
        && highest' == Best(env.c, main, trace')
    {
      var block := stack[|stack| - 1];
      AcceptStep(env, universe, s0, s, b0, stack, rest, trace);
      BestIsKnown(env.c, main, s0, s, trace);
      highest' := Prefer(highest, block, main);
      trace' := trace + [Acceptance(block, Store(byId, cache))];
      BestOneMore(env.c, main, trace, Acceptance(block, Store(byId, cache)));
      // whatever waited for this block is stored at most three heights above
      stack' := stack[..|stack| - 1] + BlocksOnTop(byHeight, block.height);
    }

    /** ... if it has no verdict yet. */
    method JudgeNew(stack: seq<PoolBlock>, highest: Option<PoolBlock>, main: F.MainChain,
                    ghost s0: State, ghost b0: PoolBlock, ghost rest: set<PoolBlock>,
                    ghost trace: seq<Acceptance>)
      returns (stack': seq<PoolBlock>, highest': Option<PoolBlock>, verdict: Verdict, ghost trace': seq<Acceptance>)
      requires stack != [] && Verifying(env, universe, s0, Snapshot(), b0, stack, rest, trace)
        && highest == Best(env.c, main, trace)
      requires stack[|stack| - 1] in depth && stack[|stack| - 1] !in verified
      modifies this`verified, this`invalid, this`links, this`cache
      ensures Verifying(env, universe, s0, Snapshot(), b0, stack', rest, trace')
      ensures highest' == Best(env.c, main, trace')
      ensures if verified == old(verified) then |stack'| < |stack| else verified == old(verified) + {stack[|stack| - 1]}
      ensures invalid == if verdict == Rejected then old(invalid) + {stack[|stack| - 1]} else old(invalid)
      ensures stack[|stack| - 1] in verified || VerdictOf(env, old(Snapshot()).View(), stack[|stack| - 1]) == Waiting
    {
      ghost var s := Snapshot();
      var block := stack[|stack| - 1];
      verdict := Judge(block);
      if verdict == Accepted {
        stack', highest', trace' := PushAbove(stack, highest, main, s, s0, b0, rest, trace);
      } else {
        NotAcceptedStep(env, universe, s0, s, b0, stack, rest, trace);
        stack', highest', trace' := stack[..|stack| - 1], highest, trace;
      }
    }

    /** The parent and all uncles, or nothing if one of them is missing. */
    method FillCache(block: PoolBlock) returns (entry: Option<IterationCache>)
      ensures entry == CacheEntry(Store(byId, cache), block)
    {
      var store := Store(byId, cache);
      var parent := GetParent(store, block);
      if parent.None? {
        return None;
      }
      var uncles: seq<PoolBlock> := [];
      for i := 0 to |block.uncles|
        invariant |uncles| == i && FoundUncles(store, block.uncles) == uncles + FoundUncles(store, block.uncles[i..])
      {
        assert block.uncles[i..][1..] == block.uncles[i + 1..];
        if block.uncles[i] !in byId {
          return None;
        }
        uncles := uncles + [byId[block.uncles[i]]];
      }
      assert uncles + FoundUncles(store, block.uncles[|block.uncles|..]) == uncles;
      return Some(IterationCache(parent.value, uncles));
    }

    /** Marks a block as verified and valid and fills its iteration cache. */
    method Accept(block: PoolBlock)
      modifies this`verified, this`cache, this`links
      ensures Snapshot() == AcceptedIn(env.c, old(Snapshot()), block)
    {
      var entry := FillCache(block);
      verified := verified + {block};
      if entry.Some? {
        cache := cache[block := entry.value];
        if FullyChecked(env.c, Snapshot(), block) {
          links := links[block := entry.value];
        }
      }
    }

    // -------------------------------------------------------------- depths

    /** `updateDepth`. */
    method UpdateDepth(b: PoolBlock, d: nat)
      requires b in depth
      modifies this`depth
      ensures depth == old(depth)[b := if old(depth)[b] < d then d else old(depth)[b]]
    {
      if depth[b] < d {
        depth := depth[b := d];
      }
    }

    /** The loop over the blocks i heights above a new block; stops at one that names the new
        block as its parent from further up. */
    method TakeDepthFrom(block: PoolBlock, above: seq<PoolBlock>, i: nat) returns (consistent: bool, ghost n: nat)
      requires block in depth && block !in above && forall x :: x in above ==> x in depth
      modifies this`depth
      ensures n <= |above|
        && depth == old(depth)[block := TakenDepth(old(depth), block.id, old(depth)[block], above[..n])]
      ensures if consistent then n == |above| else n < |above| && above[n].parent == block.id && i != 1
    {
      ghost var d0 := depth;
      n := 0;
      assert depth == d0[block := d0[block]];
      for k := 0 to |above|
        invariant depth == d0[block := TakenDepth(d0, block.id, d0[block], above[..k])]
      {
        var child := above[k];
        assert child in above && above[..k + 1][..k] == above[..k];
        assert DepthOf(d0, child) == depth[child];
        if child.parent == block.id {
          if i != 1 {
            return false, k;
          }
          UpdateDepth(block, depth[child] + 1);
        }
        if IndexOf(child.uncles, block.id) != 1 {
          UpdateDepth(block, depth[child] + 1);
        }
      }
      assert above[..|above|] == above;
      return true, |above|;
    }

    /** One height of the first loops of `updateDepths`. */
    method TakeDepthAt(block: PoolBlock, i: nat, ghost d0: map<PoolBlock, nat>, ghost taken: seq<PoolBlock>)
      returns (consistent: bool, ghost taken': seq<PoolBlock>)
      requires 1 <= i <= UNCLE_BLOCK_DEPTH && block in d0
        && depth == d0[block := TakenDepth(d0, block.id, d0[block], taken)]
      requires taken == BlocksUpTo(byHeight, block.height, i - 1)
      requires forall x :: x in BlocksOnTop(byHeight, block.height) ==> x in d0 && x != block
      modifies this`depth
      ensures depth == d0[block := TakenDepth(d0, block.id, d0[block], taken')]
      ensures taken' <= BlocksOnTop(byHeight, block.height)
      ensures if consistent then taken' == BlocksUpTo(byHeight, block.height, i) else Misplaced(byHeight, block)
    {
      var above := BlocksAt(byHeight, block.height + i);
      ghost var n, d1 := 0, depth;
      AboveIsOnTop(byHeight, block, i);
      consistent, n := TakeDepthFrom(block, above, i);
      TookFromAbove(byHeight, block.height, i, n);
      TakenDepthNext(d0, d1, block, taken, above[..n]);
      taken' := taken + above[..n];
      assert consistent ==> above[..n] == above;
      if !consistent {
        IsMisplaced(byHeight, block, i, above[n]);
      }
    }

    /** The first loops of `updateDepths`: the new block takes its depth from the blocks above. */
    method TakeDepth(block: PoolBlock) returns (consistent: bool, ghost taken: seq<PoolBlock>)
      requires block in depth
      requires forall x :: x in BlocksOnTop(byHeight, block.height) ==> x in depth && x != block
      modifies this`depth
      ensures depth == old(depth)[block := TakenDepth(old(depth), block.id, old(depth)[block], taken)]
      ensures taken <= BlocksOnTop(byHeight, block.height)
      ensures if consistent then taken == BlocksOnTop(byHeight, block.height) else Misplaced(byHeight, block)
    {
      ghost var d0 := depth;
      taken := [];
      assert depth == d0[block := d0[block]];
      for i := 1 to 4
        invariant depth == d0[block := TakenDepth(d0, block.id, d0[block], taken)]
        invariant taken == BlocksUpTo(byHeight, block.height, i - 1)
      {
        consistent, taken := TakeDepthAt(block, i, d0, taken);
        if !consistent {
          return;
        }
      }
      consistent := true;
    }

    /** What one block i heights above gets from this one. */
    method Lift(child: PoolBlock, i: nat, block: PoolBlock, blockDepth: nat) returns (consistent: bool)
      requires i >= 1 && child in depth
      modifies this`depth
      ensures child in depth && old(depth)[child] <= depth[child] && depth == old(depth)[child := depth[child]]
      ensures depth[child] == old(depth)[child] || depth[child] + i == blockDepth
      ensures if consistent then child.parent == block.id || block.id in child.uncles ==> blockDepth <= depth[child] + i
        else child.parent == block.id && i != 1 && depth == old(depth)
    {
      if child.parent == block.id {
        if i != 1 {
          return false;
        }
        if blockDepth > 0 {
          UpdateDepth(child, blockDepth - 1);
        }
      }
      if block.id in child.uncles {
        if blockDepth > i {
          UpdateDepth(child, blockDepth - i);
        }
      }
      consistent := true;
    }

    /** One round of a child loop: what rises is pushed. */
    method RaiseChild(child: PoolBlock, i: nat, block: PoolBlock, blockDepth: nat, stack: seq<PoolBlock>,
                      ghost s: State, ghost stack0: seq<PoolBlock>)
      returns (consistent: bool, stack': seq<PoolBlock>)
      requires child in depth && child != block && block in depth && depth[block] == blockDepth
      requires 1 <= i < 4 && child.height == block.height + i && Pushes(s, Snapshot(), stack0, stack)
      modifies this`depth
      ensures Pushes(s, Snapshot(), stack0, stack')
      ensures child in depth && old(depth)[child] <= depth[child] && depth == old(depth)[child := depth[child]]
      ensures if consistent then Lifted(depth, child, block, i) else child.parent == block.id && i != 1
    {
      ghost var before := Snapshot();
      stack' := stack;
      var oldDepth := depth[child];
      consistent := Lift(child, i, block, blockDepth);
      if depth[child] > oldDepth {
        stack' := stack + [child];
        RaiseAlso(s, before, child, depth[child], stack0, stack, block);
        assert Snapshot() == RaisedIn(before, child, depth[child]);
      } else {
        assert depth == before.depth && Snapshot() == before;
      }
    }

    /** ... after those before it in the list. */
    method RaiseNext(children: seq<PoolBlock>, k: nat, i: nat, block: PoolBlock, blockDepth: nat, stack: seq<PoolBlock>,
                     ghost s: State, ghost stack0: seq<PoolBlock>)
      returns (consistent: bool, stack': seq<PoolBlock>)
      requires block in depth && depth[block] == blockDepth && 1 <= i < 4 && k < |children|
      requires children == BlocksAt(byHeight, block.height + i) && ListedAbove(byHeight, depth.Keys, block, i)
      requires Pushes(s, Snapshot(), stack0, stack) && FirstLifted(depth, children, k, block, i)
      modifies this`depth
      ensures Pushes(s, Snapshot(), stack0, stack') && block in depth && depth[block] == blockDepth
      ensures if consistent then FirstLifted(depth, children, k + 1, block, i) else Misplaced(byHeight, block)
    {
      ghost var before := depth;
      var child := children[k];
      assert child in children;
      consistent, stack' := RaiseChild(child, i, block, blockDepth, stack, s, stack0);
      if consistent {
        OneMoreLifted(before, depth, children, k, block, i);
      }
    }

    /** One of the child loops: the blocks i heights above. */
    method RaiseAll(children: seq<PoolBlock>, i: nat, block: PoolBlock, blockDepth: nat, stack: seq<PoolBlock>)
      returns (consistent: bool, stack': seq<PoolBlock>)
      requires DepthsOk(Snapshot()) && block in depth && depth[block] == blockDepth && 1 <= i < 4
      requires children == BlocksAt(byHeight, block.height + i) && ListedAbove(byHeight, depth.Keys, block, i)
      modifies this`depth
      ensures Pushes(old(Snapshot()), Snapshot(), stack, stack') && depth[block] == blockDepth
      ensures if consistent then AllLifted(Snapshot(), block, i) else Misplaced(byHeight, block)
    {
      ghost var s := Snapshot();
      stack' := stack;
      PushesNothing(s, stack);
      for k := 0 to |children|
        invariant Pushes(s, Snapshot(), stack, stack') && depth[block] == blockDepth
        invariant FirstLifted(depth, children, k, block, i)
      {
        consistent, stack' := RaiseNext(children, k, i, block, blockDepth, stack', s, stack);
        if !consistent {
          return;
        }
      }
      consistent := true;
    }

    /** ... for one height after another. */
    method RaiseHeight(i: nat, block: PoolBlock, blockDepth: nat, stack: seq<PoolBlock>, ghost s: State,
                       ghost stack0: seq<PoolBlock>)
      returns (consistent: bool, stack': seq<PoolBlock>)
      requires 1 <= i < 4 && block in depth && depth[block] == blockDepth && AllListedAbove(Snapshot(), block)
      requires Pushes(s, Snapshot(), stack0, stack) && LiftedBelow(Snapshot(), block, i)
      modifies this`depth
      ensures Pushes(s, Snapshot(), stack0, stack') && depth[block] == blockDepth && AllListedAbove(Snapshot(), block)
      ensures if consistent then LiftedBelow(Snapshot(), block, i + 1) else Misplaced(byHeight, block)
    {
      assert ListedAbove(byHeight, depth.Keys, block, i);
      ghost var before := Snapshot();
      consistent, stack' := RaiseAll(BlocksAt(byHeight, block.height + i), i, block, blockDepth, stack);
      PushesTransitive(s, before, Snapshot(), stack0, stack, stack');
      LiftedNext(before, Snapshot(), stack, stack', block, i);
    }

    /** The child loops of one round. */
    method RaiseChildren(block: PoolBlock, blockDepth: nat, stack: seq<PoolBlock>)
      returns (consistent: bool, stack': seq<PoolBlock>)
      requires DepthsOk(Snapshot()) && block in depth && depth[block] == blockDepth && AllListedAbove(Snapshot(), block)
      modifies this`depth
      ensures Pushes(old(Snapshot()), Snapshot(), stack, stack') && depth[block] == blockDepth
      ensures if consistent then LiftedBelow(Snapshot(), block, 4) else Misplaced(byHeight, block)
    {
      ghost var s := Snapshot();
      stack' := stack;
      PushesNothing(s, stack);
      for i := 1 to 4
        invariant Pushes(s, Snapshot(), stack, stack') && depth[block] == blockDepth
          && AllListedAbove(Snapshot(), block)
        invariant LiftedBelow(Snapshot(), block, i)
      {
        consistent, stack' := RaiseHeight(i, block, blockDepth, stack', s, stack);
        if !consistent {
          return;
        }
      }
      consistent := true;
    }

    /** Raises a block to at least this depth, and pushes it if it rose. */
    method RaiseTo(b: PoolBlock, d: nat, stack: seq<PoolBlock>, ghost from: PoolBlock) returns (stack': seq<PoolBlock>)
      requires DepthsOk(Snapshot()) && b in depth && LevelWith(depth, b, d, from)
      modifies this`depth
      ensures Pushes(old(Snapshot()), Snapshot(), stack, stack')
      ensures b in depth && d <= depth[b] && depth == old(depth)[b := depth[b]]
    {
      ghost var s := Snapshot();
      stack' := stack;
      if depth[b] < d {
        RaisePushes(s, b, d, stack, from);
        UpdateDepth(b, d);
        assert Snapshot() == RaisedIn(s, b, d);
        stack' := stack + [b];
      } else {
        PushesNothing(s, stack);
        assert depth == depth[b := depth[b]];
      }
    }

    /** The parent must be one deeper. */
    method RaiseParent(block: PoolBlock, blockDepth: nat, stack: seq<PoolBlock>)
      returns (consistent: bool, stack': seq<PoolBlock>)
      requires Sound(universe, env.c, Snapshot()) && block in depth && depth[block] == blockDepth
      modifies this`depth
      ensures Pushes(old(Snapshot()), Snapshot(), stack, stack') && depth[block] == blockDepth
      ensures var p := GetParent(Store(byId, cache), block);
        if consistent then p.Some? ==>
          p.value.height + 1 == block.height && block.height + blockDepth <= Level(Snapshot(), p.value)
        else p.Some? && p.value.height + 1 != block.height
    {
      ghost var s := Snapshot();
      stack' := stack;
      PushesNothing(s, stack);
      var parent := GetParent(Store(byId, cache), block);
      if parent.Some? {
        ParentIsNamed(universe, env.c, s, block);
        if parent.value.height + 1 != block.height {
          return false, stack;
        }
        stack' := RaiseTo(parent.value, blockDepth + 1, stack, block);
      }
      consistent := true;
    }

    /** An uncle must be deeper by the difference of heights. */
    method RaiseUncle(uncle: PoolBlock, block: PoolBlock, blockDepth: nat, stack: seq<PoolBlock>)
      returns (consistent: bool, stack': seq<PoolBlock>)
      requires DepthsOk(Snapshot()) && uncle in depth && block in depth && depth[block] == blockDepth
      modifies this`depth
      ensures Pushes(old(Snapshot()), Snapshot(), stack, stack') && depth[block] == blockDepth
      ensures consistent == UncleHeightOk(block, uncle)
      ensures consistent ==> block.height + blockDepth <= Level(Snapshot(), uncle)
    {
      if uncle.height >= block.height || uncle.height + UNCLE_BLOCK_DEPTH < block.height {
        PushesNothing(Snapshot(), stack);
        return false, stack;
      }
      var d := block.height - uncle.height;
      stack' := RaiseTo(uncle, blockDepth + d, stack, block);
      consistent := true;
    }

    /** The uncles; a misplaced one does not stop the iteration. */
    method RaiseUncles(us: seq<PoolBlock>, block: PoolBlock, blockDepth: nat, stack: seq<PoolBlock>)
      returns (consistent: bool, stack': seq<PoolBlock>)
      requires DepthsOk(Snapshot()) && block in depth && depth[block] == blockDepth
      requires forall x :: x in us ==> x in depth
      modifies this`depth
      ensures Pushes(old(Snapshot()), Snapshot(), stack, stack') && depth[block] == blockDepth
      ensures consistent == Placed(block, us) && UnclesReach(Snapshot(), us, block, block.height + blockDepth)
    {
      ghost var s := Snapshot();
      stack' := stack;
      PushesNothing(s, stack);
      consistent := true;
      for k := 0 to |us|
        invariant Pushes(s, Snapshot(), stack, stack') && depth[block] == blockDepth
        invariant consistent == Placed(block, us[..k])
          && UnclesReach(Snapshot(), us[..k], block, block.height + blockDepth)
      {
        ghost var before, stack0 := Snapshot(), stack';
        var placed;
        placed, stack' := RaiseUncle(us[k], block, blockDepth, stack');
        PushesTransitive(s, before, Snapshot(), stack, stack0, stack');
        OneMoreUncle(before, Snapshot(), stack0, stack', us, k, block, block.height + blockDepth);
        consistent := consistent && placed;
      }
      assert us[..|us|] == us;
    }

    /** One round of the worklist: children, parent and uncles. It breaks off at a reference from
        a wrong height. */
    method Spread(block: PoolBlock, blockDepth: nat, stack: seq<PoolBlock>)
      returns (consistent: bool, stack': seq<PoolBlock>)
      requires Inv(universe, env.c, Snapshot()) && block in depth && depth[block] == blockDepth
      modifies this`depth
      ensures Pushes(old(Snapshot()), Snapshot(), stack, stack') && depth[block] == blockDepth
      ensures consistent ==> LiftedBelow(Snapshot(), block, 4) && ParentReaches(Snapshot(), block)
      ensures consistent ==>
        UnclesReach(Snapshot(), IteratedUncles(Store(byId, cache), block), block, block.height + blockDepth)
      ensures Tidy(universe) ==> consistent
    {
      ghost var s0 := Snapshot();
      if Tidy(universe) {
        TidyIsConsistent(universe, env.c, s0, block);
      }
      IndexListsAllAbove(s0, block);
      consistent, stack' := RaiseChildren(block, blockDepth, stack);
      if !consistent {
        return;
      }
      ghost var s1, stack1 := Snapshot(), stack';
      PushesOk(universe, env.c, s0, s1, stack, stack1);
      consistent, stack' := SpreadDown(block, blockDepth, stack');
      PushesTransitive(s0, s1, Snapshot(), stack, stack1, stack');
      PushesKeepsReach(universe, env.c, s1, Snapshot(), stack1, stack', block);
    }

    /** Parent and uncles. */
    method SpreadDown(block: PoolBlock, blockDepth: nat, stack: seq<PoolBlock>)
      returns (consistent: bool, stack': seq<PoolBlock>)
      requires Inv(universe, env.c, Snapshot()) && block in depth && depth[block] == blockDepth
      modifies this`depth
      ensures Pushes(old(Snapshot()), Snapshot(), stack, stack') && depth[block] == blockDepth
      ensures consistent ==> ParentReaches(Snapshot(), block)
      ensures consistent ==>
        UnclesReach(Snapshot(), IteratedUncles(Store(byId, cache), block), block, block.height + blockDepth)
      ensures Tidy(universe) ==> consistent
    {
      ghost var s1 := Snapshot();
      if Tidy(universe) {
        TidyIsConsistent(universe, env.c, s1, block);
      }
      consistent, stack' := RaiseParent(block, blockDepth, stack);
      if !consistent {
        return;
      }
      ghost var s2, stack2 := Snapshot(), stack';
      PushesOk(universe, env.c, s1, s2, stack, stack2);
      UnclesAreNamed(universe, env.c, s2, block);
      consistent, stack' := RaiseUncles(IteratedUncles(Store(byId, cache), block), block, blockDepth, stack');
      PushesTransitive(s1, s2, Snapshot(), stack, stack2, stack');
      PushesKeepsReach(universe, env.c, s2, Snapshot(), stack2, stack', block);
    }

    /** `updateDepths` for a block that was just added. */
    method UpdateDepths(b: PoolBlock, main: F.MainChain, now: nat)
      requires Good(env, universe, Snapshot()) && b in depth
      requires Tidy(universe) ==> EdgesBesides(Snapshot(), b) && DeepOk(env.c, Snapshot(), {b})
      requires Low(universe, env.c) ==> Rested(env, universe, Snapshot(), {b})
      modifies this
      ensures Good(env, universe, Snapshot()) && Advances(old(Snapshot()), Snapshot())
      ensures Tidy(universe) ==> EdgesExcept(Snapshot(), {}) && DeepOk(env.c, Snapshot(), {})
      ensures Low(universe, env.c) ==> byId == old(byId) && Rested(env, universe, Snapshot(), {b})
    {
      ghost var s0 := Snapshot();
      var consistent := StartSpreading(b);
      var stack := [b];
      while consistent && stack != []
        invariant Spreading(env, universe, s0, Snapshot(), stack, b) && (Tidy(universe) ==> consistent)
        decreases SlackOf(Snapshot()) + |stack|
      {
        consistent, stack := SpreadLast(stack, main, now, s0, b);
      }
      assert stack == [] ==> Elements(stack) == {};
    }

    /** The depth taken from the blocks above is where the worklist starts. */
    method StartSpreading(b: PoolBlock) returns (consistent: bool)
      requires Good(env, universe, Snapshot()) && b in depth
      requires Tidy(universe) ==> EdgesBesides(Snapshot(), b) && DeepOk(env.c, Snapshot(), {b})
      requires Low(universe, env.c) ==> Rested(env, universe, Snapshot(), {b})
      modifies this`depth
      ensures Spreading(env, universe, old(Snapshot()), Snapshot(), [b], b) && (Tidy(universe) ==> consistent)
    {
      ghost var s0 := Snapshot();
      OnTopListed(s0, b);
      ghost var taken;
      consistent, taken := TakeDepth(b);
      TakenStep(env, universe, s0, b, taken, consistent);
      assert Snapshot() == RaisedIn(s0, b, TakenDepth(s0.depth, b.id, s0.depth[b], taken));
    }

    /** One round of the worklist. */
    method SpreadLast(stack: seq<PoolBlock>, main: F.MainChain, now: nat, ghost s0: State, ghost b: PoolBlock)
      returns (consistent: bool, stack': seq<PoolBlock>)
      requires stack != [] && Spreading(env, universe, s0, Snapshot(), stack, b)
      modifies this
      ensures Spreading(env, universe, s0, Snapshot(), stack', b) && (Tidy(universe) ==> consistent)
      ensures SlackOf(Snapshot()) + |stack'| < old(SlackOf(Snapshot())) + |stack|
    {
      var block := stack[|stack| - 1];
      assert block in stack;
      VerifyDeep(block, main, now, s0, stack, b);
      ghost var s := Snapshot();
      consistent, stack' := Spread(block, depth[block], stack[..|stack| - 1]);
      SpreadStep(env, universe, s0, s, Snapshot(), stack, stack', b);
    }

    /** Verifies a block whose verdict is certain, and possibly others on top of it. */
    method VerifyDeep(block: PoolBlock, main: F.MainChain, now: nat, ghost s0: State, ghost stack: seq<PoolBlock>,
                      ghost b: PoolBlock)
      requires Spreading(env, universe, s0, Snapshot(), stack, b) && block in depth
      modifies this`verified, this`invalid, this`links, this`tip, this`currentDifficulty
      modifies this`byId, this`byHeight, this`keys, this`keysSorted, this`cache
      ensures Spreading(env, universe, s0, Snapshot(), stack, b) && SlackOf(Snapshot()) == old(SlackOf(Snapshot()))
      ensures DeepAt(env.c, Snapshot(), {}, block)
    {
      if block !in verified && (depth[block] >= env.c.chainWindowSize * 2 || block.height == 0) {
        ghost var s := Snapshot();
        if Low(universe, env.c) {
          PendingMore(s, {b}, {b} + {block});
        }
        var _, _, _, _ := VerifyLoop(block, main, now, {b});
        VerifyKeepsSpreading(env, universe, s0, s, Snapshot(), stack, b);
        if block.height == 0 || depth[block] > 2 * env.c.chainWindowSize + 1 {
          DeepIsDecided(env, s, block);
        }
      }
    }

    // -------------------------------------------------------------- adding blocks

    /** The height index and its list of keys, which stays sorted if the block only extends it. */
    method InsertHeight(b: PoolBlock)
      modifies this`byHeight, this`keys, this`keysSorted
      ensures var t := Inserted(old(Snapshot()), b);
        byHeight == t.byHeight && keys == t.keys && keysSorted == t.keysSorted
      ensures keysSorted == (old(keysSorted)
        && (b.height in old(byHeight) || (|old(keys)| > 0 && b.height == old(keys)[|old(keys)| - 1] + 1)))
    {
      if b.height in byHeight {
        byHeight := byHeight[b.height := byHeight[b.height] + [b]];
      } else {
        byHeight := byHeight[b.height := [b]];
        if !(keysSorted && |keys| > 0 && keys[|keys| - 1] + 1 == b.height) {
          keysSorted := false;
        }
        keys := keys + [b.height];
      }
    }

    /** The block enters the indexes. */
    method Insert(b: PoolBlock)
      modifies this`byId, this`byHeight, this`keys, this`keysSorted, this`depth, this`links, this`maxHeight
      ensures Snapshot() == Inserted(old(Snapshot()), b)
    {
      ghost var s := Snapshot();
      InsertHeight(b);
      assert Snapshot() == s.(byHeight := byHeight, keys := keys, keysSorted := keysSorted);
      byId := byId[b.id := b];
      depth := depth[b := DepthOf(depth, b)];
      links := links - {b};
      maxHeight := if b.height > maxHeight then b.height else maxHeight;
    }

    /** The end of `AddPoolBlock`: judge the block, unless the update of depths already did. */
    method Conclude(b: PoolBlock, main: F.MainChain, now: nat)
      returns (failed: bool, ghost judged: State, ghost trace: seq<Acceptance>)
      requires Good(env, universe, Snapshot()) && b in depth
      requires Tidy(universe) ==> EdgesExcept(Snapshot(), {}) && DeepOk(env.c, Snapshot(), {})
      requires Low(universe, env.c) ==> Rested(env, universe, Snapshot(), {b})
      modifies this`verified, this`invalid, this`links, this`tip, this`currentDifficulty
      modifies this`byId, this`byHeight, this`keys, this`keysSorted, this`cache
      ensures Valid() && Settles(old(Snapshot()), Snapshot()) && OnlyForgets(old(Snapshot()), Snapshot())
      ensures failed <==> b in invalid && b !in old(invalid)
      ensures Concluded(env.c, old(Snapshot()), Snapshot(), main, b, now, judged, trace)
      ensures Low(universe, env.c) ==> byId == old(byId)
    {
      ghost var s := Snapshot();
      failed, judged, trace := false, s, [];
      if b in verified {
        if Low(universe, env.c) {
          assert {b} == {} + {b};
          PendingDrop(env, universe, s, b, {});
        }
        if b !in invalid {
          UpdateChainTip(b, main, now);
          if Low(universe, env.c) {
            PendingUnaffected(s, Snapshot(), {});
            OfferKeepsHeaviest(env, universe, s, Snapshot(), main, b, now);
          }
        }
      } else {
        assert {b} == {} + {b};
        ghost var highest;
        failed, judged, trace, highest := VerifyLoop(b, main, now, {});
      }
      if Tidy(universe) {
        ShrinkKeepsEdges(s, Snapshot(), {});
        DeepKept(env.c, s, Snapshot(), {});
      }
    }

    /** `AddPoolBlock`; `encodes` says whether the block can be serialised. */
    method AddPoolBlock(b: PoolBlock, encodes: bool, main: F.MainChain, now: nat)
      returns (failed: bool, ghost ready: State, ghost judged: State, ghost trace: seq<Acceptance>)
      requires Valid() && b in universe
      modifies this
      ensures Valid()
      ensures b.id in old(byId) || !encodes ==> Snapshot() == old(Snapshot()) && failed == (b.id !in old(byId))
      ensures b.id !in old(byId) && encodes ==>
        && Added(old(Snapshot()), Snapshot(), b)
        && Advances(Inserted(old(Snapshot()), b), ready)
        && Concluded(env.c, ready, Snapshot(), main, b, now, judged, trace)
        && (failed ==> b in invalid && b !in old(invalid))
        && (Low(universe, env.c) ==> byId == old(byId)[b.id := b])
    {
      ready, judged, trace := Snapshot(), Snapshot(), [];
      if b.id in byId {
        failed := false;
        return;
      }
      if !encodes {
        failed := true;
        return;
      }
      ghost var s := Snapshot();
      InsertGood(env, universe, s, b);
      Insert(b);
      UpdateDepths(b, main, now);
      ready := Snapshot();
      failed, judged, trace := Conclude(b, main, now);
      AdvancesAdded(s, ready, Snapshot(), b);
    }

    /** One more call. */
    method AddArrival(a: Arrival)
      requires Valid() && a.block in universe
      modifies this
      ensures Valid()
      ensures Low(universe, env.c) ==> old(depth.Keys) <= depth.Keys && (a.encodes ==> a.block in depth.Keys)
    {
      ghost var s := Snapshot();
      var _, _, _, _ := AddPoolBlock(a.block, a.encodes, a.main, a.now);
      if Low(universe, env.c) {
        ArrivalIsKnown(env, universe, s, Snapshot(), a);
      }
    }

    /** Any number of calls. If the blocks are low and every one of them arrives, exactly the valid
        ones end up verified and valid, in whatever order they came. None of them is heavier than
        the tip, unless one on which no difficulty can be computed is as heavy. */
    method AddAll(arrivals: seq<Arrival>)
      requires Valid() && depth == map[] && forall a :: a in arrivals ==> a.block in universe
      modifies this
      ensures Valid()
      ensures Low(universe, env.c) && EveryBlock(universe, arrivals) ==> Outcome(env, universe, Snapshot())
    {
      for i := 0 to |arrivals|
        invariant Valid() && (Low(universe, env.c) ==> AllIn(depth.Keys, arrivals[..i]))
      {
        AddArrival(arrivals[i]);
        assert arrivals[..i + 1] == arrivals[..i] + [arrivals[i]];
      }
      assert arrivals[..|arrivals|] == arrivals;
      if Low(universe, env.c) && EveryBlock(universe, arrivals) {
        AllArrived(env, universe, Snapshot(), arrivals);
      }
    }
  }
}
