/** Which block ends up as the tip: the best of those accepted in a round of verification, and, among blocks
    below the window size, one with the greatest cumulative difficulty of all valid blocks. */
module Heaviest {
  import opened Blocks
  import opened Verification
  import opened ChainState
  import opened ChainSteps
  import opened ArrivalOrder
  import R = Retarget
  import F = ForkChoice

  // ---------------------------------------------------------------- the best of a round

  /** A block that was accepted, and the store right after that. */
  datatype Acceptance = Acceptance(block: PoolBlock, store: Blocks.Store)

  /** Keeping, in order of acceptance, the block on the longer chain. */
  ghost function Best(c: Consensus, main: F.MainChain, trace: seq<Acceptance>): Option<PoolBlock> {
    if trace == [] then None
    else
      var best, a := Best(c, main, trace[..|trace| - 1]), trace[|trace| - 1];
      if F.LongerChain(a.store, c, main, best, a.block, true).longer then Some(a.block) else best
  }

  ghost predicate InTrace(trace: seq<Acceptance>, b: PoolBlock) {
    exists i :: 0 <= i < |trace| && trace[i].block == b
  }

  /** The trace lists the blocks that became valid, each once. */
  ghost predicate Traces(s0: State, s: State, trace: seq<Acceptance>) {
    && (forall b :: s.Valid(b) && b !in s0.verified <==> InTrace(trace, b))
    && (forall i, j :: 0 <= i < j < |trace| ==> trace[i].block != trace[j].block)
  }

  /** Each block was accepted when it had a common ancestor with all those before it. */
  ghost predicate AllKin(trace: seq<Acceptance>) {
    forall i, j :: 0 <= i < j < |trace| ==> F.Related(trace[j].store, trace[i].block, trace[j].block)
  }

  lemma BestOneMore(c: Consensus, main: F.MainChain, trace: seq<Acceptance>, a: Acceptance)
    ensures Best(c, main, trace + [a]) ==
      if F.LongerChain(a.store, c, main, Best(c, main, trace), a.block, true).longer then Some(a.block)
      else Best(c, main, trace)
  {
    assert (trace + [a])[..|trace|] == trace;
  }

  /** Among kin the best block has the greatest cumulative difficulty, and is the first one that does. */
  lemma {:induction false} BestIsHeaviest(c: Consensus, main: F.MainChain, trace: seq<Acceptance>) returns (k: nat)
    requires AllKin(trace) && trace != []
    ensures k < |trace| && Best(c, main, trace) == Some(trace[k].block)
    ensures forall i :: 0 <= i < |trace| ==> trace[i].block.cumulative <= trace[k].block.cumulative
    ensures forall i :: 0 <= i < k ==> trace[i].block.cumulative < trace[k].block.cumulative
    decreases |trace|
  {
    var n := |trace| - 1;
    if n == 0 {
      k := 0;
      assert Best(c, main, trace[..0]) == None;
    } else {
      k := BestIsHeaviest(c, main, trace[..n]);
      assert F.Related(trace[n].store, trace[k].block, trace[n].block);
      assert forall i :: 0 <= i < n ==> trace[..n][i] == trace[i];
      if trace[k].block.cumulative < trace[n].block.cumulative {
        k := n;
      }
    }
  }

  /** Whether or not they are kin, the best block is one of those accepted, and there is one if there can be. */
  lemma {:induction false} BestIsAccepted(c: Consensus, main: F.MainChain, trace: seq<Acceptance>)
    ensures Best(c, main, trace).None? <==> trace == []
    ensures Best(c, main, trace).Some? ==> InTrace(trace, Best(c, main, trace).value)
  {
    if trace != [] {
      var n := |trace| - 1;
      BestIsAccepted(c, main, trace[..n]);
      var best := Best(c, main, trace[..n]);
      if best.Some? {
        var i :| 0 <= i < n && trace[..n][i].block == best.value;
        assert trace[i].block == best.value;
      }
    }
  }

  lemma TraceOneMore(s0: State, s: State, t: State, trace: seq<Acceptance>, a: Acceptance)
    requires Traces(s0, s, trace) && a.block !in s.verified && s0.verified <= s.verified
    requires t.verified == s.verified + {a.block} && t.invalid == s.invalid && a.block !in s.invalid
    ensures Traces(s0, t, trace + [a])
  {
    var more := trace + [a];
    forall b ensures t.Valid(b) && b !in s0.verified <==> InTrace(more, b) {
      if InTrace(trace, b) {
        var i :| 0 <= i < |trace| && trace[i].block == b;
        assert more[i].block == b;
      }
      if b == a.block {
        assert more[|trace|].block == b;
      }
    }
    forall i, j | 0 <= i < j < |more| ensures more[i].block != more[j].block {
      assert InTrace(trace, trace[i].block);
    }
  }

  lemma TraceUnaffected(s0: State, s: State, t: State, trace: seq<Acceptance>)
    requires Traces(s0, s, trace) && forall b :: t.Valid(b) <==> s.Valid(b)
    ensures Traces(s0, t, trace)
  {
  }

  // ---------------------------------------------------------------- low blocks are kin

  lemma LowParent(env: Env, u: set<PoolBlock>, s: State, b: PoolBlock)
    requires LowChain(env, u, s) && s.Valid(b)
    ensures var p := GetParent(s.Store(), b);
      if b.height == 0 then p == None && b.parent == ZERO_HASH
      else p.Some? && s.Valid(p.value) && p.value.height + 1 == b.height && p.value.rank < b.rank
  {
    if b.height == 0 {
      GenesisTwin(env, u, s, b);
      NothingHasEmptyId(env, u, s);
      assert GenesisVerified(env.c, s, b);
    } else {
      LinkedTwin(env, u, s, b);
      assert LowAt(env, u, s, b) && LinkOk(s, b);
      assert Coherent(u, b, s.links[b].parent);
    }
  }

  lemma LowStepwise(env: Env, u: set<PoolBlock>, s: State)
    requires LowChain(env, u, s)
    ensures F.Stepwise(s.Store(), ValidSet(s)) && Acyclic(s.Store(), ValidSet(s))
  {
    forall b | b in ValidSet(s) && GetParent(s.Store(), b).Some?
      ensures var p := GetParent(s.Store(), b).value;
        p in ValidSet(s) && p.height + 1 == b.height && p.rank < b.rank
    {
      LowParent(env, u, s, b);
    }
  }

  /** Every valid low block has a line of ancestors down to a genesis block. */
  lemma {:induction false} LowLine(env: Env, u: set<PoolBlock>, s: State, b: PoolBlock) returns (line: seq<PoolBlock>)
    requires LowChain(env, u, s) && s.Valid(b)
    ensures Lineage(s.Store(), b, line)
    ensures line[|line| - 1].height == 0 && line[|line| - 1].parent == ZERO_HASH
    decreases b.height
  {
    LowParent(env, u, s, b);
    line := [b];
    if b.height > 0 {
      var p := GetParent(s.Store(), b).value;
      line := LowLine(env, u, s, p);
      LineageFrom(s.Store(), b, p, line);
      line := [b] + line;
    }
  }

  /** All genesis blocks name the same parent, none, so any two valid low blocks count as related. */
  lemma LowRelated(env: Env, u: set<PoolBlock>, s: State, a: PoolBlock, b: PoolBlock)
    requires LowChain(env, u, s) && s.Valid(a) && s.Valid(b)
    ensures F.Related(s.Store(), a, b)
  {
    var p := LowLine(env, u, s, a);
    var q := LowLine(env, u, s, b);
    assert F.SameRoots(s.Store(), a, b, p, q);
    LowStepwise(env, u, s);
    F.RelatedMeaning(s.Store(), ValidSet(s), a, b);
  }

  lemma KinOneMore(env: Env, u: set<PoolBlock>, s0: State, s: State, trace: seq<Acceptance>, b: PoolBlock)
    requires LowChain(env, u, s) && Traces(s0, s, trace + [Acceptance(b, s.Store())]) && AllKin(trace)
    ensures AllKin(trace + [Acceptance(b, s.Store())])
  {
    var more := trace + [Acceptance(b, s.Store())];
    forall i, j | 0 <= i < j < |more| ensures F.Related(more[j].store, more[i].block, more[j].block) {
      if j == |trace| {
        assert InTrace(more, more[i].block) && InTrace(more, more[j].block);
        LowRelated(env, u, s, more[i].block, b);
      }
    }
  }

  // ---------------------------------------------------------------- the heaviest tip

  predicate HasNext(r: R.Result) { r.Difficulty? && r.value != 0 }

  predicate NotHeavier(b: PoolBlock, tip: Option<PoolBlock>) {
    tip.Some? && b.cumulative <= tip.value.cumulative
  }

  /** A valid block on which no difficulty can be computed, so that it cannot be the tip. */
  ghost predicate Barred(env: Env, u: set<PoolBlock>, b: PoolBlock) {
    b in u && DagValid(env, u, b) && !HasNext(R.DifficultyAfter(FullStore(u), env.c, b))
  }

  /** The tip is at least as heavy as the block, or else a block that cannot be the tip is. */
  ghost predicate Topped(env: Env, u: set<PoolBlock>, b: PoolBlock, tip: Option<PoolBlock>) {
    NotHeavier(b, tip) || exists y :: Barred(env, u, y) && b.cumulative <= y.cumulative
  }

  /** No valid block has more cumulative difficulty than the tip, or than some block that cannot be the tip. */
  ghost predicate TipHeaviest(env: Env, u: set<PoolBlock>, s: State) {
    forall b :: s.Valid(b) ==> Topped(env, u, b, s.tip)
  }

  lemma LowHasNext(env: Env, u: set<PoolBlock>, s: State, b: PoolBlock)
    requires LowChain(env, u, s) && s.Valid(b)
    ensures HasNext(R.DifficultyAfter(s.Store(), env.c, b)) <==> !Barred(env, u, b)
  {
    ValidTwin(env, u, s);
    TwinDifficulty(s.Store(), FullStore(u), ValidSet(s), env.c, b);
    ValidIsDagValid(env, u, s, b);
  }

  /** Offering the heaviest of the new blocks makes the tip the heaviest of all. */
  lemma OfferHeaviest(env: Env, u: set<PoolBlock>, s: State, t: State, main: F.MainChain, b: PoolBlock)
    requires LowChain(env, u, s) && s.Valid(b)
    requires t.verified == s.verified && t.invalid == s.invalid
    requires t.tip == if s.tip != Some(b) && F.LongerChain(s.Store(), env.c, main, s.tip, b, true).longer
                         && HasNext(R.DifficultyAfter(s.Store(), env.c, b)) then Some(b) else s.tip
    requires forall x :: s.Valid(x) ==> Topped(env, u, x, s.tip) || x.cumulative <= b.cumulative
    ensures TipHeaviest(env, u, t)
  {
    LowHasNext(env, u, s, b);
    if s.tip.Some? {
      LowRelated(env, u, s, s.tip.value, b);
    }
    forall x | t.Valid(x) ensures Topped(env, u, x, t.tip) {
      assert s.Valid(x);
    }
  }

  /** If a difficulty can be computed on every valid block, none has more cumulative difficulty than the tip. */
  lemma HeaviestIfComputable(env: Env, u: set<PoolBlock>, s: State)
    requires TipHeaviest(env, u, s)
    requires forall b :: b in u && DagValid(env, u, b) ==> HasNext(R.DifficultyAfter(FullStore(u), env.c, b))
    ensures forall b :: s.Valid(b) ==> NotHeavier(b, s.tip)
  {
    forall b | s.Valid(b) ensures NotHeavier(b, s.tip) {
      assert Topped(env, u, b, s.tip);
    }
  }
}
