/** Why the pruning loop never runs off the end of its list of heights: two stored heights stay
    above every cut that any verified block can cause. */
module PruneSafety {
  import opened Blocks
  import opened Verification
  import opened ChainState
  import opened ChainSteps
  import opened Pruning

  /** Making the block the tip prunes nothing, or leaves two stored heights above the cut. */
  ghost predicate TipSafe(c: Consensus, s: State, b: PoolBlock)
    requires ValidConsensus(c)
  {
    || DepthOf(s.depth, b) >= c.chainWindowSize
    || b.height < PruneDistance(c)
    || TwoAbove(s, b.height - PruneDistance(c))
  }

  /** A block that was forgotten is below two stored heights; a valid block can become the tip. */
  ghost predicate FootingAt(c: Consensus, s: State, b: PoolBlock)
    requires ValidConsensus(c)
  {
    && (b in s.Known() ==> s.Stored(b) || TwoAbove(s, b.height))
    && (s.Valid(b) ==> TipSafe(c, s, b))
  }

  ghost predicate Footing(c: Consensus, s: State)
    requires ValidConsensus(c)
  {
    forall b :: FootingAt(c, s, b)
  }

  ghost predicate KeepsTwo(s: State, t: State) {
    forall h: nat :: TwoAbove(s, h) ==> TwoAbove(t, h)
  }

  /** No depth falls. */
  ghost predicate Deepens(s: State, t: State) {
    forall b :: b in s.Known() ==> b in t.Known() && s.depth[b] <= t.depth[b]
  }

  lemma SameHeightsKeepTwo(s: State, t: State)
    requires t.byHeight == s.byHeight
    ensures KeepsTwo(s, t)
  {
    forall h: nat | TwoAbove(s, h) ensures TwoAbove(t, h) {
      var x, y :| x in s.byHeight && y in s.byHeight && h < x < y;
      assert x in t.byHeight && y in t.byHeight;
    }
  }

  /** Steps that forget nothing and verify nothing. */
  lemma FootingKept(c: Consensus, s: State, t: State)
    requires ValidConsensus(c) && Footing(c, s) && KeepsTwo(s, t) && Deepens(s, t)
    requires t.Known() == s.Known() && t.byId == s.byId
    requires forall b :: t.Valid(b) ==> s.Valid(b)
    ensures Footing(c, t)
  {
    forall b ensures FootingAt(c, t, b) {
      assert FootingAt(c, s, b);
    }
  }

  lemma FootingInsert(c: Consensus, s: State, b: PoolBlock)
    requires ValidConsensus(c) && Footing(c, s) && b.id !in s.byId
    ensures Footing(c, Inserted(s, b)) && KeepsTwo(s, Inserted(s, b))
  {
    var t := Inserted(s, b);
    forall h: nat | TwoAbove(s, h) ensures TwoAbove(t, h) {
      var x, y :| x in s.byHeight && y in s.byHeight && h < x < y;
      assert x in t.byHeight && y in t.byHeight;
    }
    forall x ensures FootingAt(c, t, x) {
      assert FootingAt(c, s, x);
    }
  }

  /** A newly accepted block has a stored parent one height below, unless no cut can hurt it. */
  lemma AcceptedTipSafe(u: set<PoolBlock>, env: Env, s: State, b: PoolBlock)
    requires Inv(u, env.c, s) && Footing(env.c, s) && b in s.Known() && b !in s.verified
    requires VerdictOf(env, s.View(), b) == Accepted
    ensures TipSafe(env.c, s, b)
  {
    DistanceExceedsWindow(env.c);
    assert FootingAt(env.c, s, b) && EntryOk(s, b.id);
    if TwoAbove(s, b.height) && b.height >= PruneDistance(env.c) {
      TwoAboveLower(s, b.height, b.height - PruneDistance(env.c));
    } else if FullyChecked(env.c, s, b) {
      AcceptedFollows(u, env, s, b);
      assert EntryOk(s, b.parent);
    }
  }

  lemma TwoAboveLower(s: State, hi: nat, lo: nat)
    requires TwoAbove(s, hi) && lo <= hi
    ensures TwoAbove(s, lo)
  {
    var x, y :| x in s.byHeight && y in s.byHeight && hi < x < y;
    assert lo < x < y;
  }

  lemma FootingAccept(u: set<PoolBlock>, env: Env, s: State, b: PoolBlock)
    requires Inv(u, env.c, s) && Footing(env.c, s) && b in s.Known() && b !in s.verified
    requires VerdictOf(env, s.View(), b) == Accepted
    ensures Footing(env.c, AcceptedIn(env.c, s, b))
  {
    var t := AcceptedIn(env.c, s, b);
    AcceptedTipSafe(u, env, s, b);
    forall x ensures FootingAt(env.c, t, x) {
      assert FootingAt(env.c, s, x);
      SameTwo(env.c, s, t, x);
    }
  }

  lemma SameTwo(c: Consensus, s: State, t: State, b: PoolBlock)
    requires ValidConsensus(c) && t.byHeight == s.byHeight && t.depth == s.depth
    ensures TwoAbove(t, b.height) == TwoAbove(s, b.height) && TipSafe(c, t, b) == TipSafe(c, s, b)
  {
    if b.height >= PruneDistance(c) {
      assert TwoAbove(t, b.height - PruneDistance(c)) == TwoAbove(s, b.height - PruneDistance(c));
    }
  }

  // ---------------------------------------------------------------- pruning

  /** What is above the cut stays, so two heights stay above it. */
  lemma KeptHeight(s: State, t: State, cut: nat, h: nat)
    requires IndexOk(s) && IndexOk(t) && OnlyForgets(s, t) && KeepsAbove(s, t, cut)
    requires h in s.byHeight && h > cut
    ensures h in t.byHeight
  {
    assert HeightOk(s, h);
    var b := s.byHeight[h][0];
    assert b in s.byHeight[h];
    assert EntryOk(t, b.id);
  }

  lemma PruneKeepsTwo(s: State, t: State, cut: nat)
    requires IndexOk(s) && IndexOk(t) && OnlyForgets(s, t) && KeepsAbove(s, t, cut) && TwoAbove(s, cut)
    ensures KeepsTwo(s, t) && TwoAbove(t, cut)
  {
    forall h: nat | TwoAbove(s, h) && h >= cut ensures TwoAbove(t, h) {
      var x, y :| x in s.byHeight && y in s.byHeight && h < x < y;
      KeptHeight(s, t, cut, x);
      KeptHeight(s, t, cut, y);
      assert h < x < y;
    }
    forall h: nat | TwoAbove(s, h) && h < cut ensures TwoAbove(t, h) {
      TwoAboveLower(t, cut, h);
    }
  }

  lemma FootingPrune(c: Consensus, s: State, t: State, cut: nat)
    requires ValidConsensus(c) && IndexOk(s) && IndexOk(t) && OnlyForgets(s, t) && KeepsAbove(s, t, cut)
      && TwoAbove(s, cut)
    requires t.verified == s.verified && t.invalid == s.invalid && Footing(c, s)
    ensures Footing(c, t)
  {
    PruneKeepsTwo(s, t, cut);
    forall b ensures FootingAt(c, t, b) {
      assert FootingAt(c, s, b);
      assert EntryOk(s, b.id);
      if b in t.Known() && s.Stored(b) && !t.Stored(b) {
        TwoAboveLower(t, cut, b.height);
      }
    }
  }
}
