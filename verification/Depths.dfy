/** How depths propagate (p2pool/sidechain/sidechain.go, updateDepths): what bounds them, why the
    worklist runs dry, and what is true when it has. */
module Depths {
  import opened Blocks
  import opened Verification
  import opened ChainState
  import opened ChainSteps

  // ---------------------------------------------------------------- the measure

  /** How far all depths together can still grow. */
  ghost function Slack(known: set<PoolBlock>, depth: map<PoolBlock, nat>, max: nat): nat
    requires forall b :: b in known ==> b in depth && b.height + depth[b] <= max
  {
    if known == {} then 0
    else
      var b :| b in known;
      max - b.height - depth[b] + Slack(known - {b}, depth, max)
  }

  lemma {:induction false} SlackUnchanged(known: set<PoolBlock>, depth: map<PoolBlock, nat>, max: nat, x: PoolBlock,
                                          d: nat)
    requires forall b :: b in known ==> b in depth && b.height + depth[b] <= max
    requires x !in known
    ensures Slack(known, depth[x := d], max) == Slack(known, depth, max)
    decreases |known|
  {
    if known != {} {
      var b :| b in known && Slack(known, depth, max) == max - b.height - depth[b] + Slack(known - {b}, depth, max)
        && Slack(known, depth[x := d], max) == max - b.height - depth[x := d][b]
          + Slack(known - {b}, depth[x := d], max);
      SlackUnchanged(known - {b}, depth, max, x, d);
    }
  }

  lemma {:induction false} SlackDrops(known: set<PoolBlock>, depth: map<PoolBlock, nat>, max: nat, x: PoolBlock, d: nat)
    requires forall b :: b in known ==> b in depth && b.height + depth[b] <= max
    requires x in known && x.height + d <= max
    ensures Slack(known, depth[x := d], max) + d == Slack(known, depth, max) + depth[x]
    decreases |known|
  {
    var b :| b in known && Slack(known, depth, max) == max - b.height - depth[b] + Slack(known - {b}, depth, max)
      && Slack(known, depth[x := d], max) == max - b.height - depth[x := d][b] + Slack(known - {b}, depth[x := d], max);
    if b == x {
      SlackUnchanged(known - {b}, depth, max, x, d);
    } else {
      SlackDrops(known - {b}, depth, max, x, d);
    }
  }

  ghost function SlackOf(s: State): nat
    requires DepthsOk(s)
  {
    Slack(s.Known(), s.depth, s.maxHeight)
  }

  /** `getPoolBlocksByHeight`. */
  function BlocksAt(byHeight: map<nat, seq<PoolBlock>>, h: nat): seq<PoolBlock> {
    if h in byHeight then byHeight[h] else []
  }

  // ---------------------------------------------------------------- what depths are made of

  /** Some known block is at this height, or one or two above it. */
  ghost predicate Filled(depth: map<PoolBlock, nat>, h: nat) {
    exists x :: x in depth && h <= x.height <= h + 2
  }

  ghost predicate Backed(depth: map<PoolBlock, nat>, b: PoolBlock) {
    b in depth ==> forall h :: b.height <= h <= b.height + depth[b] ==> Filled(depth, h)
  }

  /** No depth without blocks: from a block up to the height that its depth speaks of, there are never three
      heights in a row without a known block. */
  ghost predicate NoGaps(depth: map<PoolBlock, nat>) {
    forall b :: Backed(depth, b)
  }

  lemma StillFilled(depth: map<PoolBlock, nat>, more: map<PoolBlock, nat>, h: nat)
    requires depth.Keys <= more.Keys && Filled(depth, h)
    ensures Filled(more, h)
  {
    var x :| x in depth && h <= x.height <= h + 2;
    assert x in more;
  }

  /** Raising a block to the level of another one close by leaves no gap. */
  lemma RaiseLeavesNoGaps(depth: map<PoolBlock, nat>, b: PoolBlock, d: nat, from: PoolBlock)
    requires NoGaps(depth) && from in depth && b.height + d <= from.height + depth[from]
    requires b.height <= from.height + 3 && from.height <= b.height + 3
    ensures NoGaps(depth[b := d])
  {
    var more := depth[b := d];
    forall x ensures Backed(more, x) {
      assert Backed(depth, x) && Backed(depth, from);
      if x == b {
        forall h | b.height <= h <= b.height + d ensures Filled(more, h) {
          if h == b.height {
            assert b in more;
          } else if h <= from.height {
            assert from in more;
          } else {
            StillFilled(depth, more, h);
          }
        }
      } else if x in depth {
        forall h | x.height <= h <= x.height + depth[x] ensures Filled(more, h) {
          StillFilled(depth, more, h);
        }
      }
    }
  }

  /** A new block has no depth yet. */
  lemma InsertLeavesNoGaps(depth: map<PoolBlock, nat>, b: PoolBlock)
    requires NoGaps(depth)
    ensures NoGaps(depth[b := DepthOf(depth, b)])
  {
    var more := depth[b := DepthOf(depth, b)];
    forall x ensures Backed(more, x) {
      assert Backed(depth, x);
      if x in depth {
        forall h | x.height <= h <= x.height + depth[x] ensures Filled(more, h) {
          StillFilled(depth, more, h);
        }
      } else if x == b {
        assert b in more;
      }
    }
  }

  // ---------------------------------------------------------------- raising and pushing

  /** From s to t some depths rose, every block that rose was pushed, and the measure paid for it. */
  ghost predicate Pushes(s: State, t: State, stack: seq<PoolBlock>, stack': seq<PoolBlock>) {
    && t == s.(depth := t.depth)
    && t.Known() == s.Known()
    && DepthsOk(s)
    && DepthsOk(t)
    && |stack| <= |stack'|
    && stack'[..|stack|] == stack
    && (forall b :: b in stack' ==> b in stack || b in s.Known())
    && (forall b :: b in s.Known() ==> s.depth[b] <= t.depth[b])
    && (forall b :: b in s.Known() && s.depth[b] < t.depth[b] ==> b in stack')
    && SlackOf(t) + |stack'| <= SlackOf(s) + |stack|
    && (NoGaps(s.depth) ==> NoGaps(t.depth))
  }

  lemma PushesNothing(s: State, stack: seq<PoolBlock>)
    requires DepthsOk(s)
    ensures Pushes(s, s, stack, stack)
  {
  }

  lemma RaisePushes(s: State, b: PoolBlock, d: nat, stack: seq<PoolBlock>, from: PoolBlock)
    requires DepthsOk(s) && b in s.Known() && s.depth[b] < d && LevelWith(s.depth, b, d, from)
    ensures Pushes(s, RaisedIn(s, b, d), stack, stack + [b])
  {
    var t := RaisedIn(s, b, d);
    assert t.Known() == s.Known();
    SlackDrops(s.Known(), s.depth, s.maxHeight, b, d);
    if NoGaps(s.depth) {
      RaiseLeavesNoGaps(s.depth, b, d, from);
    }
  }

  /** With this depth the block is on the level of another one at most three heights away. */
  predicate LevelWith(depth: map<PoolBlock, nat>, b: PoolBlock, d: nat, from: PoolBlock) {
    && from in depth
    && b.height + d == from.height + depth[from]
    && b.height <= from.height + 3
    && from.height <= b.height + 3
  }

  lemma PushesTransitive(s: State, t: State, r: State, a: seq<PoolBlock>, b: seq<PoolBlock>, c: seq<PoolBlock>)
    requires Pushes(s, t, a, b) && Pushes(t, r, b, c)
    ensures Pushes(s, r, a, c)
  {
    assert c[..|a|] == c[..|b|][..|a|];
    forall x | x in s.Known() && s.depth[x] < r.depth[x] ensures x in c {
      if s.depth[x] < t.depth[x] {
        assert x in b;
        var i :| 0 <= i < |b| && b[i] == x;
        assert c[..|b|][i] == c[i] == x;
      }
    }
  }

  /** One more block that rises. */
  lemma RaiseAlso(s: State, t: State, b: PoolBlock, d: nat, stack0: seq<PoolBlock>, stack: seq<PoolBlock>,
                  from: PoolBlock)
    requires Pushes(s, t, stack0, stack) && b in t.Known() && t.depth[b] < d && LevelWith(t.depth, b, d, from)
    ensures Pushes(s, RaisedIn(t, b, d), stack0, stack + [b])
  {
    RaisePushes(t, b, d, stack, from);
    PushesTransitive(s, t, RaisedIn(t, b, d), stack0, stack, stack + [b]);
  }

  /** Raising depths within the bound keeps the invariant. */
  lemma PushesOk(u: set<PoolBlock>, c: Consensus, s: State, t: State, stack: seq<PoolBlock>, stack': seq<PoolBlock>)
    requires Inv(u, c, s) && Pushes(s, t, stack, stack')
    ensures Inv(u, c, t)
  {
    forall id ensures EntryOk(t, id) { assert EntryOk(s, id); }
    forall h ensures HeightOk(t, h) { assert HeightOk(s, h); }
    forall x ensures LinkOk(t, x) { assert LinkOk(s, x); }
    forall x ensures GenesisVerified(c, t, x) { assert GenesisVerified(c, s, x); }
    forall x ensures CacheOk(t, x) { assert CacheOk(s, x); }
  }

  // ---------------------------------------------------------------- levels

  /** The height that the chain around a block is known to reach. */
  function Level(s: State, b: PoolBlock): nat {
    b.height + DepthOf(s.depth, b)
  }

  /** No stored block is on a higher level than its stored parent, unless it is still on the worklist. */
  ghost predicate EdgeOk(s: State, p: PoolBlock, c: PoolBlock, open: set<PoolBlock>) {
    s.Stored(p) && s.Stored(c) && c.parent == p.id ==> Level(s, c) <= Level(s, p) || c in open
  }

  ghost predicate EdgesExcept(s: State, open: set<PoolBlock>) {
    forall p, c :: EdgeOk(s, p, c, open)
  }

  ghost function Elements(stack: seq<PoolBlock>): set<PoolBlock> {
    set b | b in stack
  }

  /** One object for every id, and heights that fit the references. */
  ghost predicate Tidy(u: set<PoolBlock>) {
    forall a, b :: TidyPair(u, a, b)
  }

  ghost predicate TidyPair(u: set<PoolBlock>, a: PoolBlock, b: PoolBlock) {
    a in u && b in u ==>
      && (a.id == b.id ==> a == b)
      && (a.parent == b.id ==> a.height == b.height + 1)
      && (b.id in a.uncles ==> UncleHeightOk(a, b))
  }

  lemma StillPushed(stack: seq<PoolBlock>, stack': seq<PoolBlock>, b: PoolBlock)
    requires |stack| <= |stack'| && stack'[..|stack|] == stack
    ensures b in Elements(stack) ==> b in Elements(stack')
  {
    if b in stack {
      var i :| 0 <= i < |stack| && stack[i] == b;
      assert stack'[..|stack|][i] == stack'[i] == b;
    }
  }

  lemma PushesKeepsEdges(u: set<PoolBlock>, c: Consensus, s: State, t: State, stack: seq<PoolBlock>,
                         stack': seq<PoolBlock>, cur: PoolBlock)
    requires Sound(u, c, s) && Pushes(s, t, stack, stack') && EdgesExcept(s, Elements(stack) + {cur})
    ensures EdgesExcept(t, Elements(stack') + {cur})
  {
    forall p, x ensures EdgeOk(t, p, x, Elements(stack') + {cur}) {
      assert EdgeOk(s, p, x, Elements(stack) + {cur});
      if s.Stored(p) && s.Stored(x) {
        assert EntryOk(s, p.id) && EntryOk(s, x.id);
        StillPushed(stack, stack', x);
      }
    }
  }

  /** Some block two or three heights up names this one as its parent. */
  ghost predicate Misplaced(byHeight: map<nat, seq<PoolBlock>>, b: PoolBlock) {
    exists x: PoolBlock :: x.parent == b.id
      && (x in BlocksAt(byHeight, b.height + 2) || x in BlocksAt(byHeight, b.height + 3))
  }

  /** What is listed i heights above a block really is there. */
  ghost predicate ListedAbove(byHeight: map<nat, seq<PoolBlock>>, known: set<PoolBlock>, b: PoolBlock, i: nat) {
    forall x :: x in BlocksAt(byHeight, b.height + i) ==> x in known && x != b && x.height == b.height + i
  }

  lemma IndexListsAbove(s: State, b: PoolBlock, i: nat)
    requires IndexOk(s) && i >= 1
    ensures ListedAbove(s.byHeight, s.Known(), b, i)
  {
    assert HeightOk(s, b.height + i);
    forall x | x in BlocksAt(s.byHeight, b.height + i) ensures x in s.Known() {
      assert EntryOk(s, x.id);
    }
  }

  ghost predicate AllListedAbove(s: State, b: PoolBlock) {
    forall i :: 1 <= i < 4 ==> ListedAbove(s.byHeight, s.Known(), b, i)
  }

  lemma IndexListsAllAbove(s: State, b: PoolBlock)
    requires IndexOk(s)
    ensures AllListedAbove(s, b)
  {
    forall i: nat | 1 <= i < 4 ensures ListedAbove(s.byHeight, s.Known(), b, i) {
      IndexListsAbove(s, b, i);
    }
  }

  predicate Placed(b: PoolBlock, us: seq<PoolBlock>) {
    forall x :: x in us ==> UncleHeightOk(b, x)
  }

  /** Every uncle at a proper height reaches at least the level of the block. */
  ghost predicate UnclesReach(s: State, us: seq<PoolBlock>, b: PoolBlock, level: nat) {
    forall x :: x in us && UncleHeightOk(b, x) ==> level <= Level(s, x)
  }

  lemma OneMoreUncle(s: State, t: State, stack: seq<PoolBlock>, stack': seq<PoolBlock>, us: seq<PoolBlock>, k: nat,
                     b: PoolBlock, level: nat)
    requires Pushes(s, t, stack, stack') && k < |us| && (forall x :: x in us ==> x in s.Known())
    requires UnclesReach(s, us[..k], b, level) && (UncleHeightOk(b, us[k]) ==> level <= Level(t, us[k]))
    ensures UnclesReach(t, us[..k + 1], b, level)
    ensures Placed(b, us[..k + 1]) <==> Placed(b, us[..k]) && UncleHeightOk(b, us[k])
  {
    assert us[..k + 1] == us[..k] + [us[k]];
  }

  /** A block i heights above that refers to this one is no more than i less deep. */
  predicate Lifted(depth: map<PoolBlock, nat>, x: PoolBlock, b: PoolBlock, i: nat) {
    x.parent == b.id || b.id in x.uncles ==> DepthOf(depth, b) <= DepthOf(depth, x) + i
  }

  ghost predicate AllLifted(s: State, b: PoolBlock, i: nat) {
    forall x :: x in BlocksAt(s.byHeight, b.height + i) ==> Lifted(s.depth, x, b, i)
  }

  predicate FirstLifted(depth: map<PoolBlock, nat>, above: seq<PoolBlock>, k: nat, b: PoolBlock, i: nat) {
    k <= |above| && forall j :: 0 <= j < k ==> Lifted(depth, above[j], b, i)
  }

  lemma OneMoreLifted(d: map<PoolBlock, nat>, d': map<PoolBlock, nat>, above: seq<PoolBlock>, k: nat, b: PoolBlock,
                      i: nat)
    requires k < |above| && above[k] in d && above[k] in d' && above[k] != b
    requires d' == d[above[k] := d'[above[k]]] && d[above[k]] <= d'[above[k]]
    requires FirstLifted(d, above, k, b, i) && Lifted(d', above[k], b, i)
    ensures FirstLifted(d', above, k + 1, b, i)
  {
    forall j | 0 <= j < k ensures Lifted(d', above[j], b, i) {
      assert Lifted(d, above[j], b, i);
    }
  }

  lemma PushesKeepsLifted(s: State, t: State, stack: seq<PoolBlock>, stack': seq<PoolBlock>, b: PoolBlock, i: nat)
    requires Pushes(s, t, stack, stack') && DepthOf(t.depth, b) == DepthOf(s.depth, b) && AllLifted(s, b, i)
    requires forall x :: x in BlocksAt(s.byHeight, b.height + i) ==> x in s.Known()
    ensures AllLifted(t, b, i)
  {
    forall x | x in BlocksAt(t.byHeight, b.height + i) ensures Lifted(t.depth, x, b, i) {
      assert Lifted(s.depth, x, b, i);
    }
  }

  /** The blocks less than n heights above that refer to the block are lifted. */
  ghost predicate LiftedBelow(s: State, b: PoolBlock, n: nat) {
    forall i :: 1 <= i < n ==> AllLifted(s, b, i)
  }

  lemma LiftedNext(s: State, t: State, stack: seq<PoolBlock>, stack': seq<PoolBlock>, b: PoolBlock, n: nat)
    requires Pushes(s, t, stack, stack') && DepthOf(t.depth, b) == DepthOf(s.depth, b) && LiftedBelow(s, b, n)
    requires n <= 4 && AllListedAbove(s, b)
    ensures LiftedBelow(t, b, n)
    ensures AllLifted(t, b, n) ==> LiftedBelow(t, b, n + 1)
  {
    forall i: nat | 1 <= i < n ensures AllLifted(t, b, i) {
      assert ListedAbove(s.byHeight, s.Known(), b, i);
      PushesKeepsLifted(s, t, stack, stack', b, i);
    }
  }

  ghost predicate ParentReaches(s: State, b: PoolBlock) {
    var p := GetParent(s.Store(), b);
    p.Some? ==> Level(s, b) <= Level(s, p.value)
  }

  /** Raising other blocks takes nothing back. */
  lemma PushesKeepsReach(u: set<PoolBlock>, c: Consensus, s: State, t: State, stack: seq<PoolBlock>,
                         stack': seq<PoolBlock>, b: PoolBlock)
    requires Sound(u, c, s) && Pushes(s, t, stack, stack') && b in s.Known() && t.depth[b] == s.depth[b]
    ensures LiftedBelow(s, b, 4) ==> LiftedBelow(t, b, 4)
    ensures ParentReaches(s, b) ==> ParentReaches(t, b)
  {
    ParentIsNamed(u, c, s, b);
    if LiftedBelow(s, b, 4) {
      IndexListsAllAbove(s, b);
      LiftedNext(s, t, stack, stack', b, 4);
    }
  }

  /** In a tidy universe no update of depths breaks off. */
  lemma TidyIsConsistent(u: set<PoolBlock>, c: Consensus, s: State, b: PoolBlock)
    requires Sound(u, c, s) && Tidy(u) && b in s.Known()
    ensures !Misplaced(s.byHeight, b)
    ensures var p := GetParent(s.Store(), b); p.Some? ==> p.value.height + 1 == b.height
    ensures Placed(b, IteratedUncles(s.Store(), b))
  {
    forall x: PoolBlock | x in BlocksAt(s.byHeight, b.height + 2) || x in BlocksAt(s.byHeight, b.height + 3)
      ensures x.parent != b.id
    {
      IndexListsAbove(s, b, 2);
      IndexListsAbove(s, b, 3);
      assert TidyPair(u, x, b);
    }
    ParentIsNamed(u, c, s, b);
    UnclesAreNamed(u, c, s, b);
    var p, us := GetParent(s.Store(), b), IteratedUncles(s.Store(), b);
    if p.Some? {
      assert TidyPair(u, b, p.value);
    }
    forall x | x in us ensures UncleHeightOk(b, x) {
      var i :| 0 <= i < |us| && us[i] == x;
      assert b.uncles[i] == x.id;
      assert TidyPair(u, b, x);
    }
  }

  /** When the parent is deep enough, the block is settled. */
  lemma SettleBlock(u: set<PoolBlock>, c: Consensus, s: State, stack: seq<PoolBlock>, cur: PoolBlock)
    requires Sound(u, c, s) && Tidy(u) && EdgesExcept(s, Elements(stack) + {cur}) && cur in s.Known()
    requires ParentReaches(s, cur)
    ensures EdgesExcept(s, Elements(stack))
  {
    forall p, x ensures EdgeOk(s, p, x, Elements(stack)) {
      assert EdgeOk(s, p, x, Elements(stack) + {cur});
      if s.Stored(p) && s.Stored(x) && x.parent == p.id && x == cur {
        ParentIsNamed(u, c, s, cur);
        assert EntryOk(s, p.id) && CacheOk(s, cur);
        assert TidyPair(u, GetParent(s.Store(), cur).value, p);
      }
    }
  }

  /** Removing blocks removes edges; nothing else matters to them. */
  lemma ShrinkKeepsEdges(s: State, t: State, open: set<PoolBlock>)
    requires EdgesExcept(s, open) && t.depth == s.depth
    requires forall id :: id in t.byId ==> id in s.byId && t.byId[id] == s.byId[id]
    ensures EdgesExcept(t, open)
  {
    forall p, c ensures EdgeOk(t, p, c, open) {
      assert EdgeOk(s, p, c, open);
    }
  }

  /** After an insertion only edges to and from the new block are open. */
  ghost predicate EdgesBesides(s: State, b: PoolBlock) {
    forall p, c :: p == b || EdgeOk(s, p, c, {b})
  }

  lemma InsertOpensEdges(s: State, b: PoolBlock)
    requires EdgesExcept(s, {}) && b.id !in s.byId
    ensures EdgesBesides(Inserted(s, b), b)
  {
    var t := Inserted(s, b);
    forall p, c ensures p == b || EdgeOk(t, p, c, {b}) {
      assert EdgeOk(s, p, c, {});
    }
  }

  /** A new block that took its depth from the blocks above has no open edges to them. */
  lemma TakenClosesEdges(u: set<PoolBlock>, c: Consensus, s: State, t: State, b: PoolBlock)
    requires Sound(u, c, s) && Tidy(u) && EdgesBesides(s, b) && b in s.Known()
    requires b in t.depth && t == s.(depth := t.depth) && t.depth == s.depth[b := t.depth[b]]
      && s.depth[b] <= t.depth[b]
    requires forall x :: x in BlocksAt(s.byHeight, b.height + 1) && x.parent == b.id ==>
      DepthOf(s.depth, x) + 1 <= t.depth[b]
    ensures EdgesExcept(t, {b})
  {
    forall p, x ensures EdgeOk(t, p, x, {b}) {
      assert p == b || EdgeOk(s, p, x, {b});
      if s.Stored(p) && s.Stored(x) && x.parent == p.id && p == b {
        assert EntryOk(s, x.id) && TidyPair(u, x, b);
      }
    }
  }

  // ---------------------------------------------------------------- depth of a new block

  /** `slices.Index`. */
  function IndexOf(ids: seq<Hash>, id: Hash): int {
    if id !in ids then -1
    else if ids[0] == id then 0
    else 1 + IndexOf(ids[1..], id)
  }

  /** A block above lends its depth plus one, if it is a child or does not list the new block as
      its second uncle: the source compares the index with 1 where it means -1. */
  predicate Lends(child: PoolBlock, id: Hash) {
    child.parent == id || IndexOf(child.uncles, id) != 1
  }

  /** The depth a new block takes from the blocks above it. */
  function TakenDepth(depth: map<PoolBlock, nat>, id: Hash, d: nat, above: seq<PoolBlock>): nat {
    if above == [] then d
    else
      var taken, child := TakenDepth(depth, id, d, above[..|above| - 1]), above[|above| - 1];
      if Lends(child, id) && taken < DepthOf(depth, child) + 1 then DepthOf(depth, child) + 1 else taken
  }

  lemma {:induction false} TakenDepthBounds(s: State, b: PoolBlock, d: nat, above: seq<PoolBlock>)
    requires DepthsOk(s) && b.height + d <= s.maxHeight
    requires forall x :: x in above ==> x in s.Known() && b.height < x.height
    ensures var r := TakenDepth(s.depth, b.id, d, above);
      && d <= r
      && b.height + r <= s.maxHeight
      && (forall x :: x in above && Lends(x, b.id) ==> DepthOf(s.depth, x) + 1 <= r)
      && (r == d || exists x :: x in above && Lends(x, b.id) && r == DepthOf(s.depth, x) + 1)
  {
    if above != [] {
      var n := |above| - 1;
      var front, last := above[..n], above[n];
      assert last in above;
      TakenDepthBounds(s, b, d, front);
      var r := TakenDepth(s.depth, b.id, d, above);
      forall x | x in above && Lends(x, b.id) ensures DepthOf(s.depth, x) + 1 <= r {
        assert x in front || x == last by {
          assert above == front + [last];
        }
      }
    }
  }

  lemma {:induction false} TakenDepthSplit(depth: map<PoolBlock, nat>, id: Hash, d: nat, a: seq<PoolBlock>,
                                           b: seq<PoolBlock>)
    ensures TakenDepth(depth, id, d, a + b) == TakenDepth(depth, id, TakenDepth(depth, id, d, a), b)
    decreases |b|
  {
    if b == [] {
      assert a + b == a;
    } else {
      assert (a + b)[..|a + b| - 1] == a + b[..|b| - 1];
      TakenDepthSplit(depth, id, d, a, b[..|b| - 1]);
    }
  }

  lemma {:induction false} TakenDepthIgnores(depth: map<PoolBlock, nat>, b: PoolBlock, v: nat, id: Hash, d: nat,
                                             above: seq<PoolBlock>)
    requires b !in above
    ensures TakenDepth(depth[b := v], id, d, above) == TakenDepth(depth, id, d, above)
  {
    if above != [] {
      assert above[|above| - 1] in above;
      TakenDepthIgnores(depth, b, v, id, d, above[..|above| - 1]);
    }
  }

  /** Taking depth from one height after another. */
  lemma TakenDepthNext(d0: map<PoolBlock, nat>, d1: map<PoolBlock, nat>, b: PoolBlock, taken: seq<PoolBlock>,
                       more: seq<PoolBlock>)
    requires b in d0 && b !in more && d1 == d0[b := TakenDepth(d0, b.id, d0[b], taken)]
    ensures d1[b := TakenDepth(d1, b.id, d1[b], more)] == d0[b := TakenDepth(d0, b.id, d0[b], taken + more)]
  {
    var v := TakenDepth(d0, b.id, d0[b], taken);
    TakenDepthIgnores(d0, b, v, b.id, v, more);
    TakenDepthSplit(d0, b.id, d0[b], taken, more);
  }
}
