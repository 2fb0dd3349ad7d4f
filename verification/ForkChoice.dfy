/** Which of two chain tips is preferred (p2pool/sidechain/utils.go, IsLongerChain). */
module ForkChoice {
  import opened Blocks

  /** Height of a Monero block by its id, where known; the empty hash stands for the Monero tip. */
  type MainChain = Hash -> Option<nat>

  datatype Choice = Choice(longer: bool, alternative: bool)

  // ---------------------------------------------------------------- common ancestors

  /** Follow parents until the height is at most h. */
  function Descend(st: Store, b: Option<PoolBlock>, h: nat): Option<PoolBlock>
    decreases if b.Some? then b.value.rank + 1 else 0
  {
    if b.None? || b.value.height <= h then b else Descend(st, Below(st, b.value), h)
  }

  /** Follow both chains in step until two blocks name the same parent. */
  predicate Meet(st: Store, a: Option<PoolBlock>, b: Option<PoolBlock>)
    decreases if a.Some? then a.value.rank + 1 else 0
  {
    && a.Some?
    && b.Some?
    && (a.value.parent == b.value.parent || Meet(st, Below(st, a.value), Below(st, b.value)))
  }

  /** The two blocks are on the same chain. */
  predicate Related(st: Store, a: PoolBlock, b: PoolBlock) {
    var x := Descend(st, Some(a), b.height);
    x.Some? && Meet(st, x, Descend(st, Some(b), x.value.height))
  }

  // ---------------------------------------------------------------- comparing whole chains

  /** A block and its ancestors, at most n. */
  function Chain(st: Store, b: Option<PoolBlock>, n: nat): seq<PoolBlock>
    decreases n
  {
    if n == 0 || b.None? then [] else [b.value] + Chain(st, GetParent(st, b.value), n - 1)
  }

  function AddDifficulties(total: nat, blocks: seq<PoolBlock>): nat {
    if blocks == [] then total
    else Add128(AddDifficulties(total, blocks[..|blocks| - 1]), blocks[|blocks| - 1].difficulty)
  }

  /** The difficulty of a chain and of all uncles it can reach, modulo 2^128. */
  function TotalDifficulty(st: Store, chain: seq<PoolBlock>): nat {
    if chain == [] then 0
    else
      var b := chain[|chain| - 1];
      AddDifficulties(Add128(TotalDifficulty(st, chain[..|chain| - 1]), b.difficulty), IteratedUncles(st, b))
  }

  /** The distinct known Monero blocks a chain was mined on, in order. */
  function KnownBlocks(main: MainChain, chain: seq<PoolBlock>): seq<Hash> {
    if chain == [] then []
    else
      var known, id := KnownBlocks(main, chain[..|chain| - 1]), chain[|chain| - 1].previousId;
      if id !in known && main(id).Some? then known + [id] else known
  }

  /** The greatest height among them. */
  function NewestBlock(main: MainChain, chain: seq<PoolBlock>): nat {
    if chain == [] then 0
    else
      var front, id := chain[..|chain| - 1], chain[|chain| - 1].previousId;
      var newest := NewestBlock(main, front);
      if id !in KnownBlocks(main, front) && main(id).Some? && main(id).value > newest then main(id).value else newest
  }

  /** The least Monero height a chain was mined at; zero counts as not yet set. */
  function OldestHeight(chain: seq<PoolBlock>): nat {
    if chain == [] then 0
    else
      var oldest, h := OldestHeight(chain[..|chain| - 1]), chain[|chain| - 1].genHeight;
      if oldest != 0 && oldest < h then oldest else h
  }

  /** The candidate chain is built on recent, known Monero blocks. */
  predicate Current(c: Consensus, main: MainChain, ours: seq<PoolBlock>, theirs: seq<PoolBlock>) {
    var tip := main(ZERO_HASH);
    && tip.Some?
    && NewestBlock(main, theirs) + 10 >= tip.value
    && OldestHeight(theirs) + c.chainWindowSize * 4 * c.targetBlockTime / 120 >= tip.value
    && |KnownBlocks(main, theirs)| * 2 >= |KnownBlocks(main, ours)|
  }

  /** What `IsLongerChain` answers; `ok` says that the candidate is verified and valid. */
  function LongerChain(st: Store, c: Consensus, main: MainChain, block: Option<PoolBlock>, candidate: PoolBlock,
                       ok: bool)
    : Choice
  {
    if !ok then Choice(false, false)
    else if block.None? then Choice(true, true)
    else if Related(st, block.value, candidate) then Choice(block.value.cumulative < candidate.cumulative, false)
    else
      var ours, theirs := Chain(st, block, c.chainWindowSize), Chain(st, Some(candidate), c.chainWindowSize);
      Choice(TotalDifficulty(st, ours) < TotalDifficulty(st, theirs) && Current(c, main, ours, theirs), true)
  }

  // ---------------------------------------------------------------- the method

  /** The search for a common ancestor. */
  method FindRelated(st: Store, a: PoolBlock, b: PoolBlock, ghost known: set<PoolBlock>) returns (related: bool)
    requires Acyclic(st, known) && a in known && b in known
    ensures related == Related(st, a, b)
  {
    var x := Some(a);
    while x.Some? && x.value.height > b.height
      invariant x.Some? ==> x.value in known
      invariant Descend(st, x, b.height) == Descend(st, Some(a), b.height)
      decreases if x.Some? then x.value.rank + 1 else 0
    {
      x := GetParent(st, x.value);
    }
    if x.None? {
      return false;
    }
    var y := Some(b);
    while y.Some? && y.value.height > x.value.height
      invariant y.Some? ==> y.value in known
      invariant Descend(st, y, x.value.height) == Descend(st, Some(b), x.value.height)
      decreases if y.Some? then y.value.rank + 1 else 0
    {
      y := GetParent(st, y.value);
    }
    while x.Some? && y.Some?
      invariant x.Some? ==> x.value in known
      invariant y.Some? ==> y.value in known
      invariant Meet(st, x, y) == Related(st, a, b)
      decreases if x.Some? then x.value.rank + 1 else 0
    {
      if x.value.parent == y.value.parent {
        return true;
      }
      x, y := GetParent(st, x.value), GetParent(st, y.value);
    }
    return false;
  }

  /** One chain's share of the comparison loop. */
  datatype Tally = Tally(total: nat, known: seq<Hash>, newest: nat, oldest: nat)

  function TallyOf(st: Store, main: MainChain, chain: seq<PoolBlock>): Tally {
    Tally(TotalDifficulty(st, chain), KnownBlocks(main, chain), NewestBlock(main, chain), OldestHeight(chain))
  }

  method AddBlock(st: Store, main: MainChain, t: Tally, b: PoolBlock, ghost chain: seq<PoolBlock>) returns (r: Tally)
    requires t == TallyOf(st, main, chain)
    ensures r == TallyOf(st, main, chain + [b])
  {
    assert (chain + [b])[..|chain|] == chain;
    var oldest := if t.oldest != 0 && t.oldest < b.genHeight then t.oldest else b.genHeight;
    var total := Add128(t.total, b.difficulty);
    var uncles := IteratedUncles(st, b);
    ghost var start := total;
    for i := 0 to |uncles|
      invariant total == AddDifficulties(start, uncles[..i])
    {
      assert uncles[..i + 1][..i] == uncles[..i];
      total := Add128(total, uncles[i].difficulty);
    }
    assert uncles[..|uncles|] == uncles;
    var known, newest := t.known, t.newest;
    if b.previousId !in known {
      var data := main(b.previousId);
      if data.Some? {
        known := known + [b.previousId];
        newest := if data.value > newest then data.value else newest;
      }
    }
    r := Tally(total, known, newest, oldest);
  }

  /** After i rounds `done` was tallied and `cur` is next. */
  ghost predicate Progress(st: Store, start: PoolBlock, n: nat, i: nat, done: seq<PoolBlock>, cur: Option<PoolBlock>) {
    i <= n && Chain(st, Some(start), n) == done + Chain(st, cur, n - i)
  }

  lemma ProgressStep(st: Store, start: PoolBlock, n: nat, i: nat, done: seq<PoolBlock>, cur: Option<PoolBlock>)
    requires i < n && Progress(st, start, n, i, done, cur)
    ensures cur.None? ==> Progress(st, start, n, i + 1, done, cur)
    ensures cur.Some? ==> Progress(st, start, n, i + 1, done + [cur.value], GetParent(st, cur.value))
  {
    if cur.Some? {
      var rest := Chain(st, GetParent(st, cur.value), n - i - 1);
      assert done + ([cur.value] + rest) == done + [cur.value] + rest;
    }
  }

  /** The loop over both chains at once. */
  method CompareChains(st: Store, c: Consensus, main: MainChain, block: PoolBlock, candidate: PoolBlock)
    returns (ours: Tally, theirs: Tally)
    ensures ours == TallyOf(st, main, Chain(st, Some(block), c.chainWindowSize))
    ensures theirs == TallyOf(st, main, Chain(st, Some(candidate), c.chainWindowSize))
  {
    var n := c.chainWindowSize;
    var oldChain, newChain := Some(block), Some(candidate);
    ours, theirs := Tally(0, [], 0, 0), Tally(0, [], 0, 0);
    ghost var a: seq<PoolBlock>, b: seq<PoolBlock> := [], [];
    var i := 0;
    while i < n && (oldChain.Some? || newChain.Some?)
      invariant Progress(st, block, n, i, a, oldChain) && ours == TallyOf(st, main, a)
      invariant Progress(st, candidate, n, i, b, newChain) && theirs == TallyOf(st, main, b)
    {
      ProgressStep(st, block, n, i, a, oldChain);
      ProgressStep(st, candidate, n, i, b, newChain);
      if oldChain.Some? {
        ours := AddBlock(st, main, ours, oldChain.value, a);
        a := a + [oldChain.value];
        oldChain := GetParent(st, oldChain.value);
      }
      if newChain.Some? {
        theirs := AddBlock(st, main, theirs, newChain.value, b);
        b := b + [newChain.value];
        newChain := GetParent(st, newChain.value);
      }
      i := i + 1;
    }
    assert a + [] == a && b + [] == b;
  }

  /** `IsLongerChain`. */
  method IsLongerChain(st: Store, c: Consensus, main: MainChain, block: Option<PoolBlock>, candidate: PoolBlock,
                       ok: bool, ghost known: set<PoolBlock>)
    returns (r: Choice)
    requires Acyclic(st, known) && candidate in known && (block.Some? ==> block.value in known)
    ensures r == LongerChain(st, c, main, block, candidate, ok)
  {
    if !ok {
      return Choice(false, false);
    }
    if block.None? {
      return Choice(true, true);
    }
    var related := FindRelated(st, block.value, candidate, known);
    if related {
      return Choice(block.value.cumulative < candidate.cumulative, false);
    }
    var ours, theirs := CompareChains(st, c, main, block.value, candidate);
    if ours.total >= theirs.total {
      return Choice(false, true);
    }
    var tip := main(ZERO_HASH);
    if tip.None? {
      return Choice(false, true);
    }
    // a chain that lags behind the main chain never wins
    if theirs.newest + 10 < tip.value || theirs.oldest + c.chainWindowSize * 4 * c.targetBlockTime / 120 < tip.value {
      return Choice(false, true);
    }
    // nor does one that rests on far fewer Monero blocks than ours
    if |theirs.known| * 2 < |ours.known| {
      return Choice(false, true);
    }
    return Choice(true, true);
  }

  // ---------------------------------------------------------------- asymmetry

  /** A set of blocks that parents do not leave and along which heights drop by one. */
  ghost predicate Stepwise(st: Store, v: set<PoolBlock>) {
    forall b :: b in v && GetParent(st, b).Some? ==>
      GetParent(st, b).value in v && GetParent(st, b).value.height + 1 == b.height
  }

  lemma {:induction false} DescendLandsAt(st: Store, v: set<PoolBlock>, b: PoolBlock, h: nat)
    requires Stepwise(st, v) && b in v
    ensures var x := Descend(st, Some(b), h);
      x.Some? ==> x.value in v && x.value.height == if b.height <= h then b.height else h
    decreases b.rank
  {
    if b.height > h && Below(st, b).Some? {
      DescendLandsAt(st, v, Below(st, b).value, h);
    }
  }

  lemma {:induction false} MeetSymmetric(st: Store, a: Option<PoolBlock>, b: Option<PoolBlock>)
    ensures Meet(st, a, b) == Meet(st, b, a)
    decreases if a.Some? then a.value.rank + 1 else 0
  {
    if a.Some? && b.Some? {
      MeetSymmetric(st, Below(st, a.value), Below(st, b.value));
    }
  }

  lemma RelatedFromAbove(st: Store, v: set<PoolBlock>, a: PoolBlock, b: PoolBlock)
    requires Stepwise(st, v) && a in v && b in v && a.height >= b.height
    ensures Related(st, a, b) == Related(st, b, a)
  {
    var x := Descend(st, Some(a), b.height);
    DescendLandsAt(st, v, a, b.height);
    MeetSymmetric(st, x, Some(b));
  }

  /** Fork choice never prefers each of two blocks over the other, nor a block over itself. */
  lemma ForkChoiceAsymmetric(st: Store, c: Consensus, main: MainChain, v: set<PoolBlock>, a: PoolBlock, b: PoolBlock,
                             okA: bool, okB: bool)
    requires Stepwise(st, v) && a in v && b in v
    ensures !(LongerChain(st, c, main, Some(a), b, okB).longer && LongerChain(st, c, main, Some(b), a, okA).longer)
    ensures !LongerChain(st, c, main, Some(a), a, okA).longer
  {
    if a.height >= b.height {
      RelatedFromAbove(st, v, a, b);
    } else {
      RelatedFromAbove(st, v, b, a);
    }
  }

  // ---------------------------------------------------------------- what the comparison means

  /** Ancestors at the same height, or the blocks themselves, name the same parent. */
  ghost predicate SameRoots(st: Store, a: PoolBlock, b: PoolBlock, p: seq<PoolBlock>, q: seq<PoolBlock>) {
    && Lineage(st, a, p)
    && Lineage(st, b, q)
    && p[|p| - 1].height == q[|q| - 1].height
    && p[|p| - 1].parent == q[|q| - 1].parent
  }

  ghost predicate CommonAncestor(st: Store, a: PoolBlock, b: PoolBlock) {
    exists p, q :: SameRoots(st, a, b, p, q)
  }

  lemma {:induction false} MeetGivesRoots(st: Store, v: set<PoolBlock>, a: PoolBlock, b: PoolBlock)
    returns (p: seq<PoolBlock>, q: seq<PoolBlock>)
    requires Stepwise(st, v) && a in v && b in v && a.height == b.height && Meet(st, Some(a), Some(b))
    ensures SameRoots(st, a, b, p, q)
    decreases a.rank
  {
    p, q := [a], [b];
    if a.parent != b.parent {
      var x, y := Below(st, a).value, Below(st, b).value;
      p, q := MeetGivesRoots(st, v, x, y);
      LineageFrom(st, a, x, p);
      LineageFrom(st, b, y, q);
      p, q := [a] + p, [b] + q;
    }
  }

  lemma {:induction false} RootsMeet(st: Store, v: set<PoolBlock>, a: PoolBlock, b: PoolBlock, p: seq<PoolBlock>,
                                     q: seq<PoolBlock>)
    requires Acyclic(st, v) && a in v && b in v && Lineage(st, a, p) && Lineage(st, b, q) && |p| == |q|
    requires p[|p| - 1].parent == q[|q| - 1].parent
    ensures Meet(st, Some(a), Some(b))
    decreases |p|
  {
    if |p| > 1 {
      LineageRest(st, a, p);
      LineageRest(st, b, q);
      RootsMeet(st, v, p[1], q[1], p[1..], q[1..]);
    }
  }

  lemma {:induction false} DescendGivesLine(st: Store, a: PoolBlock, h: nat) returns (p: seq<PoolBlock>)
    requires Descend(st, Some(a), h).Some?
    ensures Lineage(st, a, p) && p[|p| - 1] == Descend(st, Some(a), h).value
    decreases a.rank
  {
    p := [a];
    if a.height > h {
      p := DescendGivesLine(st, Below(st, a).value, h);
      LineageFrom(st, a, Below(st, a).value, p);
      p := [a] + p;
    }
  }

  lemma {:induction false} LineHeights(st: Store, v: set<PoolBlock>, a: PoolBlock, p: seq<PoolBlock>)
    requires Stepwise(st, v) && a in v && Lineage(st, a, p)
    ensures p[|p| - 1] in v && p[|p| - 1].height + |p| == a.height + 1
    decreases |p|
  {
    if |p| > 1 {
      LineageRest(st, a, p);
      LineHeights(st, v, p[1], p[1..]);
    }
  }

  /** A line that goes low enough passes where a descent stops. */
  lemma {:induction false} DescendOnLine(st: Store, v: set<PoolBlock>, a: PoolBlock, h: nat, p: seq<PoolBlock>)
    returns (k: nat)
    requires Stepwise(st, v) && Acyclic(st, v) && a in v && Lineage(st, a, p) && p[|p| - 1].height <= h
    ensures k < |p| && Descend(st, Some(a), h) == Some(p[k]) && Lineage(st, p[k], p[k..]) && p[k] in v
    decreases |p|
  {
    if a.height <= h {
      k := 0;
      assert p[0..] == p;
    } else {
      LineageRest(st, a, p);
      k := DescendOnLine(st, v, p[1], h, p[1..]);
      assert p[1..][k..] == p[k + 1..];
      k := k + 1;
    }
  }

  lemma LineJoins(st: Store, a: PoolBlock, p: seq<PoolBlock>, q: seq<PoolBlock>)
    requires Lineage(st, a, p) && Lineage(st, p[|p| - 1], q)
    ensures Lineage(st, a, p + q[1..])
  {
    var r := p + q[1..];
    forall i | 0 < i < |r| ensures GetParent(st, r[i - 1]) == Some(r[i]) {
      if i >= |p| {
        assert r[i] == q[i - |p| + 1] && r[i - 1] == q[i - |p|];
      }
    }
  }

  /** The search finds a common ancestor exactly if there is one. */
  lemma RelatedMeaning(st: Store, v: set<PoolBlock>, a: PoolBlock, b: PoolBlock)
    requires Stepwise(st, v) && Acyclic(st, v) && a in v && b in v
    ensures Related(st, a, b) <==> CommonAncestor(st, a, b)
  {
    if Related(st, a, b) {
      RelatedHasAncestor(st, v, a, b);
    }
    if CommonAncestor(st, a, b) {
      var p, q :| SameRoots(st, a, b, p, q);
      RootsRelate(st, v, a, b, p, q);
    }
  }

  lemma RelatedHasAncestor(st: Store, v: set<PoolBlock>, a: PoolBlock, b: PoolBlock)
    requires Stepwise(st, v) && a in v && b in v && Related(st, a, b)
    ensures CommonAncestor(st, a, b)
  {
    var x := Descend(st, Some(a), b.height).value;
    var y := Descend(st, Some(b), x.height).value;
    DescendLandsAt(st, v, a, b.height);
    DescendLandsAt(st, v, b, x.height);
    var p := DescendGivesLine(st, a, b.height);
    var q := DescendGivesLine(st, b, x.height);
    var p', q' := MeetGivesRoots(st, v, x, y);
    LineJoins(st, a, p, p');
    LineJoins(st, b, q, q');
    assert SameRoots(st, a, b, p + p'[1..], q + q'[1..]);
  }

  lemma RootsRelate(st: Store, v: set<PoolBlock>, a: PoolBlock, b: PoolBlock, p: seq<PoolBlock>, q: seq<PoolBlock>)
    requires Stepwise(st, v) && Acyclic(st, v) && a in v && b in v && SameRoots(st, a, b, p, q)
    ensures Related(st, a, b)
  {
    LineHeights(st, v, a, p);
    LineHeights(st, v, b, q);
    var k := DescendOnLine(st, v, a, b.height, p);
    DescendLandsAt(st, v, a, b.height);
    var l := DescendOnLine(st, v, b, p[k].height, q);
    DescendLandsAt(st, v, b, p[k].height);
    LineHeights(st, v, p[k], p[k..]);
    LineHeights(st, v, q[l], q[l..]);
    RootsMeet(st, v, p[k], q[l], p[k..], q[l..]);
  }

  lemma {:induction false} ChainMeaning(st: Store, b: PoolBlock, n: nat)
    requires n > 0
    ensures var r := Chain(st, Some(b), n);
      Lineage(st, b, r) && |r| <= n && (|r| < n ==> GetParent(st, r[|r| - 1]) == None)
    decreases n
  {
    var p := GetParent(st, b);
    if n > 1 && p.Some? {
      ChainMeaning(st, p.value, n - 1);
      LineageFrom(st, b, p.value, Chain(st, p, n - 1));
    }
  }

  function SumDifficulties(blocks: seq<PoolBlock>): nat {
    if blocks == [] then 0 else SumDifficulties(blocks[..|blocks| - 1]) + blocks[|blocks| - 1].difficulty
  }

  /** The difficulties of all blocks and of their uncles. */
  function ChainWork(st: Store, chain: seq<PoolBlock>): nat {
    if chain == [] then 0
    else
      var b := chain[|chain| - 1];
      ChainWork(st, chain[..|chain| - 1]) + b.difficulty + SumDifficulties(IteratedUncles(st, b))
  }

  lemma {:induction false} AddDifficultiesIsSum(x: nat, blocks: seq<PoolBlock>)
    ensures AddDifficulties(x % TWO128, blocks) == (x + SumDifficulties(blocks)) % TWO128
  {
    if blocks != [] {
      AddDifficultiesIsSum(x, blocks[..|blocks| - 1]);
      AddTo128(x + SumDifficulties(blocks[..|blocks| - 1]), blocks[|blocks| - 1].difficulty);
    }
  }

  lemma {:induction false} TotalIsWork(st: Store, chain: seq<PoolBlock>)
    ensures TotalDifficulty(st, chain) == ChainWork(st, chain) % TWO128
  {
    if chain != [] {
      var n := |chain| - 1;
      var before := ChainWork(st, chain[..n]);
      TotalIsWork(st, chain[..n]);
      AddTo128(before, chain[n].difficulty);
      AddDifficultiesIsSum(before + chain[n].difficulty, IteratedUncles(st, chain[n]));
    }
  }

  /** The known Monero blocks that blocks of the chain were mined on. */
  ghost function MinedOn(main: MainChain, chain: seq<PoolBlock>): set<Hash> {
    set x | x in chain && main(x.previousId).Some? :: x.previousId
  }

  lemma MinedOnOneMore(main: MainChain, chain: seq<PoolBlock>, b: PoolBlock)
    ensures MinedOn(main, chain + [b]) == MinedOn(main, chain) + if main(b.previousId).Some? then {b.previousId} else {}
  {
    forall id ensures id in MinedOn(main, chain + [b]) <==>
      id in MinedOn(main, chain) || (id == b.previousId && main(id).Some?)
    {
      if id in MinedOn(main, chain) {
        var x :| x in chain && main(x.previousId).Some? && x.previousId == id;
        assert x in chain + [b];
      }
      if id == b.previousId && main(id).Some? {
        assert b in chain + [b];
      }
    }
  }

  /** The same ids, listed once each. */
  ghost predicate Lists(ids: seq<Hash>, s: set<Hash>) {
    |ids| == |s| && forall id :: id in ids <==> id in s
  }

  lemma ListsOneMore(ids: seq<Hash>, s: set<Hash>, id: Hash)
    requires Lists(ids, s) && id !in ids
    ensures Lists(ids + [id], s + {id})
  {
  }

  lemma {:induction false} KnownMeaning(main: MainChain, chain: seq<PoolBlock>)
    ensures Lists(KnownBlocks(main, chain), MinedOn(main, chain))
  {
    if chain != [] {
      var n := |chain| - 1;
      var known, s, id := KnownBlocks(main, chain[..n]), MinedOn(main, chain[..n]), chain[n].previousId;
      KnownMeaning(main, chain[..n]);
      assert chain == chain[..n] + [chain[n]];
      MinedOnOneMore(main, chain[..n], chain[n]);
      if main(id).Some? && id !in known {
        ListsOneMore(known, s, id);
      } else {
        assert MinedOn(main, chain) == s;
      }
    }
  }

  lemma {:induction false} NewestMeaning(main: MainChain, chain: seq<PoolBlock>)
    ensures forall x :: x in chain && main(x.previousId).Some? ==> main(x.previousId).value <= NewestBlock(main, chain)
    ensures NewestBlock(main, chain) == 0
      || exists x :: x in chain && main(x.previousId) == Some(NewestBlock(main, chain))
  {
    if chain != [] {
      var n := |chain| - 1;
      NewestMeaning(main, chain[..n]);
      KnownMeaning(main, chain[..n]);
      assert chain == chain[..n] + [chain[n]] && chain[n] in chain;
      if chain[n].previousId in KnownBlocks(main, chain[..n]) {
        var x :| x in chain[..n] && x.previousId == chain[n].previousId;
      }
    }
  }

  /** The least height, if none of them is zero. A zero makes all heights before it count for nothing. */
  lemma {:induction false} OldestMeaning(chain: seq<PoolBlock>) returns (k: nat)
    ensures k <= |chain| && (k == 0 || chain[k - 1].genHeight == 0)
    ensures forall i :: k <= i < |chain| ==> 0 < OldestHeight(chain) <= chain[i].genHeight
    ensures k == |chain| ==> OldestHeight(chain) == 0
    ensures k < |chain| ==> exists i :: k <= i < |chain| && chain[i].genHeight == OldestHeight(chain)
  {
    k := 0;
    if chain != [] {
      var n := |chain| - 1;
      k := OldestMeaning(chain[..n]);
      assert chain[n].genHeight == 0 ==> OldestHeight(chain) == 0;
      if chain[n].genHeight == 0 {
        k := |chain|;
      } else if k < n {
        var i :| k <= i < n && chain[..n][i].genHeight == OldestHeight(chain[..n]);
        assert chain[i].genHeight == OldestHeight(chain[..n]) && chain[n].genHeight >= 0;
      }
    }
  }

  /** Some block was mined on a Monero block at most ten below the tip, none at a height more than four
      windows of time below it, and at least half as many Monero blocks are known as for our chain. */
  ghost predicate UpToDate(c: Consensus, main: MainChain, ours: seq<PoolBlock>, theirs: seq<PoolBlock>) {
    && main(ZERO_HASH).Some?
    && var tip := main(ZERO_HASH).value;
       && (tip <= 10 || exists x :: x in theirs && main(x.previousId).Some? && tip <= main(x.previousId).value + 10)
       && tip <= OldestHeight(theirs) + c.chainWindowSize * 4 * c.targetBlockTime / 120
       && |MinedOn(main, ours)| <= |MinedOn(main, theirs)| * 2
  }

  lemma CurrentMeaning(c: Consensus, main: MainChain, ours: seq<PoolBlock>, theirs: seq<PoolBlock>)
    ensures Current(c, main, ours, theirs) <==> UpToDate(c, main, ours, theirs)
  {
    KnownMeaning(main, ours);
    KnownMeaning(main, theirs);
    NewestMeaning(main, theirs);
  }

  /** Which of two blocks is preferred. With a common ancestor it is the one with more cumulative difficulty.
      Otherwise the candidate needs more work in its window, modulo 2^128, and has to be up to date. */
  lemma PreferredIff(st: Store, c: Consensus, main: MainChain, v: set<PoolBlock>, a: PoolBlock, b: PoolBlock,
                     ours: seq<PoolBlock>, theirs: seq<PoolBlock>)
    requires Stepwise(st, v) && Acyclic(st, v) && a in v && b in v
    requires ours == Chain(st, Some(a), c.chainWindowSize) && theirs == Chain(st, Some(b), c.chainWindowSize)
    ensures var r := LongerChain(st, c, main, Some(a), b, true);
      if CommonAncestor(st, a, b) then !r.alternative && (r.longer <==> a.cumulative < b.cumulative)
      else
        && r.alternative
        && (r.longer <==>
              ChainWork(st, ours) % TWO128 < ChainWork(st, theirs) % TWO128 && UpToDate(c, main, ours, theirs))
    ensures LongerChain(st, c, main, None, b, true).longer
    ensures !LongerChain(st, c, main, Some(a), b, false).longer && !LongerChain(st, c, main, None, b, false).longer
  {
    RelatedMeaning(st, v, a, b);
    TotalIsWork(st, ours);
    TotalIsWork(st, theirs);
    CurrentMeaning(c, main, ours, theirs);
  }

  /** A block beats an ancestor exactly if its cumulative difficulty is greater. */
  lemma DescendantBeatsAncestor(st: Store, c: Consensus, main: MainChain, v: set<PoolBlock>, a: PoolBlock, b: PoolBlock,
                                line: seq<PoolBlock>)
    requires Stepwise(st, v) && Acyclic(st, v) && a in v && b in v && Lineage(st, b, line) && line[|line| - 1] == a
    ensures LongerChain(st, c, main, Some(a), b, true) == Choice(a.cumulative < b.cumulative, false)
  {
    assert SameRoots(st, a, b, [a], line);
    RelatedMeaning(st, v, a, b);
  }
}
