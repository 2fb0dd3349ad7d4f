/** The PPLNS (pay per last N shares) window (p2pool/sidechain/utils.go): which blocks and uncles
    count for a payout, and with what weight. */
module Window {
  import opened Blocks

  const SEED_EPOCH_BLOCKS := 2048
  const SEED_EPOCH_LAG := 64

  /** `randomx.SeedHeight`. */
  function SeedHeight(height: nat): nat {
    if height <= SEED_EPOCH_BLOCKS + SEED_EPOCH_LAG then 0
    else (height - SEED_EPOCH_LAG - 1) / SEED_EPOCH_BLOCKS * SEED_EPOCH_BLOCKS
  }

  /** `ApplyUnclePenalty`, with the 128-bit wrap-around of `Mul64` and `Sub`. */
  function Penalty(c: Consensus, difficulty: nat): nat {
    difficulty * c.unclePenalty % TWO128 / 100
  }

  function UncleWeight(c: Consensus, difficulty: nat): nat {
    (difficulty - Penalty(c, difficulty)) % TWO128
  }

  /** One call of the callback: a block of the window and the weight it gets. */
  datatype Weighted = Weighted(block: PoolBlock, weight: nat)

  /** The variables of the uncle callback: total given out, weight of the current main block, and
      the shares handed out so far. */
  datatype Acc = Acc(total: nat, weight: nat, shares: seq<Weighted>)

  function AddUncle(c: Consensus, tip: PoolBlock, cap: nat, a: Acc, u: PoolBlock): Acc {
    var total := Add128(a.total, UncleWeight(c, u.difficulty));
    if Sub64(tip.height, u.height) >= c.chainWindowSize || total > cap then a
    else Acc(total, Add128(a.weight, Penalty(c, u.difficulty)), a.shares + [Weighted(u, UncleWeight(c, u.difficulty))])
  }

  function AddUncles(c: Consensus, tip: PoolBlock, cap: nat, a: Acc, uncles: seq<PoolBlock>): Acc {
    if uncles == [] then a
    else AddUncle(c, tip, cap, AddUncles(c, tip, cap, a, uncles[..|uncles| - 1]), uncles[|uncles| - 1])
  }

  /** A finished walk: the shares in callback order and the height of the lowest main block. */
  datatype Walked = Walked(shares: seq<Weighted>, bottom: nat)

  /** The walk from `cur` down, `depth` blocks below the tip, with `total` given out already. */
  function Walk(st: Store, c: Consensus, tip: PoolBlock, cap: nat, cur: PoolBlock, depth: nat, total: nat)
    : Option<Walked>
    decreases c.chainWindowSize - depth
  {
    if !UnclesFound(st, cur) then None
    else
      var a := AddUncles(c, tip, cap, Acc(total, cur.difficulty, []), IteratedUncles(st, cur));
      var here, next := a.shares + [Weighted(cur, a.weight)], Add128(a.total, a.weight);
      if next > cap || depth + 1 >= c.chainWindowSize || cur.height == 0 then Some(Walked(here, cur.height))
      else
        match GetParent(st, cur)
        case None => None
        case Some(p) => Before(here, Walk(st, c, tip, cap, p, depth + 1, next))
  }

  function Before(shares: seq<Weighted>, w: Option<Walked>): Option<Walked> {
    if w.None? then None else Some(w.value.(shares := shares + w.value.shares))
  }

  /** Twice the Monero difficulty from version 2 on, unlimited before. */
  function Cap(tip: PoolBlock, mainDifficulty: nat): nat {
    if tip.version > 1 then mainDifficulty * 2 % TWO128 else TWO128 - 1
  }

  /** The Monero difficulty the cap is taken from: zero if the tip has no parent. */
  function MainDifficulty(tip: PoolBlock, difficultyByHeight: nat -> nat): nat {
    if tip.parent != ZERO_HASH then difficultyByHeight(SeedHeight(tip.genHeight)) else 0
  }

  /** What both iterators compute; none is an error. */
  function PplnsWindow(st: Store, c: Consensus, tip: PoolBlock, difficultyByHeight: nat -> nat): Option<Walked> {
    var main := MainDifficulty(tip, difficultyByHeight);
    if tip.parent != ZERO_HASH && main == 0 then None
    else Walk(st, c, tip, Cap(tip, main), tip, 0, 0)
  }

  // ---------------------------------------------------------------- the two iterators

  lemma BeforeBefore(a: seq<Weighted>, b: seq<Weighted>, w: Option<Walked>)
    ensures Before(a, Before(b, w)) == Before(a + b, w)
  {
    if w.Some? {
      assert a + (b + w.value.shares) == (a + b) + w.value.shares;
    }
  }

  lemma {:induction false} AddUnclesAppends(c: Consensus, tip: PoolBlock, cap: nat, a: Acc, uncles: seq<PoolBlock>)
    ensures var r := AddUncles(c, tip, cap, a.(shares := []), uncles);
      AddUncles(c, tip, cap, a, uncles) == r.(shares := a.shares + r.shares)
  {
    if uncles == [] {
      assert a.shares + [] == a.shares;
    } else {
      AddUnclesAppends(c, tip, cap, a, uncles[..|uncles| - 1]);
      var r := AddUncles(c, tip, cap, a.(shares := []), uncles[..|uncles| - 1]);
      var u := uncles[|uncles| - 1];
      var w := Weighted(u, UncleWeight(c, u.difficulty));
      assert (a.shares + r.shares) + [w] == a.shares + (r.shares + [w]);
    }
  }

  /** The uncle callback, run over the uncles of one block. */
  method CountUncles(c: Consensus, tip: PoolBlock, cap: nat, uncles: seq<PoolBlock>, a: Acc) returns (r: Acc)
    ensures r == AddUncles(c, tip, cap, a, uncles)
  {
    r := a;
    for i := 0 to |uncles|
      invariant r == AddUncles(c, tip, cap, a, uncles[..i])
    {
      var u := uncles[i];
      assert uncles[..i + 1][..i] == uncles[..i];
      // an old uncle gets no share and its nephew no penalty
      if Sub64(tip.height, u.height) < c.chainWindowSize {
        var uncleWeight, unclePenalty := UncleWeight(c, u.difficulty), Penalty(c, u.difficulty);
        var total := Add128(r.total, uncleWeight);
        // nor does one that would exceed the cap, though a later one may still fit
        if total <= cap {
          r := Acc(total, Add128(r.weight, unclePenalty), r.shares + [Weighted(u, uncleWeight)]);
        }
      }
    }
    assert uncles[..|uncles|] == uncles;
  }

  lemma WalkStep(st: Store, c: Consensus, tip: PoolBlock, cap: nat, cur: PoolBlock, depth: nat, before: Acc, a: Acc)
    requires before.weight == cur.difficulty
    requires a == AddUncles(c, tip, cap, before, IteratedUncles(st, cur))
    ensures var whole := Before(before.shares, Walk(st, c, tip, cap, cur, depth, before.total));
      var shares, next := a.shares + [Weighted(cur, a.weight)], Add128(a.total, a.weight);
      if !UnclesFound(st, cur) then whole == None
      else if next > cap || depth + 1 >= c.chainWindowSize || cur.height == 0 then
        whole == Some(Walked(shares, cur.height))
      else if GetParent(st, cur).None? then whole == None
      else whole == Before(shares, Walk(st, c, tip, cap, GetParent(st, cur).value, depth + 1, next))
  {
    AddUnclesAppends(c, tip, cap, before, IteratedUncles(st, cur));
    var r := AddUncles(c, tip, cap, before.(shares := []), IteratedUncles(st, cur));
    var here := r.shares + [Weighted(cur, r.weight)];
    assert a.shares + [Weighted(cur, a.weight)] == before.shares + here;
    if GetParent(st, cur).Some? && depth + 1 < c.chainWindowSize {
      BeforeBefore(before.shares, here,
        Walk(st, c, tip, cap, GetParent(st, cur).value, depth + 1, Add128(a.total, a.weight)));
    }
  }

  lemma BeforeNothing(w: Option<Walked>)
    ensures Before([], w) == w
  {
    if w.Some? {
      assert [] + w.value.shares == w.value.shares;
    }
  }

  /** `BlocksInPPLNSWindow`. */
  method BlocksInPPLNSWindow(st: Store, c: Consensus, tip: PoolBlock, difficultyByHeight: nat -> nat)
    returns (r: Option<Walked>)
    ensures r == PplnsWindow(st, c, tip, difficultyByHeight)
  {
    var mainDifficulty := MainDifficulty(tip, difficultyByHeight);
    if tip.parent != ZERO_HASH && mainDifficulty == 0 {
      return None;
    }
    var cap := Cap(tip, mainDifficulty);
    var cur, depth, total, shares: seq<Weighted> := tip, 0, 0, [];
    BeforeNothing(Walk(st, c, tip, cap, tip, 0, 0));
    while true
      invariant Walk(st, c, tip, cap, tip, 0, 0) == Before(shares, Walk(st, c, tip, cap, cur, depth, total))
      decreases c.chainWindowSize - depth
    {
      var before := Acc(total, cur.difficulty, shares);
      var a := CountUncles(c, tip, cap, IteratedUncles(st, cur), before);
      WalkStep(st, c, tip, cap, cur, depth, before, a);
      if !UnclesFound(st, cur) {
        return None;
      }
      // the one share that may exceed the cap, which ends the walk
      shares, total := a.shares + [Weighted(cur, a.weight)], Add128(a.total, a.weight);
      depth := depth + 1;
      if total > cap || depth >= c.chainWindowSize || cur.height == 0 {
        return Some(Walked(shares, cur.height));
      }
      var parent := GetParent(st, cur);
      if parent.None? {
        return None;
      }
      cur := parent.value;
    }
  }

  /** One slot as `IterateBlocksInPPLNSWindow` reports it, with all uncles. */
  datatype Slot = Slot(block: PoolBlock, uncles: seq<PoolBlock>)

  /** The slots follow the parents down from the tip, each with all its uncles. */
  ghost predicate SlotChain(st: Store, tip: PoolBlock, slots: seq<Slot>) {
    && (slots != [] ==> slots[0].block == tip)
    && (forall i :: 0 <= i < |slots| ==> slots[i].uncles == IteratedUncles(st, slots[i].block))
    && (forall i :: 0 < i < |slots| ==> GetParent(st, slots[i - 1].block) == Some(slots[i].block))
  }

  ghost predicate Next(st: Store, tip: PoolBlock, slots: seq<Slot>, cur: PoolBlock) {
    if slots == [] then cur == tip else GetParent(st, slots[|slots| - 1].block) == Some(cur)
  }

  lemma SlotAppended(st: Store, tip: PoolBlock, slots: seq<Slot>, cur: PoolBlock)
    requires SlotChain(st, tip, slots) && Next(st, tip, slots, cur)
    ensures SlotChain(st, tip, slots + [Slot(cur, IteratedUncles(st, cur))])
  {
  }

  /** `IterateBlocksInPPLNSWindow`: the same shares, and one slot for every main block. */
  method IterateBlocksInPPLNSWindow(st: Store, c: Consensus, tip: PoolBlock, difficultyByHeight: nat -> nat)
    returns (r: Option<seq<Weighted>>, slots: seq<Slot>)
    ensures SlotChain(st, tip, slots)
    ensures r.None? ==> PplnsWindow(st, c, tip, difficultyByHeight) == None
    ensures r.Some? ==> slots != []
    ensures r.Some? ==>
      PplnsWindow(st, c, tip, difficultyByHeight) == Some(Walked(r.value, slots[|slots| - 1].block.height))
  {
    slots := [];
    var mainDifficulty := MainDifficulty(tip, difficultyByHeight);
    if tip.parent != ZERO_HASH && mainDifficulty == 0 {
      return None, slots;
    }
    var cap := Cap(tip, mainDifficulty);
    var cur, depth, total, shares: seq<Weighted> := tip, 0, 0, [];
    BeforeNothing(Walk(st, c, tip, cap, tip, 0, 0));
    while true
      invariant Walk(st, c, tip, cap, tip, 0, 0) == Before(shares, Walk(st, c, tip, cap, cur, depth, total))
      invariant SlotChain(st, tip, slots) && Next(st, tip, slots, cur)
      decreases c.chainWindowSize - depth
    {
      var before := Acc(total, cur.difficulty, shares);
      var a := CountUncles(c, tip, cap, IteratedUncles(st, cur), before);
      WalkStep(st, c, tip, cap, cur, depth, before, a);
      if !UnclesFound(st, cur) {
        return None, slots;
      }
      SlotAppended(st, tip, slots, cur);
      slots := slots + [Slot(cur, IteratedUncles(st, cur))];
      shares, total := a.shares + [Weighted(cur, a.weight)], Add128(a.total, a.weight);
      depth := depth + 1;
      if total > cap || depth >= c.chainWindowSize || cur.height == 0 {
        return Some(shares), slots;
      }
      var parent := GetParent(st, cur);
      if parent.None? {
        return None, slots;
      }
      cur := parent.value;
    }
  }

  // ---------------------------------------------------------------- conservation and cap

  function Sum(shares: seq<Weighted>): nat {
    if shares == [] then 0 else Sum(shares[..|shares| - 1]) + shares[|shares| - 1].weight
  }

  /** The difficulty of every block that was handed a share. */
  function Work(shares: seq<Weighted>): nat {
    if shares == [] then 0 else Work(shares[..|shares| - 1]) + shares[|shares| - 1].block.difficulty
  }

  predicate Congruent(a: int, b: int) { (a - b) % TWO128 == 0 }

  lemma MultipleVanishes(x: int, k: int)
    requires x == TWO128 * k
    ensures x % TWO128 == 0
  {
  }

  lemma CongruentAdd(a: int, b: int, c: int, d: int)
    requires Congruent(a, b) && Congruent(c, d)
    ensures Congruent(a + c, b + d)
  {
    var j, k := (a - b) / TWO128, (c - d) / TWO128;
    assert a - b == TWO128 * j && c - d == TWO128 * k;
    MultipleVanishes(a + c - (b + d), j + k);
  }

  lemma CongruentTrans(a: int, b: int, c: int)
    requires Congruent(a, b) && Congruent(b, c)
    ensures Congruent(a, c)
  {
    CongruentAdd(a, b, b, c);
    assert a + b - (b + c) == a - c;
  }

  lemma CongruentSmall(a: nat, b: nat)
    requires Congruent(a, b) && a < TWO128 && b < TWO128
    ensures a == b
  {
  }

  lemma Add128Congruent(a: nat, b: nat)
    ensures Congruent(Add128(a, b), a + b) && Add128(a, b) < TWO128
  {
  }

  lemma PenaltyCongruent(c: Consensus, d: nat)
    ensures Congruent(UncleWeight(c, d) + Penalty(c, d), d)
  {
  }

  lemma {:induction false} SumConcat(a: seq<Weighted>, b: seq<Weighted>)
    ensures Sum(a + b) == Sum(a) + Sum(b) && Work(a + b) == Work(a) + Work(b)
    decreases |b|
  {
    if b == [] {
      assert a + b == a;
    } else {
      var n := |b| - 1;
      assert (a + b)[..|a + b| - 1] == a + b[..n];
      SumConcat(a, b[..n]);
    }
  }

  lemma SumOne(a: seq<Weighted>, w: Weighted)
    ensures Sum(a + [w]) == Sum(a) + w.weight && Work(a + [w]) == Work(a) + w.block.difficulty
  {
    assert (a + [w])[..|a|] == a;
  }

  ghost predicate Balanced(a: Acc, total: nat, weight: nat, cap: nat) {
    && a.total < TWO128
    && Congruent(a.total, total + Sum(a.shares))
    && Congruent(Sum(a.shares) + a.weight, Work(a.shares) + weight)
    && (total <= cap ==> a.total <= cap)
  }

  lemma TotalConserves(total: nat, given: nat, sum: nat, w: nat)
    requires Congruent(given, total + sum)
    ensures Congruent(Add128(given, w), total + (sum + w))
  {
    Add128Congruent(given, w);
    CongruentAdd(given, total + sum, w, w);
    CongruentTrans(Add128(given, w), given + w, total + sum + w);
  }

  lemma WeightConserves(sum: nat, work: nat, main: nat, weight: nat, w: nat, p: nat, d: nat)
    requires Congruent(sum + main, work + weight) && Congruent(w + p, d)
    ensures Congruent((sum + w) + Add128(main, p), (work + d) + weight)
  {
    Add128Congruent(main, p);
    CongruentAdd(Add128(main, p), main + p, sum + w, sum + w);
    CongruentAdd(sum + main, work + weight, w + p, d);
    assert main + p + (sum + w) == sum + main + (w + p);
    CongruentTrans(sum + w + Add128(main, p), sum + main + (w + p), work + weight + d);
  }

  /** What an uncle's share loses, its main block gains. */
  lemma UncleConserves(c: Consensus, tip: PoolBlock, cap: nat, a: Acc, u: PoolBlock, total: nat, weight: nat)
    requires Balanced(a, total, weight, cap)
    ensures Balanced(AddUncle(c, tip, cap, a, u), total, weight, cap)
  {
    var w, p := UncleWeight(c, u.difficulty), Penalty(c, u.difficulty);
    SumOne(a.shares, Weighted(u, w));
    PenaltyCongruent(c, u.difficulty);
    TotalConserves(total, a.total, Sum(a.shares), w);
    WeightConserves(Sum(a.shares), Work(a.shares), a.weight, weight, w, p, u.difficulty);
  }

  lemma {:induction false} UnclesConserve(c: Consensus, tip: PoolBlock, cap: nat, total: nat, weight: nat,
                                          uncles: seq<PoolBlock>)
    requires total < TWO128
    ensures Balanced(AddUncles(c, tip, cap, Acc(total, weight, []), uncles), total, weight, cap)
  {
    if uncles != [] {
      var n := |uncles| - 1;
      UnclesConserve(c, tip, cap, total, weight, uncles[..n]);
      UncleConserves(c, tip, cap, AddUncles(c, tip, cap, Acc(total, weight, []), uncles[..n]), uncles[n], total,
        weight);
    }
  }

  /** Everything said about a finished walk, relative to the total given out before it. */
  ghost predicate Accounted(cap: nat, total: nat, w: Walked) {
    && w.shares != []
    && w.shares[|w.shares| - 1].block.height == w.bottom
    && Congruent(Sum(w.shares), Work(w.shares))
    && (total + Sum(w.shares) < TWO128 ==> total + Sum(w.shares[..|w.shares| - 1]) <= cap)
  }

  lemma AccountedHere(cap: nat, total: nat, a: Acc, cur: PoolBlock)
    requires Balanced(a, total, cur.difficulty, cap) && total <= cap
    ensures Accounted(cap, total, Walked(a.shares + [Weighted(cur, a.weight)], cur.height))
    ensures Congruent(Add128(a.total, a.weight), total + Sum(a.shares + [Weighted(cur, a.weight)]))
  {
    var shares := a.shares + [Weighted(cur, a.weight)];
    SumOne(a.shares, Weighted(cur, a.weight));
    assert shares[..|shares| - 1] == a.shares;
    TotalConserves(total, a.total, Sum(a.shares), a.weight);
    if total + Sum(a.shares) < TWO128 {
      CongruentSmall(a.total, total + Sum(a.shares));
    }
  }

  /** The cap holds for sums that do not wrap. */
  lemma CapBefore(cap: nat, total: nat, here: nat, next: nat, rest: nat, front: nat)
    requires Congruent(next, total + here) && next < TWO128
    requires next + rest < TWO128 ==> next + front <= cap
    ensures total + (here + rest) < TWO128 ==> total + (here + front) <= cap
  {
    if total + here < TWO128 {
      CongruentSmall(next, total + here);
    }
  }

  lemma AccountedBefore(cap: nat, total: nat, here: seq<Weighted>, next: nat, w: Walked)
    requires Accounted(cap, next, w)
    requires Congruent(next, total + Sum(here)) && next < TWO128
    requires Congruent(Sum(here), Work(here))
    ensures Accounted(cap, total, w.(shares := here + w.shares))
  {
    var front := w.shares[..|w.shares| - 1];
    SumConcat(here, w.shares);
    SumConcat(here, front);
    assert (here + w.shares)[..|here + w.shares| - 1] == here + front;
    CongruentAdd(Sum(here), Work(here), Sum(w.shares), Work(w.shares));
    CapBefore(cap, total, Sum(here), next, Sum(w.shares), Sum(front));
  }

  lemma {:induction false} WalkAccounted(st: Store, c: Consensus, tip: PoolBlock, cap: nat, cur: PoolBlock,
                                         depth: nat, total: nat)
    requires total <= cap < TWO128
    ensures var w := Walk(st, c, tip, cap, cur, depth, total); w.Some? ==> Accounted(cap, total, w.value)
    decreases c.chainWindowSize - depth
  {
    var a := AddUncles(c, tip, cap, Acc(total, cur.difficulty, []), IteratedUncles(st, cur));
    UnclesConserve(c, tip, cap, total, cur.difficulty, IteratedUncles(st, cur));
    AccountedHere(cap, total, a, cur);
    var here, next := a.shares + [Weighted(cur, a.weight)], Add128(a.total, a.weight);
    var p := GetParent(st, cur);
    if p.Some? && depth + 1 < c.chainWindowSize && next <= cap {
      WalkAccounted(st, c, tip, cap, p.value, depth + 1, next);
      var rest := Walk(st, c, tip, cap, p.value, depth + 1, next);
      if rest.Some? {
        Add128Congruent(a.total, a.weight);
        AccountedBefore(cap, total, here, next, rest.value);
      }
    }
  }

  /** A payout window is never empty and ends with its lowest main block. Its weights add up to
      the difficulties of the blocks in it, modulo 2^128 always and exactly when both sums fit.
      Without wrap-around only the last main share can go above the cap. */
  lemma WindowConservesWeight(st: Store, c: Consensus, tip: PoolBlock, difficultyByHeight: nat -> nat, w: Walked)
    requires PplnsWindow(st, c, tip, difficultyByHeight) == Some(w)
    ensures w.shares != [] && w.shares[|w.shares| - 1].block.height == w.bottom
    ensures Congruent(Sum(w.shares), Work(w.shares))
    ensures Sum(w.shares) < TWO128 && Work(w.shares) < TWO128 ==> Sum(w.shares) == Work(w.shares)
    ensures Sum(w.shares) < TWO128 ==>
      Sum(w.shares[..|w.shares| - 1]) <= Cap(tip, MainDifficulty(tip, difficultyByHeight))
  {
    WalkAccounted(st, c, tip, Cap(tip, MainDifficulty(tip, difficultyByHeight)), tip, 0, 0);
    if Sum(w.shares) < TWO128 && Work(w.shares) < TWO128 {
      CongruentSmall(Sum(w.shares), Work(w.shares));
    }
  }
}
