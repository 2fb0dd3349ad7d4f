/** Who gets what in a PPLNS window, share by share: an account of the walk that does not speak of how it
    is computed (p2pool/sidechain/utils.go, p2pool/sidechain/consensus.go). */
module WindowShares {
  import opened Blocks
  import opened Window

  /** One main block of the window, its uncles, and the positions in the list of shares at which each uncle
      is considered, followed by the position of the block itself. */
  datatype Entry = Entry(block: PoolBlock, uncles: seq<PoolBlock>, places: seq<nat>)

  ghost function Own(e: Entry): nat
    requires e.places != []
  {
    e.places[|e.places| - 1]
  }

  /** What was given out before a position. */
  ghost function Before128(shares: seq<Weighted>, p: nat): nat
    requires p <= |shares|
  {
    Sum(shares[..p]) % TWO128
  }

  /** An uncle gets its share, its difficulty less the penalty, exactly if it is less than the window size
      below the tip and the share does not exceed the cap. */
  ghost predicate UncleBooked(c: Consensus, tip: PoolBlock, cap: nat, shares: seq<Weighted>, u: PoolBlock, p: nat,
                              q: nat) {
    && p <= |shares|
    && if (tip.height - u.height) % TWO64 < c.chainWindowSize
          && (Before128(shares, p) + UncleWeight(c, u.difficulty)) % TWO128 <= cap
       then q == p + 1 <= |shares| && shares[p] == Weighted(u, UncleWeight(c, u.difficulty))
       else q == p
  }

  /** The penalties of the blocks that got these shares. */
  function Penalties(c: Consensus, shares: seq<Weighted>): nat {
    if shares == [] then 0
    else Penalties(c, shares[..|shares| - 1]) + Penalty(c, shares[|shares| - 1].block.difficulty)
  }

  /** A main block gets its difficulty and the penalties of its uncles that have shares. */
  ghost predicate OwnShare(c: Consensus, shares: seq<Weighted>, b: PoolBlock, from: nat, own: nat) {
    && from <= own < |shares|
    && shares[own].block == b
    && shares[own].weight == OwnWeight(c, b.difficulty, shares[from..own])
  }

  ghost predicate EntryBooked(c: Consensus, tip: PoolBlock, cap: nat, shares: seq<Weighted>, e: Entry) {
    && |e.places| == |e.uncles| + 1
    && (forall k :: 0 <= k < |e.uncles| ==> UncleBooked(c, tip, cap, shares, e.uncles[k], e.places[k], e.places[k + 1]))
    && OwnShare(c, shares, e.block, e.places[0], Own(e))
  }

  /** The walk ends when the cap is exceeded, when the window is full, or at a genesis block. */
  ghost predicate EndsHere(c: Consensus, cap: nat, shares: seq<Weighted>, e: Entry, depth: nat)
    requires e.places != [] && Own(e) < |shares|
  {
    Before128(shares, Own(e) + 1) > cap || depth + 1 >= c.chainWindowSize || e.block.height == 0
  }

  /** The entry accounts for a block and all its uncles, from a position on. */
  ghost predicate Accounts(st: Store, c: Consensus, tip: PoolBlock, cap: nat, shares: seq<Weighted>, cur: PoolBlock,
                           start: nat, e: Entry) {
    && EntryBooked(c, tip, cap, shares, e)
    && e.block == cur
    && UnclesFound(st, cur)
    && e.uncles == IteratedUncles(st, cur)
    && e.places[0] == start
  }

  /** From a block and a position on, the entries account for all shares, follow the parents, and end where
      the walk does. */
  ghost predicate Booked(st: Store, c: Consensus, tip: PoolBlock, cap: nat, shares: seq<Weighted>, cur: PoolBlock,
                         depth: nat, start: nat, entries: seq<Entry>)
    decreases |entries|
  {
    && entries != []
    && Accounts(st, c, tip, cap, shares, cur, start, entries[0])
    && (if |entries| == 1 then EndsHere(c, cap, shares, entries[0], depth) && Own(entries[0]) + 1 == |shares|
        else
          && !EndsHere(c, cap, shares, entries[0], depth)
          && GetParent(st, cur) == Some(entries[1].block)
          && Booked(st, c, tip, cap, shares, entries[1].block, depth + 1, Own(entries[0]) + 1, entries[1..]))
  }

  lemma BookedOne(st: Store, c: Consensus, tip: PoolBlock, cap: nat, shares: seq<Weighted>, cur: PoolBlock,
                  depth: nat, start: nat, e: Entry)
    requires Accounts(st, c, tip, cap, shares, cur, start, e)
    requires EndsHere(c, cap, shares, e, depth) && Own(e) + 1 == |shares|
    ensures Booked(st, c, tip, cap, shares, cur, depth, start, [e])
  {
  }

  lemma BookedFirst(st: Store, c: Consensus, tip: PoolBlock, cap: nat, shares: seq<Weighted>, cur: PoolBlock,
                    depth: nat, start: nat, e: Entry, p: PoolBlock, more: seq<Entry>)
    requires Accounts(st, c, tip, cap, shares, cur, start, e) && !EndsHere(c, cap, shares, e, depth)
    requires GetParent(st, cur) == Some(p) && Booked(st, c, tip, cap, shares, p, depth + 1, Own(e) + 1, more)
    ensures Booked(st, c, tip, cap, shares, cur, depth, start, [e] + more)
  {
    var entries := [e] + more;
    assert entries[1..] == more && entries[1].block == p;
  }

  // ---------------------------------------------------------------- the uncles of one block

  /** The variables of the callback after some uncles, with the shares of earlier blocks in front. */
  ghost predicate Kept(c: Consensus, front: seq<Weighted>, d: nat, a: Acc) {
    && a.total == Before128(front + a.shares, |front + a.shares|)
    && a.weight == OwnWeight(c, d, a.shares)
  }

  function OwnWeight(c: Consensus, d: nat, counted: seq<Weighted>): nat {
    if counted == [] then d else (d + Penalties(c, counted)) % TWO128
  }

  lemma TotalStep(shares: seq<Weighted>, s: Weighted)
    ensures Before128(shares + [s], |shares| + 1) == Add128(Before128(shares, |shares|), s.weight)
  {
    assert (shares + [s])[..|shares| + 1] == shares + [s] && shares[..|shares|] == shares;
    SumOne(shares, s);
    AddTo128(Sum(shares), s.weight);
  }

  lemma WeightStep(c: Consensus, d: nat, counted: seq<Weighted>, s: Weighted)
    ensures OwnWeight(c, d, counted + [s]) == Add128(OwnWeight(c, d, counted), Penalty(c, s.block.difficulty))
  {
    assert (counted + [s])[..|counted|] == counted;
    if counted != [] {
      AddTo128(d + Penalties(c, counted), Penalty(c, s.block.difficulty));
    }
  }

  lemma StillBooked(c: Consensus, tip: PoolBlock, cap: nat, a: seq<Weighted>, b: seq<Weighted>, u: PoolBlock, p: nat,
                    q: nat)
    requires UncleBooked(c, tip, cap, a, u, p, q) && a <= b
    ensures UncleBooked(c, tip, cap, b, u, p, q)
  {
    assert b[..p] == a[..p];
  }

  /** Positions for a list of uncles, from the end of `front` to the end of the shares. */
  ghost predicate Placed(c: Consensus, tip: PoolBlock, cap: nat, shares: seq<Weighted>, us: seq<PoolBlock>,
                         places: seq<nat>,
                         start: nat) {
    && |places| == |us| + 1
    && places[0] == start
    && places[|us|] == |shares|
    && forall k :: 0 <= k < |us| ==> UncleBooked(c, tip, cap, shares, us[k], places[k], places[k + 1])
  }

  lemma PlacedOneMore(c: Consensus, tip: PoolBlock, cap: nat, shares: seq<Weighted>, more: seq<Weighted>,
                      us: seq<PoolBlock>,
                      u: PoolBlock, places: seq<nat>, start: nat)
    requires Placed(c, tip, cap, shares, us, places, start) && shares <= more
    requires UncleBooked(c, tip, cap, more, u, |shares|, |more|)
    ensures Placed(c, tip, cap, more, us + [u], places + [|more|], start)
  {
    var us', places' := us + [u], places + [|more|];
    forall k | 0 <= k < |us'| ensures UncleBooked(c, tip, cap, more, us'[k], places'[k], places'[k + 1]) {
      if k < |us| {
        StillBooked(c, tip, cap, shares, more, us[k], places[k], places[k + 1]);
      }
    }
  }

  /** One call of the callback. */
  lemma UncleStep(c: Consensus, tip: PoolBlock, cap: nat, front: seq<Weighted>, d: nat, a: Acc, u: PoolBlock)
    requires Kept(c, front, d, a)
    ensures var r := AddUncle(c, tip, cap, a, u);
      && Kept(c, front, d, r)
      && front + a.shares <= front + r.shares
      && UncleBooked(c, tip, cap, front + r.shares, u, |front + a.shares|, |front + r.shares|)
  {
    var s := Weighted(u, UncleWeight(c, u.difficulty));
    var shares, r := front + a.shares, AddUncle(c, tip, cap, a, u);
    TotalStep(shares, s);
    WeightStep(c, d, a.shares, s);
    assert front + (a.shares + [s]) == shares + [s];
    assert (shares + [s])[..|shares|] == shares == shares[..|shares|];
  }

  lemma {:induction false} UnclesBooked(c: Consensus, tip: PoolBlock, cap: nat, front: seq<Weighted>, d: nat,
                                        us: seq<PoolBlock>)
    returns (places: seq<nat>)
    ensures var a := AddUncles(c, tip, cap, Acc(Before128(front, |front|), d, []), us);
      Kept(c, front, d, a) && Placed(c, tip, cap, front + a.shares, us, places, |front|)
  {
    if us == [] {
      assert front + [] == front;
      places := [|front|];
    } else {
      var n, u := |us| - 1, us[|us| - 1];
      var before := UnclesBooked(c, tip, cap, front, d, us[..n]);
      var a := AddUncles(c, tip, cap, Acc(Before128(front, |front|), d, []), us[..n]);
      var r := AddUncle(c, tip, cap, a, u);
      UncleStep(c, tip, cap, front, d, a, u);
      PlacedOneMore(c, tip, cap, front + a.shares, front + r.shares, us[..n], u, before, |front|);
      assert us == us[..n] + [u];
      places := before + [|front + r.shares|];
    }
  }

  // ---------------------------------------------------------------- the walk

  lemma OwnBooked(c: Consensus, tip: PoolBlock, cap: nat, front: seq<Weighted>, cur: PoolBlock, us: seq<PoolBlock>,
                  a: Acc,
                  places: seq<nat>)
    requires Kept(c, front, cur.difficulty, a) && Placed(c, tip, cap, front + a.shares, us, places, |front|)
    ensures var all := front + a.shares + [Weighted(cur, a.weight)];
      && EntryBooked(c, tip, cap, all, Entry(cur, us, places))
      && Own(Entry(cur, us, places)) + 1 == |all|
      && Add128(a.total, a.weight) == Before128(all, |all|)
  {
    var shares, own := front + a.shares, Weighted(cur, a.weight);
    var all := shares + [own];
    forall k | 0 <= k < |us| ensures UncleBooked(c, tip, cap, all, us[k], places[k], places[k + 1]) {
      StillBooked(c, tip, cap, shares, all, us[k], places[k], places[k + 1]);
    }
    assert all[|front|..|shares|] == a.shares;
    TotalStep(shares, own);
  }

  lemma EntryKept(c: Consensus, tip: PoolBlock, cap: nat, a: seq<Weighted>, b: seq<Weighted>, e: Entry)
    requires EntryBooked(c, tip, cap, a, e) && a <= b
    ensures EntryBooked(c, tip, cap, b, e) && Before128(b, Own(e) + 1) == Before128(a, Own(e) + 1)
  {
    forall k | 0 <= k < |e.uncles| ensures UncleBooked(c, tip, cap, b, e.uncles[k], e.places[k], e.places[k + 1]) {
      StillBooked(c, tip, cap, a, b, e.uncles[k], e.places[k], e.places[k + 1]);
    }
    assert b[e.places[0]..Own(e)] == a[e.places[0]..Own(e)];
    assert b[..Own(e) + 1] == a[..Own(e) + 1];
  }

  /** The entry of the current block, and whether the walk ends there. */
  lemma HereBooked(st: Store, c: Consensus, tip: PoolBlock, cap: nat, front: seq<Weighted>, cur: PoolBlock,
                   depth: nat, total: nat)
    returns (e: Entry, here: seq<Weighted>, next: nat)
    requires UnclesFound(st, cur) && total == Before128(front, |front|)
    ensures IsHere(st, c, tip, cap, cur, total, here, next)
    ensures Accounts(st, c, tip, cap, front + here, cur, |front|, e) && Own(e) + 1 == |front + here|
    ensures next == Before128(front + here, |front + here|)
  {
    var us := IteratedUncles(st, cur);
    var a := AddUncles(c, tip, cap, Acc(total, cur.difficulty, []), us);
    var places := UnclesBooked(c, tip, cap, front, cur.difficulty, us);
    OwnBooked(c, tip, cap, front, cur, us, a, places);
    e, here, next := Entry(cur, us, places), a.shares + [Weighted(cur, a.weight)], Add128(a.total, a.weight);
    assert front + here == front + a.shares + [Weighted(cur, a.weight)];
  }

  /** What the walk gives out for one block, and the total after it. */
  ghost predicate IsHere(st: Store, c: Consensus, tip: PoolBlock, cap: nat, cur: PoolBlock, total: nat,
                         here: seq<Weighted>,
                         next: nat) {
    var a := AddUncles(c, tip, cap, Acc(total, cur.difficulty, []), IteratedUncles(st, cur));
    here == a.shares + [Weighted(cur, a.weight)] && next == Add128(a.total, a.weight)
  }

  lemma AccountsKept(st: Store, c: Consensus, tip: PoolBlock, cap: nat, a: seq<Weighted>, b: seq<Weighted>,
                     cur: PoolBlock,
                     depth: nat, start: nat, e: Entry)
    requires Accounts(st, c, tip, cap, a, cur, start, e) && a <= b
    ensures Accounts(st, c, tip, cap, b, cur, start, e)
    ensures EndsHere(c, cap, b, e, depth) == EndsHere(c, cap, a, e, depth)
  {
    EntryKept(c, tip, cap, a, b, e);
  }

  lemma WalkCases(st: Store, c: Consensus, tip: PoolBlock, cap: nat, front: seq<Weighted>, cur: PoolBlock, depth: nat,
                  total: nat, w: Walked, here: seq<Weighted>, next: nat, ends: bool)
    returns (rest: Walked)
    requires Walk(st, c, tip, cap, cur, depth, total) == Some(w) && IsHere(st, c, tip, cap, cur, total, here, next)
    requires ends == (next > cap || depth + 1 >= c.chainWindowSize || cur.height == 0)
    ensures if ends then front + w.shares == front + here
      else
        && depth + 1 < c.chainWindowSize
        && GetParent(st, cur).Some?
        && Walk(st, c, tip, cap, GetParent(st, cur).value, depth + 1, next) == Some(rest)
        && front + w.shares == front + here + rest.shares
  {
    rest := w;
    if !ends {
      rest := Walk(st, c, tip, cap, GetParent(st, cur).value, depth + 1, next).value;
      assert front + (here + rest.shares) == front + here + rest.shares;
    }
  }

  lemma EndsIff(c: Consensus, cap: nat, all: seq<Weighted>, e: Entry, depth: nat, next: nat)
    requires e.places != [] && Own(e) + 1 == |all| && next == Before128(all, |all|)
    ensures EndsHere(c, cap, all, e, depth) <==> next > cap || depth + 1 >= c.chainWindowSize || e.block.height == 0
  {
  }

  /** One step of the walk: it ends here, or goes on from the parent with what was given out so far. */
  lemma StepBooked(st: Store, c: Consensus, tip: PoolBlock, cap: nat, front: seq<Weighted>, cur: PoolBlock,
                   depth: nat, total: nat)
    returns (e: Entry, here: seq<Weighted>, next: nat)
    requires UnclesFound(st, cur) && total == Before128(front, |front|)
    ensures IsHere(st, c, tip, cap, cur, total, here, next)
    ensures Accounts(st, c, tip, cap, front + here, cur, |front|, e) && Own(e) + 1 == |front + here|
    ensures next == Before128(front + here, |front + here|)
    ensures EndsHere(c, cap, front + here, e, depth) <==>
      next > cap || depth + 1 >= c.chainWindowSize || cur.height == 0
  {
    e, here, next := HereBooked(st, c, tip, cap, front, cur, depth, total);
    EndsIff(c, cap, front + here, e, depth, next);
  }

  /** ... and the shares that are still to come. */
  lemma StepWalked(st: Store, c: Consensus, tip: PoolBlock, cap: nat, front: seq<Weighted>, cur: PoolBlock,
                   depth: nat, total: nat, w: Walked)
    returns (e: Entry, all: seq<Weighted>, next: nat, rest: Walked, ends: bool)
    requires total == Before128(front, |front|) && Walk(st, c, tip, cap, cur, depth, total) == Some(w)
    ensures Accounts(st, c, tip, cap, all, cur, |front|, e) && Own(e) + 1 == |all| && next == Before128(all, |all|)
    ensures ends == EndsHere(c, cap, all, e, depth)
    ensures if ends then front + w.shares == all
      else
        && depth + 1 < c.chainWindowSize
        && GetParent(st, cur).Some?
        && Walk(st, c, tip, cap, GetParent(st, cur).value, depth + 1, next) == Some(rest)
        && front + w.shares == all + rest.shares
  {
    var here;
    e, here, next := StepBooked(st, c, tip, cap, front, cur, depth, total);
    all, ends := front + here, next > cap || depth + 1 >= c.chainWindowSize || cur.height == 0;
    rest := WalkCases(st, c, tip, cap, front, cur, depth, total, w, here, next, ends);
  }

  lemma BookedOn(st: Store, c: Consensus, tip: PoolBlock, cap: nat, all: seq<Weighted>, rest: seq<Weighted>,
                 cur: PoolBlock, depth: nat, start: nat, e: Entry, p: PoolBlock, more: seq<Entry>)
    requires Accounts(st, c, tip, cap, all, cur, start, e) && !EndsHere(c, cap, all, e, depth)
    requires GetParent(st, cur) == Some(p) && Booked(st, c, tip, cap, all + rest, p, depth + 1, Own(e) + 1, more)
    ensures Booked(st, c, tip, cap, all + rest, cur, depth, start, [e] + more)
  {
    AccountsKept(st, c, tip, cap, all, all + rest, cur, depth, start, e);
    BookedFirst(st, c, tip, cap, all + rest, cur, depth, start, e, p, more);
  }

  lemma {:induction false} WalkBooked(st: Store, c: Consensus, tip: PoolBlock, cap: nat, front: seq<Weighted>,
                                      cur: PoolBlock, depth: nat, total: nat, w: Walked)
    returns (entries: seq<Entry>)
    requires total == Before128(front, |front|) && Walk(st, c, tip, cap, cur, depth, total) == Some(w)
    ensures Booked(st, c, tip, cap, front + w.shares, cur, depth, |front|, entries)
    decreases c.chainWindowSize - depth
  {
    var e, all, next, rest, ends := StepWalked(st, c, tip, cap, front, cur, depth, total, w);
    if ends {
      BookedOne(st, c, tip, cap, all, cur, depth, |front|, e);
      entries := [e];
    } else {
      var p := GetParent(st, cur).value;
      var more := WalkBooked(st, c, tip, cap, all, p, depth + 1, next, rest);
      BookedOn(st, c, tip, cap, all, rest.shares, cur, depth, |front|, e, p, more);
      entries := [e] + more;
    }
  }

  /** The Monero difficulty at the seed height of the block, the greatest multiple of 2048 that lies at least
      65 below its height. */
  ghost predicate SeedHeightOf(height: nat, h: nat) {
    if height <= 2112 then h == 0 else h % 2048 == 0 && h + 65 <= height < h + 65 + 2048
  }

  lemma SeedHeightMeaning(height: nat)
    ensures SeedHeightOf(height, SeedHeight(height))
  {
  }

  /** Every payout window, share by share. From version 2 on the cap is twice the Monero difficulty, before
      there is none. */
  lemma WindowMeaning(st: Store, c: Consensus, tip: PoolBlock, difficultyByHeight: nat -> nat, h: nat, cap: nat,
                      w: Walked)
    returns (entries: seq<Entry>)
    requires PplnsWindow(st, c, tip, difficultyByHeight) == Some(w) && SeedHeightOf(tip.genHeight, h)
    requires cap == if tip.version <= 1 then TWO128 - 1
                    else if tip.parent == ZERO_HASH then 0 else 2 * difficultyByHeight(h) % TWO128
    ensures Booked(st, c, tip, cap, w.shares, tip, 0, 0, entries)
    ensures tip.parent != ZERO_HASH ==> difficultyByHeight(h) != 0
  {
    assert h == SeedHeight(tip.genHeight);
    entries := WalkBooked(st, c, tip, cap, [], tip, 0, 0, w);
    assert [] + w.shares == w.shares;
  }

  /** A window is found exactly if the difficulty is known and no block is missing. */
  lemma {:induction false} WalkSucceeds(st: Store, c: Consensus, v: set<PoolBlock>, tip: PoolBlock, cap: nat,
                                        cur: PoolBlock,
                                        depth: nat, total: nat)
    requires cur in v && forall b :: b in v ==>
      UnclesFound(st, b) && (b.height > 0 ==> GetParent(st, b).Some? && GetParent(st, b).value in v)
    ensures Walk(st, c, tip, cap, cur, depth, total).Some?
    decreases c.chainWindowSize - depth
  {
    if depth + 1 < c.chainWindowSize && cur.height > 0 {
      var a := AddUncles(c, tip, cap, Acc(total, cur.difficulty, []), IteratedUncles(st, cur));
      WalkSucceeds(st, c, v, tip, cap, GetParent(st, cur).value, depth + 1, Add128(a.total, a.weight));
    }
  }

  lemma WindowSucceeds(st: Store, c: Consensus, v: set<PoolBlock>, tip: PoolBlock, difficultyByHeight: nat -> nat,
                       h: nat)
    requires tip in v && SeedHeightOf(tip.genHeight, h) && forall b :: b in v ==>
      UnclesFound(st, b) && (b.height > 0 ==> GetParent(st, b).Some? && GetParent(st, b).value in v)
    ensures PplnsWindow(st, c, tip, difficultyByHeight).Some? <==> tip.parent == ZERO_HASH || difficultyByHeight(h) != 0
  {
    assert h == SeedHeight(tip.genHeight);
    WalkSucceeds(st, c, v, tip, Cap(tip, MainDifficulty(tip, difficultyByHeight)), tip, 0, 0);
  }

  // ---------------------------------------------------------------- entry by entry

  /** What holds of each entry, without following the walk. */
  lemma {:induction false} EachBooked(st: Store, c: Consensus, tip: PoolBlock, cap: nat, shares: seq<Weighted>,
                                      cur: PoolBlock,
                                      depth: nat, start: nat, entries: seq<Entry>, k: nat)
    requires Booked(st, c, tip, cap, shares, cur, depth, start, entries) && k < |entries|
    ensures EntryBooked(c, tip, cap, shares, entries[k]) && entries[k].uncles == IteratedUncles(st, entries[k].block)
    ensures k + 1 == |entries| <==> EndsHere(c, cap, shares, entries[k], depth + k)
    ensures k + 1 < |entries| ==> GetParent(st, entries[k].block) == Some(entries[k + 1].block)
    decreases |entries|
  {
    if k > 0 {
      EachBooked(st, c, tip, cap, shares, entries[1].block, depth + 1, Own(entries[0]) + 1, entries[1..], k - 1);
    }
  }
}
