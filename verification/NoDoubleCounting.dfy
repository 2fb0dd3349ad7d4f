/** Along a chain of fully verified blocks no block is ever counted twice, neither as an ancestor nor
    as an uncle, and the cumulative difficulty is the sum over what is counted. */
module NoDoubleCounting {
  import opened Blocks
  import opened Verification
  import opened ChainState
  import opened ForkChoice

  type Links = map<PoolBlock, IterationCache>

  /** The block n links below, or where the verified chain ends. */
  ghost function Base(links: Links, b: PoolBlock, n: nat): PoolBlock
    decreases n
  {
    if n == 0 || b !in links then b else Base(links, links[b].parent, n - 1)
  }

  /** The blocks and uncles down to the base, the base last. */
  ghost function Counted(links: Links, b: PoolBlock, n: nat): seq<PoolBlock>
    decreases n
  {
    if n == 0 || b !in links then [b] else [b] + links[b].uncles + Counted(links, links[b].parent, n - 1)
  }

  ghost predicate NoneOf(x: PoolBlock, s: seq<PoolBlock>) {
    forall y :: y in s ==> y.id != x.id
  }

  ghost predicate DistinctIds(s: seq<PoolBlock>) {
    forall i, j :: 0 <= i < j < |s| ==> s[i].id != s[j].id
  }

  lemma AppendDistinct(a: seq<PoolBlock>, b: seq<PoolBlock>)
    requires DistinctIds(a) && DistinctIds(b) && forall x :: x in a ==> NoneOf(x, b)
    ensures DistinctIds(a + b)
  {
    forall i, j | 0 <= i < j < |a + b| ensures (a + b)[i].id != (a + b)[j].id {
      if i < |a| <= j {
        assert NoneOf(a[i], b) && b[j - |a|] in b;
      }
    }
  }

  /** Nothing below a block reaches its height. */
  lemma {:induction false} CountedIsBelow(u: set<PoolBlock>, c: Consensus, s: State, b: PoolBlock, n: nat, y: PoolBlock)
    requires Inv(u, c, s) && s.Valid(b) && y in Counted(s.links, b, n)
    ensures y in s.Known() && y.height <= b.height && (y.height == b.height ==> y == b)
    decreases n
  {
    if n > 0 && b in s.links {
      assert LinkOk(s, b);
      var e := s.links[b];
      if y != b && y !in e.uncles {
        CountedIsBelow(u, c, s, e.parent, n - 1, y);
      }
    }
  }

  /** An uncle at height h or more is not counted from a block at height h - 1 or less... */
  lemma HigherIsFresh(u: set<PoolBlock>, c: Consensus, s: State, b: PoolBlock, n: nat, x: PoolBlock)
    requires Inv(u, c, s) && s.Valid(b) && x in s.Known() && x.height > b.height
    ensures NoneOf(x, Counted(s.links, b, n))
  {
    forall y | y in Counted(s.links, b, n) ensures y.id != x.id {
      CountedIsBelow(u, c, s, b, n, y);
      if y.id == x.id {
        SameHeight(u, x, y);
      }
    }
  }

  /** One link further down: nothing at the block, nothing among its uncles, nothing below. */
  lemma FreshStep(s: State, b: PoolBlock, n: nat, x: PoolBlock)
    requires x.id != b.id
    requires n > 0 && b in s.links ==>
      && Ids(s.links[b].uncles) == b.uncles
      && x.id !in b.uncles
      && NoneOf(x, Counted(s.links, s.links[b].parent, n - 1))
    ensures NoneOf(x, Counted(s.links, b, n))
  {
    if n > 0 && b in s.links {
      var us := s.links[b].uncles;
      forall y | y in Counted(s.links, b, n) ensures y.id != x.id {
        if y in us {
          var i :| 0 <= i < |us| && us[i] == y;
          assert Ids(us)[i] == b.uncles[i];
        }
      }
    }
  }

  /** The uncles of a block's fourth ancestor and everything below are lower than its own uncles. */
  lemma FreshBelowThird(u: set<PoolBlock>, c: Consensus, s: State, h: PoolBlock, n: nat, x: PoolBlock)
    requires Inv(u, c, s) && s.Valid(h) && x in s.Known() && x.height >= h.height && x.id != h.id
    ensures NoneOf(x, Counted(s.links, h, n))
  {
    assert LinkOk(s, h);
    if n > 0 && h in s.links {
      var e := s.links[h];
      HigherIsFresh(u, c, s, e.parent, n - 1, x);
      forall y | y in e.uncles ensures y.id != x.id {
        if y.id == x.id {
          SameHeight(u, x, y);
        }
      }
    }
    FreshStep(s, h, n, x);
  }

  /** An uncle of b is not counted anywhere below b. */
  lemma UncleIsFresh(u: set<PoolBlock>, c: Consensus, s: State, b: PoolBlock, n: nat, x: PoolBlock)
    requires Inv(u, c, s) && b in s.links && x in s.links[b].uncles
    ensures NoneOf(x, Counted(s.links, s.links[b].parent, n))
  {
    assert LinkOk(s, b);
    var p := s.links[b].parent;
    UncleIsNamed(s, b, x);
    assert LinkOk(s, p);
    if n > 0 && p in s.links {
      var g := s.links[p].parent;
      assert LinkOk(s, g);
      if n > 1 && g in s.links {
        FreshBelowThird(u, c, s, s.links[g].parent, n - 2, x);
      }
      FreshStep(s, g, n - 1, x);
    }
    FreshStep(s, p, n, x);
  }

  lemma UncleIsNamed(s: State, b: PoolBlock, x: PoolBlock)
    requires LinkOk(s, b) && b in s.links && x in s.links[b].uncles
    ensures x.id in b.uncles && x in s.Known() && UncleHeightOk(b, x)
  {
    var us := s.links[b].uncles;
    var i :| 0 <= i < |us| && us[i] == x;
    assert Ids(us)[i] == x.id;
  }

  lemma {:induction false} AscendingAll(ids: seq<Hash>, i: nat, j: nat)
    requires Ascending(ids) && i < j < |ids|
    ensures ids[i] < ids[j]
  {
    if i + 1 < j {
      AscendingAll(ids, i, j - 1);
    }
  }

  lemma UnclesDistinct(s: State, b: PoolBlock)
    requires LinkOk(s, b) && b in s.links
    ensures DistinctIds(s.links[b].uncles)
  {
    var us := s.links[b].uncles;
    forall i, j | 0 <= i < j < |us| ensures us[i].id != us[j].id {
      assert Ids(us)[i] == b.uncles[i] && Ids(us)[j] == b.uncles[j];
      AscendingAll(b.uncles, i, j);
    }
  }

  /** No block is counted twice. */
  lemma {:induction false} EachCountedOnce(u: set<PoolBlock>, c: Consensus, s: State, b: PoolBlock, n: nat)
    requires Inv(u, c, s) && s.Valid(b)
    ensures DistinctIds(Counted(s.links, b, n))
    decreases n
  {
    if n > 0 && b in s.links {
      assert LinkOk(s, b);
      var e := s.links[b];
      var below := Counted(s.links, e.parent, n - 1);
      EachCountedOnce(u, c, s, e.parent, n - 1);
      UnclesDistinct(s, b);
      forall x | x in e.uncles ensures NoneOf(x, below) {
        UncleIsFresh(u, c, s, b, n - 1, x);
      }
      AppendDistinct(e.uncles, below);
      HigherIsFresh(u, c, s, e.parent, n - 1, b);
      forall x | x in e.uncles ensures x.id != b.id {
        UncleIsNamed(s, b, x);
        if x.id == b.id {
          SameHeight(u, x, b);
        }
      }
      assert NoneOf(b, e.uncles + below);
      AppendDistinct([b], e.uncles + below);
      assert [b] + e.uncles + below == [b] + (e.uncles + below);
    }
  }

  // ---------------------------------------------------------------- difficulty

  ghost function Work(blocks: seq<PoolBlock>): nat {
    if blocks == [] then 0 else blocks[0].difficulty + Work(blocks[1..])
  }

  lemma {:induction false} WorkAppends(a: seq<PoolBlock>, b: seq<PoolBlock>)
    ensures Work(a + b) == Work(a) + Work(b)
  {
    if a == [] {
      assert a + b == b;
    } else {
      assert (a + b)[1..] == a[1..] + b;
      WorkAppends(a[1..], b);
    }
  }

  lemma {:induction false} AddedWork(total: nat, blocks: seq<PoolBlock>)
    ensures AddDifficulties(total, blocks) % TWO128 == (total + Work(blocks)) % TWO128
    decreases |blocks|
  {
    if blocks != [] {
      var n := |blocks| - 1;
      AddedWork(total, blocks[..n]);
      WorkAppends(blocks[..n], [blocks[n]]);
      assert blocks == blocks[..n] + [blocks[n]];
      AddWraps(AddDifficulties(total, blocks[..n]), total + Work(blocks[..n]), blocks[n].difficulty);
    }
  }

  lemma AddWraps(a: nat, b: nat, d: nat)
    requires a % TWO128 == b % TWO128
    ensures Add128(a, d) % TWO128 == (b + d) % TWO128
  {
  }

  ghost function Above(links: Links, b: PoolBlock, n: nat): seq<PoolBlock>
    decreases n
  {
    if n == 0 || b !in links then [] else [b] + links[b].uncles + Above(links, links[b].parent, n - 1)
  }

  lemma {:induction false} CountedSplits(links: Links, b: PoolBlock, n: nat)
    ensures Counted(links, b, n) == Above(links, b, n) + [Base(links, b, n)]
    decreases n
  {
    if n > 0 && b in links {
      CountedSplits(links, links[b].parent, n - 1);
    }
  }

  /** Cumulative difficulty grows by the work of every block and uncle, modulo 2^128. */
  lemma {:induction false} CumulativeIsWork(u: set<PoolBlock>, c: Consensus, s: State, b: PoolBlock, n: nat)
    requires Inv(u, c, s) && s.Valid(b)
    ensures b.cumulative % TWO128 == (Base(s.links, b, n).cumulative + Work(Above(s.links, b, n))) % TWO128
    decreases n
  {
    if n > 0 && b in s.links {
      assert LinkOk(s, b);
      var e := s.links[b];
      var p, rest := e.parent, Above(s.links, e.parent, n - 1);
      CumulativeIsWork(u, c, s, p, n - 1);
      OneLink(p, b, e.uncles, rest, Base(s.links, b, n).cumulative);
    }
  }

  lemma OneLink(p: PoolBlock, b: PoolBlock, us: seq<PoolBlock>, rest: seq<PoolBlock>, below: nat)
    requires p.cumulative % TWO128 == (below + Work(rest)) % TWO128 && b.cumulative == CumulativeAfter(p, b, us)
    ensures b.cumulative % TWO128 == (below + Work([b] + us + rest)) % TWO128
  {
    AddedWork(Add128(p.cumulative, b.difficulty), us);
    WorkAppends([b] + us, rest);
    WorkAppends([b], us);
    assert Work([b]) == b.difficulty;
    SumWraps(p.cumulative, b.difficulty, Work(us), below + Work(rest));
  }

  lemma SumWraps(p: nat, d: nat, us: nat, below: nat)
    requires p % TWO128 == below % TWO128
    ensures (Add128(p, d) + us) % TWO128 == (below + d + us) % TWO128
  {
  }

  /** The two together: the difficulty of a verified block is that of its base plus the work of
      distinct blocks, exactly if nothing wrapped. */
  lemma WorkIsCountedOnce(u: set<PoolBlock>, c: Consensus, s: State, b: PoolBlock, n: nat)
    requires Inv(u, c, s) && s.Valid(b)
    ensures var base, above := Base(s.links, b, n), Above(s.links, b, n);
      && DistinctIds(above + [base])
      && b.cumulative % TWO128 == (base.cumulative + Work(above)) % TWO128
      && (b.cumulative < TWO128 && base.cumulative + Work(above) < TWO128 ==>
        b.cumulative == base.cumulative + Work(above))
  {
    EachCountedOnce(u, c, s, b, n);
    CountedSplits(s.links, b, n);
    CumulativeIsWork(u, c, s, b, n);
  }
}
