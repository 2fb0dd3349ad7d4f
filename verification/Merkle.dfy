/** The tree hash over the transactions of a block and its branch for the first leaf
    (monero/crypto/merkle.go). The hash of two concatenated hashes is a parameter. */
module Merkle {
  import opened Blocks

  type Hasher = (Hash, Hash) -> Hash

  // ---------------------------------------------------------------- powers of two

  function Pow2(n: nat): (p: nat)
    ensures p >= 1
  {
    if n == 0 then 1 else 2 * Pow2(n - 1)
  }

  function BitLength(x: nat): nat {
    if x == 0 then 0 else 1 + BitLength(x / 2)
  }

  function LeadingZeros64(x: nat): int { 64 - BitLength(x) }

  lemma {:induction false} BitLengthBounds(x: nat)
    requires x > 0
    ensures BitLength(x) >= 1 && Pow2(BitLength(x) - 1) <= x < 2 * Pow2(BitLength(x) - 1)
  {
    if x > 1 {
      BitLengthBounds(x / 2);
    }
  }

  /** `PreviousPowerOfTwo`. */
  function PreviousPowerOfTwo(x: nat): (r: nat)
    ensures x > 0 ==> r <= x < 2 * r && exists n :: r == Pow2(n)
  {
    if x == 0 then 0
    else
      BitLengthBounds(x);
      Pow2(64 - LeadingZeros64(x) - 1)
  }

  // ---------------------------------------------------------------- the reference

  /** The root over a full row, halves first. */
  function Perfect(h: Hasher, row: seq<Hash>): Hash
    requires row != []
  {
    if |row| == 1 then row[0]
    else h(Perfect(h, row[..|row| / 2]), Perfect(h, row[|row| / 2..]))
  }

  function Pairs(h: Hasher, row: seq<Hash>): (r: seq<Hash>)
    requires |row| % 2 == 0
    ensures |r| == |row| / 2 && forall i :: 0 <= i < |r| ==> r[i] == h(row[2 * i], row[2 * i + 1])
  {
    seq(|row| / 2, i requires 0 <= i < |row| / 2 => h(row[2 * i], row[2 * i + 1]))
  }

  /** As many leaves as needed are paired so that a power of two remain. */
  function FirstRow(h: Hasher, leaves: seq<Hash>): (r: seq<Hash>)
    requires leaves != []
    ensures |r| == PreviousPowerOfTwo(|leaves|) && r[0] == leaves[0]
  {
    var count := PreviousPowerOfTwo(|leaves|);
    var offset := 2 * count - |leaves|;
    assert |leaves[offset..]| == 2 * (|leaves| - count);
    leaves[..offset] + Pairs(h, leaves[offset..])
  }

  /** The tree hash. */
  function Root(h: Hasher, leaves: seq<Hash>): Hash
    requires leaves != []
  {
    Perfect(h, FirstRow(h, leaves))
  }

  // ---------------------------------------------------------------- level by level

  lemma PerfectSplits(h: Hasher, left: seq<Hash>, right: seq<Hash>)
    requires left != [] && |left| == |right|
    ensures Perfect(h, left + right) == h(Perfect(h, left), Perfect(h, right))
  {
    var row := left + right;
    assert row[..|row| / 2] == left && row[|row| / 2..] == right;
  }

  lemma PairsAppend(h: Hasher, left: seq<Hash>, right: seq<Hash>)
    requires |left| % 2 == 0 && |right| % 2 == 0
    ensures Pairs(h, left + right) == Pairs(h, left) + Pairs(h, right)
  {
  }

  lemma PairOf(h: Hasher, row: seq<Hash>)
    requires |row| == 2
    ensures Perfect(h, row) == h(row[0], row[1]) && Pairs(h, row) == [h(row[0], row[1])]
  {
    assert row == [row[0]] + [row[1]];
    PerfectSplits(h, [row[0]], [row[1]]);
  }

  lemma JoinRoots(h: Hasher, left: seq<Hash>, right: seq<Hash>)
    requires |left| == |right| && |left| % 2 == 0 && left != []
    requires Perfect(h, Pairs(h, left)) == Perfect(h, left) && Perfect(h, Pairs(h, right)) == Perfect(h, right)
    ensures Perfect(h, Pairs(h, left + right)) == Perfect(h, left + right)
  {
    PairsAppend(h, left, right);
    PerfectSplits(h, left, right);
    PerfectSplits(h, Pairs(h, left), Pairs(h, right));
  }

  /** Hashing neighbours first gives the same root as hashing halves last. */
  lemma {:induction false} PairsKeepRoot(h: Hasher, left: seq<Hash>, right: seq<Hash>, n: nat)
    requires |left| == |right| == Pow2(n)
    ensures Perfect(h, Pairs(h, left + right)) == Perfect(h, left + right)
    decreases n
  {
    if n == 0 {
      PairOf(h, left + right);
    } else {
      PairsKeepHalf(h, left, n);
      PairsKeepHalf(h, right, n);
      JoinRoots(h, left, right);
    }
  }

  lemma PairsKeepHalf(h: Hasher, half: seq<Hash>, n: nat)
    requires n > 0 && |half| == Pow2(n)
    ensures |half| % 2 == 0 && half != [] && Perfect(h, Pairs(h, half)) == Perfect(h, half)
    decreases n, 0
  {
    var quarter := Pow2(n - 1);
    assert |half| == 2 * quarter && half == half[..quarter] + half[quarter..];
    PairsKeepRoot(h, half[..quarter], half[quarter..], n - 1);
  }

  /** `leafHash`: one leaf as it is, or the hash of the first two. */
  function LeafHash(h: Hasher, t: seq<Hash>): Hash
    requires t != []
  {
    if |t| == 1 then t[0] else h(t[0], t[1])
  }

  /** The first row, filled in place. */
  method FillFirstRow(h: Hasher, t: seq<Hash>) returns (tree: array<Hash>)
    requires |t| > 2
    ensures fresh(tree) && tree[..] == FirstRow(h, t)
  {
    var count := PreviousPowerOfTwo(|t|);
    var offset := count * 2 - |t|;
    tree := new Hash[count];
    forall i | 0 <= i < offset {
      tree[i] := t[i];
    }
    for i := 0 to count - offset
      invariant tree[..offset] == t[..offset]
      invariant forall j :: 0 <= j < i ==> tree[offset + j] == h(t[offset + 2 * j], t[offset + 2 * j + 1])
    {
      tree[offset + i] := LeafHash(h, t[offset + i * 2..]);
    }
    assert tree[..] == FirstRow(h, t);
  }

  /** One level: the first `count` entries become the hashes of neighbours. */
  method FoldLevel(h: Hasher, tree: array<Hash>, count: nat)
    requires 2 * count <= tree.Length
    modifies tree
    ensures tree[..count] == Pairs(h, old(tree[..2 * count]))
  {
    ghost var row := tree[..2 * count];
    for i := 0 to count
      invariant forall j :: 0 <= j < i ==> tree[j] == h(row[2 * j], row[2 * j + 1])
      invariant forall j :: 2 * i <= j < 2 * count ==> tree[j] == row[j]
    {
      tree[i] := LeafHash(h, tree[i * 2..]);
    }
  }

  /** The first 2 * count entries make up a full row with the given root. */
  ghost predicate Row(h: Hasher, tree: seq<Hash>, count: nat, root: Hash) {
    && 1 <= count
    && 2 * count <= |tree|
    && (exists n: nat :: count == Pow2(n))
    && Perfect(h, tree[..2 * count]) == root
  }

  lemma LevelDown(h: Hasher, tree: seq<Hash>, tree': seq<Hash>, count: nat, root: Hash)
    requires Row(h, tree, count, root) && count > 1 && |tree'| == |tree|
      && tree'[..count] == Pairs(h, tree[..2 * count])
    ensures count % 2 == 0 && Row(h, tree', count / 2, root)
  {
    var n: nat :| count == Pow2(n);
    assert n > 0 && count / 2 == Pow2(n - 1);
    assert tree[..2 * count] == tree[..count] + tree[count..2 * count];
    PairsKeepRoot(h, tree[..count], tree[count..2 * count], n);
  }

  lemma LastLevel(h: Hasher, tree: seq<Hash>, root: Hash)
    requires Row(h, tree, 1, root)
    ensures h(tree[0], tree[1]) == root
  {
    PairOf(h, tree[..2]);
  }

  lemma FirstLevel(h: Hasher, t: seq<Hash>)
    requires |t| > 2
    ensures var row := FirstRow(h, t); |row| >= 2 && Row(h, row, |row| / 2, Root(h, t))
  {
    var row := FirstRow(h, t);
    var n: nat :| |row| == Pow2(n);
    assert n > 0 && |row| / 2 == Pow2(n - 1);
    assert row[..2 * (|row| / 2)] == row;
  }

  lemma SmallRoot(h: Hasher, t: seq<Hash>)
    requires 1 <= |t| <= 2
    ensures Root(h, t) == LeafHash(h, t)
  {
    assert PreviousPowerOfTwo(|t|) == |t| by {
      var n: nat :| PreviousPowerOfTwo(|t|) == Pow2(n);
      assert |t| == 2 ==> PreviousPowerOfTwo(|t|) == 2;
    }
    assert FirstRow(h, t) == t;
    if |t| == 2 {
      PairOf(h, t);
    }
  }

  /** `RootHash`. No leaves panic. */
  method RootHash(h: Hasher, t: seq<Hash>) returns (root: Hash)
    requires t != []
    ensures root == Root(h, t)
  {
    if |t| <= 2 {
      SmallRoot(h, t);
      return LeafHash(h, t);
    }
    var tree := FillFirstRow(h, t);
    FirstLevel(h, t);
    var count: nat := tree.Length / 2;
    while count > 1
      invariant Row(h, tree[..], count, Root(h, t))
    {
      ghost var before := tree[..];
      FoldLevel(h, tree, count);
      LevelDown(h, before, tree[..], count, Root(h, t));
      count := count / 2;
    }
    LastLevel(h, tree[..], Root(h, t));
    root := LeafHash(h, tree[..]);
  }

  // ---------------------------------------------------------------- the branch of the first leaf

  /** Hashing up from a leaf along a branch. */
  function Climb(h: Hasher, leaf: Hash, branch: seq<Hash>): Hash {
    if branch == [] then leaf else h(Climb(h, leaf, branch[..|branch| - 1]), branch[|branch| - 1])
  }

  /** `MainBranch`: nothing for two leaves or fewer. The first leaf is always copied, never paired, so
      the case that would append the second one does not arise. */
  method MainBranch(h: Hasher, t: seq<Hash>) returns (branch: seq<Hash>)
    ensures |t| <= 2 ==> branch == []
    ensures |t| > 2 ==> Climb(h, t[0], branch) == Root(h, t)
  {
    branch := [];
    if |t| <= 2 {
      return;
    }
    var tree := FillFirstRow(h, t);
    FirstLevel(h, t);
    var count: nat := tree.Length / 2;
    while count > 1
      invariant Row(h, tree[..], count, Root(h, t)) && tree[0] == Climb(h, t[0], branch)
    {
      ghost var before := tree[..];
      branch := branch + [tree[1]];
      FoldLevel(h, tree, count);
      assert tree[..count][0] == h(before[0], before[1]);
      LevelDown(h, before, tree[..], count, Root(h, t));
      count := count / 2;
    }
    LastLevel(h, tree[..], Root(h, t));
    branch := branch + [tree[1]];
  }

  // ---------------------------------------------------------------- the root identifies the leaves

  ghost predicate Injective(h: Hasher) {
    forall a, b, c, d :: h(a, b) == h(c, d) ==> a == c && b == d
  }

  lemma {:induction false} PerfectInjective(h: Hasher, a: seq<Hash>, b: seq<Hash>)
    requires Injective(h) && a != [] && |a| == |b| && Perfect(h, a) == Perfect(h, b)
    ensures a == b
  {
    if |a| > 1 {
      var half := |a| / 2;
      PerfectInjective(h, a[..half], b[..half]);
      PerfectInjective(h, a[half..], b[half..]);
      assert a == a[..half] + a[half..] && b == b[..half] + b[half..];
    }
  }

  lemma PairsInjective(h: Hasher, a: seq<Hash>, b: seq<Hash>)
    requires Injective(h) && |a| == |b| && |a| % 2 == 0 && Pairs(h, a) == Pairs(h, b)
    ensures a == b
  {
    forall i | 0 <= i < |a| ensures a[i] == b[i] {
      var k := i / 2;
      assert Pairs(h, a)[k] == h(a[2 * k], a[2 * k + 1]) && Pairs(h, b)[k] == h(b[2 * k], b[2 * k + 1]);
    }
  }

  /** Lists of one length with equal roots are equal. */
  lemma RootInjective(h: Hasher, a: seq<Hash>, b: seq<Hash>)
    requires Injective(h) && a != [] && |a| == |b| && Root(h, a) == Root(h, b)
    ensures a == b
  {
    var count := PreviousPowerOfTwo(|a|);
    var offset := 2 * count - |a|;
    var ra, rb := FirstRow(h, a), FirstRow(h, b);
    PerfectInjective(h, ra, rb);
    SplitPrefix(a[..offset], Pairs(h, a[offset..]), b[..offset], Pairs(h, b[offset..]));
    PairsInjective(h, a[offset..], b[offset..]);
    assert a == a[..offset] + a[offset..] && b == b[..offset] + b[offset..];
  }

  lemma SplitPrefix(a: seq<Hash>, b: seq<Hash>, c: seq<Hash>, d: seq<Hash>)
    requires a + b == c + d && |a| == |c|
    ensures a == c && b == d
  {
    assert a == (a + b)[..|a|] && b == (a + b)[|a|..];
    assert c == (c + d)[..|c|] && d == (c + d)[|c|..];
  }
}
