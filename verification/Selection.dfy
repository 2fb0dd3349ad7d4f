/** Quickselect (utils/nthelement.go) and the order statistics it delivers. */
module Selection {
  import opened Permutations

  ghost function Count(s: seq<nat>, p: nat -> bool): nat {
    if s == [] then 0 else (if p(s[0]) then 1 else 0) + Count(s[1..], p)
  }

  ghost predicate Ascending(s: seq<nat>) {
    forall i, j :: 0 <= i < j < |s| ==> s[i] <= s[j]
  }

  /** Position k holds a value that nothing before it exceeds and nothing after it undercuts. */
  ghost predicate SplitAt(s: seq<nat>, k: nat)
    requires k < |s|
  {
    (forall i :: 0 <= i < k ==> s[i] <= s[k]) && (forall i :: k < i < |s| ==> s[k] <= s[i])
  }

  ghost predicate Below(x: nat, s: seq<nat>) {
    forall i :: 0 <= i < |s| ==> x <= s[i]
  }

  lemma BelowPermutation(x: nat, s: seq<nat>, t: seq<nat>)
    requires Below(x, s) && multiset(s) == multiset(t)
    ensures Below(x, t)
  {
    forall i | 0 <= i < |t| ensures x <= t[i] {
      assert t[i] in multiset(s);
    }
  }

  function Insert(x: nat, s: seq<nat>): (r: seq<nat>)
    ensures |r| == |s| + 1
  {
    if s == [] || x <= s[0] then [x] + s else [s[0]] + Insert(x, s[1..])
  }

  /** The reference: an insertion sort. */
  function Sorted(s: seq<nat>): (r: seq<nat>)
    ensures |r| == |s|
  {
    if s == [] then [] else Insert(s[0], Sorted(s[1..]))
  }

  lemma PrependKeepsOrder(x: nat, s: seq<nat>)
    requires Below(x, s) && Ascending(s)
    ensures Ascending([x] + s)
  {
  }

  lemma {:induction false} InsertKeepsOrder(x: nat, s: seq<nat>)
    requires Ascending(s)
    ensures Ascending(Insert(x, s)) && multiset(Insert(x, s)) == multiset{x} + multiset(s)
  {
    if s != [] && s[0] < x {
      assert s == [s[0]] + s[1..];
      InsertKeepsOrder(x, s[1..]);
      BelowPermutation(s[0], [x] + s[1..], Insert(x, s[1..]));
      PrependKeepsOrder(s[0], Insert(x, s[1..]));
    } else {
      PrependKeepsOrder(x, s);
    }
  }

  lemma {:induction false} SortedIsSorted(s: seq<nat>)
    ensures Ascending(Sorted(s)) && multiset(Sorted(s)) == multiset(s)
  {
    if s != [] {
      assert s == [s[0]] + s[1..];
      SortedIsSorted(s[1..]);
      InsertKeepsOrder(s[0], Sorted(s[1..]));
    }
  }

  lemma {:induction false} CountSplit(s: seq<nat>, t: seq<nat>, p: nat -> bool)
    ensures Count(s + t, p) == Count(s, p) + Count(t, p)
  {
    if s == [] {
      assert s + t == t;
    } else {
      assert (s + t)[1..] == s[1..] + t;
      CountSplit(s[1..], t, p);
    }
  }

  lemma {:induction false} CountPermutation(s: seq<nat>, t: seq<nat>, p: nat -> bool)
    requires multiset(s) == multiset(t)
    ensures Count(s, p) == Count(t, p)
    decreases |s|
  {
    if s == [] {
      assert |multiset(t)| == 0;
    } else {
      var i, rest := Extract(s, t);
      CountSplit([s[0]], s[1..], p);
      CountSplit(t[..i], [s[0]] + t[i + 1..], p);
      CountSplit([s[0]], t[i + 1..], p);
      CountSplit(t[..i], t[i + 1..], p);
      CountPermutation(s[1..], rest, p);
    }
  }

  lemma {:induction false} CountBounds(s: seq<nat>, p: nat -> bool)
    ensures Count(s, p) <= |s|
    ensures (forall i :: 0 <= i < |s| ==> p(s[i])) ==> Count(s, p) == |s|
    ensures (forall i :: 0 <= i < |s| ==> !p(s[i])) ==> Count(s, p) == 0
  {
    if s != [] {
      CountBounds(s[1..], p);
      assert forall i :: 0 <= i < |s[1..]| ==> s[1..][i] == s[i + 1];
    }
  }

  lemma CountMonotone(s: seq<nat>, p: nat -> bool, q: nat -> bool)
    requires forall x :: p(x) ==> q(x)
    ensures Count(s, p) <= Count(s, q)
  {
  }

  /** At most k entries are below the value at a split position k... */
  lemma FewBelow(s: seq<nat>, k: nat, below: nat -> bool)
    requires k < |s| && SplitAt(s, k) && forall x :: below(x) <==> x < s[k]
    ensures Count(s, below) <= k
  {
    assert s == s[..k] + s[k..];
    CountSplit(s[..k], s[k..], below);
    CountBounds(s[..k], below);
    CountBounds(s[k..], below);
  }

  /** ... and more than k are not above it. */
  lemma ManyNotAbove(s: seq<nat>, k: nat, notAbove: nat -> bool)
    requires k < |s| && SplitAt(s, k) && forall x :: notAbove(x) <==> x <= s[k]
    ensures k < Count(s, notAbove)
  {
    assert s == s[..k + 1] + s[k + 1..];
    CountSplit(s[..k + 1], s[k + 1..], notAbove);
    CountBounds(s[..k + 1], notAbove);
  }

  lemma SplitCounts(s: seq<nat>, k: nat)
    requires k < |s| && SplitAt(s, k)
    ensures Count(s, x => x < s[k]) <= k < Count(s, x => x <= s[k])
  {
    FewBelow(s, k, x => x < s[k]);
    ManyNotAbove(s, k, x => x <= s[k]);
  }

  /** Whatever order a split array has, position k holds the k-th order statistic. */
  lemma SplitIsOrderStatistic(s: seq<nat>, t: seq<nat>, k: nat)
    requires k < |s| && multiset(s) == multiset(t) && |t| == |s|
    requires SplitAt(s, k)
    ensures s[k] == Sorted(t)[k]
  {
    var r := Sorted(t);
    SortedIsSorted(t);
    SplitCounts(s, k);
    SplitCounts(r, k);
    var a, b := s[k], r[k];
    CountPermutation(s, r, x => x < a);
    CountPermutation(s, r, x => x <= a);
    CountPermutation(s, r, x => x < b);
    CountPermutation(s, r, x => x <= b);
    if a < b {
      CountMonotone(s, x => x <= a, x => x < b);
    } else if b < a {
      CountMonotone(s, x => x <= b, x => x < a);
    }
  }

  lemma SortedPermutation(s: seq<nat>, t: seq<nat>)
    requires multiset(s) == multiset(t)
    ensures Sorted(s) == Sorted(t)
  {
    assert |multiset(s)| == |multiset(t)|;
    SortedIsSorted(s);
    forall k | 0 <= k < |s| ensures Sorted(s)[k] == Sorted(t)[k] {
      SplitIsOrderStatistic(Sorted(s), t, k);
    }
  }

  method Swap(s: array<nat>, i: nat, j: nat)
    requires i < s.Length && j < s.Length
    modifies s
    ensures s[i] == old(s[j]) && s[j] == old(s[i])
    ensures forall k :: 0 <= k < s.Length && k != i && k != j ==> s[k] == old(s[k])
    ensures multiset(s[..]) == old(multiset(s[..]))
  {
    s[i], s[j] := s[j], s[i];
  }

  /** `partition`: Lomuto's scheme, pivot moved to the end and back. lo and hi bound the range. */
  method Partition(s: array<nat>, pivot: nat, left: nat, right: nat, ghost lo: nat, ghost hi: nat)
    returns (store: nat)
    requires left <= pivot <= right < s.Length
    requires forall i :: left <= i <= right ==> lo <= s[i] <= hi
    modifies s
    ensures left <= store <= right
    ensures forall i :: left <= i < store ==> s[i] < s[store]
    ensures forall i :: store < i <= right ==> s[store] <= s[i]
    ensures forall i :: left <= i <= right ==> lo <= s[i] <= hi
    ensures forall i :: 0 <= i < s.Length && !(left <= i <= right) ==> s[i] == old(s[i])
    ensures multiset(s[..]) == old(multiset(s[..]))
  {
    Swap(s, pivot, right);
    store := left;
    for i := left to right
      invariant left <= store <= i
      invariant forall j :: left <= j < store ==> s[j] < s[right]
      invariant forall j :: store <= j < i ==> s[right] <= s[j]
      invariant forall j :: left <= j <= right ==> lo <= s[j] <= hi
      invariant forall j :: 0 <= j < s.Length && !(left <= j <= right) ==> s[j] == old(s[j])
      invariant multiset(s[..]) == old(multiset(s[..]))
    {
      if s[i] < s[right] {
        Swap(s, store, i);
        store := store + 1;
      }
    }
    Swap(s, right, store);
  }

  ghost function Max(s: seq<nat>): (m: nat)
    ensures forall i :: 0 <= i < |s| ==> s[i] <= m
  {
    if s == [] then 0
    else
      var m := Max(s[1..]);
      assert forall i :: 1 <= i < |s| ==> s[i] == s[1..][i - 1];
      if s[0] <= m then m else s[0]
  }

  /** `NthElementSlice`. */
  method NthElement(s: array<nat>, k: nat)
    requires k < s.Length
    modifies s
    ensures multiset(s[..]) == old(multiset(s[..]))
    ensures SplitAt(s[..], k)
    ensures s[k] == Sorted(old(s[..]))[k]
  {
    var left, right := 0, s.Length - 1;
    ghost var lo, hi := 0, Max(s[..]);
    assert forall i :: 0 <= i < s.Length ==> s[i] == s[..][i];
    while left != right
      invariant 0 <= left <= k <= right < s.Length
      invariant forall i :: left <= i <= right ==> lo <= s[i] <= hi
      invariant forall i :: 0 <= i < left ==> s[i] <= lo
      invariant forall i :: right < i < s.Length ==> hi <= s[i]
      invariant multiset(s[..]) == old(multiset(s[..]))
      decreases right - left
    {
      var pivot := Partition(s, (left + right) / 2, left, right, lo, hi);
      if k == pivot {
        break;
      } else if k < pivot {
        right, hi := pivot - 1, s[pivot];
      } else {
        left, lo := pivot + 1, s[pivot];
      }
    }
    SplitIsOrderStatistic(s[..], old(s[..]), k);
  }
}
