/** The difficulty the next block needs (p2pool/sidechain/utils.go, GetDifficultyForNextBlock and
    NextDifficulty): collect the chain window, discard outliers by timestamp with quickselect,
    and scale the difficulty gathered in what remains. */
module Retarget {
  import opened Blocks
  import opened Permutations
  import opened Selection

  datatype DifficultyData = DifficultyData(cumulative: nat, timestamp: nat)

  /** `Missing` is the verification error of a walk that left the store, `Overflow` the invalid
      error of 128-bit arithmetic that panicked. */
  datatype Result = Difficulty(value: nat) | Missing | Overflow

  function Timestamps(data: seq<DifficultyData>): (r: seq<nat>)
    ensures |r| == |data|
    ensures forall i :: 0 <= i < |data| ==> r[i] == data[i].timestamp
  {
    seq(|data|, i requires 0 <= i < |data| => data[i].timestamp)
  }

  predicate Within(d: DifficultyData, lower: nat, upper: nat) {
    lower <= d.timestamp <= upper
  }

  /** Least cumulative difficulty in the timestamp range, the 128-bit maximum if there is none. */
  function Lowest(data: seq<DifficultyData>, lower: nat, upper: nat): nat {
    if data == [] then TWO128 - 1
    else
      var rest := Lowest(data[..|data| - 1], lower, upper);
      var d := data[|data| - 1];
      if Within(d, lower, upper) && d.cumulative < rest then d.cumulative else rest
  }

  /** Greatest cumulative difficulty in the timestamp range, zero if there is none. */
  function Highest(data: seq<DifficultyData>, lower: nat, upper: nat): nat {
    if data == [] then 0
    else
      var rest := Highest(data[..|data| - 1], lower, upper);
      var d := data[|data| - 1];
      if Within(d, lower, upper) && rest < d.cumulative then d.cumulative else rest
  }

  function CutSize(n: nat): nat { (n + 9) / 10 }

  /** The time span the window is divided by. */
  function TimeSpan(n: nat, lower: nat, upper: nat): nat {
    var low, up := CutSize(n) - 1, n - CutSize(n);
    var deltaIndex := if up > low then up - low else 1;
    if upper > (lower + deltaIndex) % TWO64 then Sub64(upper, lower) else deltaIndex
  }

  function Larger(a: nat, b: nat): nat { if a < b then b else a }

  /** Difficulty gained times target time, per second, but not below the minimum. */
  function Scaled(c: Consensus, gained: nat, span: nat): Result
    requires span >= 1
  {
    if gained * c.targetBlockTime >= TWO128 then Overflow
    else Difficulty(Larger(c.minimumDifficulty, gained * c.targetBlockTime / span))
  }

  /** The section that recovers from a panic: 128-bit subtraction, multiplication and division. */
  function Scale(c: Consensus, low: nat, high: nat, span: nat): Result {
    if high < low || span == 0 then Overflow else Scaled(c, high - low, span)
  }

  /** The timestamps at which the oldest and the newest tenth are cut off a sorted list. */
  function LowerCut(times: seq<nat>): nat
    requires |times| > 0
  {
    Sorted(times)[CutSize(|times|) - 1]
  }

  function UpperCut(times: seq<nat>): nat
    requires |times| > 0
  {
    Sorted(times)[|times| - CutSize(|times|)]
  }

  /** The reference: outliers are cut off a fully sorted list. */
  function NextDifficultySpec(c: Consensus, times: seq<nat>, data: seq<DifficultyData>): Result
    requires |times| > 0
  {
    var lower, upper := LowerCut(times), UpperCut(times);
    Scale(c, Lowest(data, lower, upper), Highest(data, lower, upper), TimeSpan(|times|, lower, upper))
  }

  /** The loop of `NextDifficulty` over the entries inside the timestamp bounds. */
  method Extremes(data: seq<DifficultyData>, lower: nat, upper: nat) returns (low: nat, high: nat)
    ensures low == Lowest(data, lower, upper) && high == Highest(data, lower, upper)
  {
    low, high := TWO128 - 1, 0;
    for i := 0 to |data|
      invariant low == Lowest(data[..i], lower, upper)
      invariant high == Highest(data[..i], lower, upper)
    {
      assert data[..i + 1][..i] == data[..i];
      if lower <= data[i].timestamp && data[i].timestamp <= upper {
        if low > data[i].cumulative {
          low := data[i].cumulative;
        }
        if high < data[i].cumulative {
          high := data[i].cumulative;
        }
      }
    }
    assert data[..|data|] == data;
  }

  /** The two quickselect calls of `NextDifficulty`. */
  method CutBounds(timestamps: array<nat>) returns (lower: nat, upper: nat)
    requires timestamps.Length > 0
    modifies timestamps
    ensures lower == LowerCut(old(timestamps[..])) && upper == UpperCut(old(timestamps[..]))
    ensures multiset(timestamps[..]) == old(multiset(timestamps[..]))
  {
    var n := timestamps.Length;
    var cutSize := (n + 9) / 10;
    NthElement(timestamps, cutSize - 1);
    lower := timestamps[cutSize - 1];
    SortedPermutation(timestamps[..], old(timestamps[..]));
    NthElement(timestamps, n - cutSize);
    upper := timestamps[n - cutSize];
  }

  /** `NextDifficulty`. */
  method NextDifficulty(c: Consensus, timestamps: array<nat>, data: seq<DifficultyData>) returns (r: Result)
    requires timestamps.Length > 0
    modifies timestamps
    ensures r == NextDifficultySpec(c, old(timestamps[..]), data)
    ensures multiset(timestamps[..]) == old(multiset(timestamps[..]))
  {
    var lower, upper := CutBounds(timestamps);
    var low, high := Extremes(data, lower, upper);
    r := Scale(c, low, high, TimeSpan(timestamps.Length, lower, upper));
  }

  // ---------------------------------------------------------------- what the reference means

  lemma {:induction false} LowestIsLeast(data: seq<DifficultyData>, lower: nat, upper: nat)
    requires forall d :: d in data ==> d.cumulative < TWO128
    ensures forall d :: d in data && Within(d, lower, upper) ==> Lowest(data, lower, upper) <= d.cumulative
    ensures Lowest(data, lower, upper) == TWO128 - 1
         || exists d :: d in data && Within(d, lower, upper) && d.cumulative == Lowest(data, lower, upper)
    ensures Lowest(data, lower, upper) < TWO128
  {
    if data != [] {
      var n := |data| - 1;
      LowestIsLeast(data[..n], lower, upper);
      assert data == data[..n] + [data[n]];
      assert data[n] in data;
    }
  }

  lemma {:induction false} HighestIsGreatest(data: seq<DifficultyData>, lower: nat, upper: nat)
    ensures forall d :: d in data && Within(d, lower, upper) ==> d.cumulative <= Highest(data, lower, upper)
    ensures Highest(data, lower, upper) == 0
         || exists d :: d in data && Within(d, lower, upper) && d.cumulative == Highest(data, lower, upper)
  {
    if data != [] {
      var n := |data| - 1;
      HighestIsGreatest(data[..n], lower, upper);
      assert data == data[..n] + [data[n]];
      assert data[n] in data;
    }
  }

  lemma TimestampOf(data: seq<DifficultyData>, t: nat)
    requires t in Sorted(Timestamps(data))
    ensures exists d :: d in data && d.timestamp == t
  {
    SortedIsSorted(Timestamps(data));
    assert t in multiset(Sorted(Timestamps(data)));
    assert t in multiset(Timestamps(data));
    var i :| 0 <= i < |data| && Timestamps(data)[i] == t;
    assert data[i] in data;
  }

  /** At least one entry survives the cut, so the subtraction cannot underflow. */
  lemma BoundsEnclose(data: seq<DifficultyData>)
    requires |data| > 0
    requires forall d :: d in data ==> d.cumulative < TWO128
    ensures var lower, upper := LowerCut(Timestamps(data)), UpperCut(Timestamps(data));
      lower <= upper && Lowest(data, lower, upper) <= Highest(data, lower, upper)
  {
    var lower, upper := LowerCut(Timestamps(data)), UpperCut(Timestamps(data));
    SortedIsSorted(Timestamps(data));
    TimestampOf(data, lower);
    LowestIsLeast(data, lower, upper);
    HighestIsGreatest(data, lower, upper);
  }

  /** The number of steps between the two cut positions. */
  function Steps(n: nat): nat {
    if n - CutSize(n) > CutSize(n) - 1 then n - CutSize(n) - (CutSize(n) - 1) else 1
  }

  /** The divisor: the timestamp range, or the number of steps where the range is not longer. */
  function Span(n: nat, lower: nat, upper: nat): nat {
    if upper > lower + Steps(n) then upper - lower else Steps(n)
  }

  lemma SpanIsPositive(n: nat, lower: nat, upper: nat)
    requires n > 0 && lower <= upper < TWO64 && lower + n < TWO64
    ensures TimeSpan(n, lower, upper) == Span(n, lower, upper) >= 1
  {
    assert Steps(n) <= n;
  }

  lemma SpanOfData(data: seq<DifficultyData>)
    requires |data| > 0
    requires forall d :: d in data ==> d.cumulative < TWO128 && d.timestamp + |data| < TWO64
    ensures var lower, upper := LowerCut(Timestamps(data)), UpperCut(Timestamps(data));
      TimeSpan(|data|, lower, upper) == Span(|data|, lower, upper) >= 1
  {
    var lower, upper := LowerCut(Timestamps(data)), UpperCut(Timestamps(data));
    BoundsEnclose(data);
    TimestampOf(data, lower);
    TimestampOf(data, upper);
    SpanIsPositive(|data|, lower, upper);
  }

  lemma SpecIsScaled(c: Consensus, times: seq<nat>, data: seq<DifficultyData>, low: nat, high: nat, span: nat)
    requires |times| > 0 && low <= high && span >= 1
    requires low == Lowest(data, LowerCut(times), UpperCut(times))
    requires high == Highest(data, LowerCut(times), UpperCut(times))
    requires span == TimeSpan(|times|, LowerCut(times), UpperCut(times))
    ensures NextDifficultySpec(c, times, data) == Scaled(c, high - low, span)
  {
  }

  /** On the data the chain collects, overflow of the product is the only failure. */
  lemma NextDifficultyFailsOnlyOnOverflow(c: Consensus, data: seq<DifficultyData>, low: nat, high: nat, span: nat)
    requires |data| > 0
    requires forall d :: d in data ==> d.cumulative < TWO128 && d.timestamp + |data| < TWO64
    requires low == Lowest(data, LowerCut(Timestamps(data)), UpperCut(Timestamps(data)))
    requires high == Highest(data, LowerCut(Timestamps(data)), UpperCut(Timestamps(data)))
    requires span == Span(|data|, LowerCut(Timestamps(data)), UpperCut(Timestamps(data)))
    ensures low <= high && span >= 1
    ensures NextDifficultySpec(c, Timestamps(data), data) == Scaled(c, high - low, span)
  {
    BoundsEnclose(data);
    SpanOfData(data);
    SpecIsScaled(c, Timestamps(data), data, low, high, span);
  }

  /** The least, or the greatest, cumulative difficulty among the entries in a range of timestamps. */
  ghost predicate Least(data: seq<DifficultyData>, lower: nat, upper: nat, low: nat) {
    && (exists d :: d in data && lower <= d.timestamp <= upper && d.cumulative == low)
    && (forall d :: d in data && lower <= d.timestamp <= upper ==> low <= d.cumulative)
  }

  ghost predicate Greatest(data: seq<DifficultyData>, lower: nat, upper: nat, high: nat) {
    && (exists d :: d in data && lower <= d.timestamp <= upper && d.cumulative == high)
    && (forall d :: d in data && lower <= d.timestamp <= upper ==> d.cumulative <= high)
  }

  lemma LeastIsLowest(data: seq<DifficultyData>, lower: nat, upper: nat, low: nat)
    requires (forall d :: d in data ==> d.cumulative < TWO128) && Least(data, lower, upper, low)
    ensures low == Lowest(data, lower, upper)
  {
    LowestIsLeast(data, lower, upper);
  }

  lemma GreatestIsHighest(data: seq<DifficultyData>, lower: nat, upper: nat, high: nat)
    requires Greatest(data, lower, upper, high)
    ensures high == Highest(data, lower, upper)
  {
    HighestIsGreatest(data, lower, upper);
  }

  /** Rounded-down division, and the minimum where that is greater. */
  lemma ScaledMeaning(c: Consensus, product: nat, span: nat, r: Result)
    requires span >= 1 && product < TWO128
    requires r == Difficulty(Larger(c.minimumDifficulty, product / span))
    ensures r.value >= c.minimumDifficulty
    ensures
      || Times(r.value, span) <= product < Times(r.value + 1, span)
      || (r.value == c.minimumDifficulty && product < Times(c.minimumDifficulty, span))
  {
    var q := product / span;
    Quotient(product, span, q);
    if q < c.minimumDifficulty {
      TimesGrows(q + 1, c.minimumDifficulty, span);
    }
  }

  function Times(a: nat, b: nat): nat { a * b }

  lemma Quotient(x: nat, d: nat, q: nat)
    requires d >= 1 && q == x / d
    ensures Times(q, d) <= x < Times(q + 1, d)
  {
  }

  lemma TimesGrows(a: nat, b: nat, c: nat)
    requires a <= b
    ensures Times(a, c) <= Times(b, c)
  {
    assert b * c == a * c + (b - a) * c;
  }

  /** The next difficulty in plain numbers. Timestamps are sorted and a tenth, rounded up, is cut off at
      either end but for its last entry. The difficulty gained between the cuts, times the target time
      and divided by the time span, is rounded down, and never below the minimum. The span is the time
      between the cuts, or the number of steps between them where that is not less. Only a product of
      more than 128 bits fails. */
  lemma NextDifficultyMeaning(c: Consensus, data: seq<DifficultyData>, cut: nat, lower: nat, upper: nat,
                              low: nat, high: nat, steps: nat, span: nat)
    requires |data| > 0 && forall d :: d in data ==> d.cumulative < TWO128 && d.timestamp + |data| < TWO64
    requires 10 * cut - 10 < |data| <= 10 * cut && cut <= |data|
    requires lower == Sorted(Timestamps(data))[cut - 1] && upper == Sorted(Timestamps(data))[|data| - cut]
    requires Least(data, lower, upper, low) && Greatest(data, lower, upper, high)
    requires steps == if |data| + 1 > 2 * cut then |data| + 1 - 2 * cut else 1
    requires span == if upper - lower > steps then upper - lower else steps
    ensures low <= high && span >= 1
    ensures var r, product := NextDifficultySpec(c, Timestamps(data), data), (high - low) * c.targetBlockTime;
      && !r.Missing?
      && (r.Overflow? <==> product >= TWO128)
      && (r.Difficulty? ==>
            && r.value >= c.minimumDifficulty
            && (|| Times(r.value, span) <= product < Times(r.value + 1, span)
                || (r.value == c.minimumDifficulty && product < Times(c.minimumDifficulty, span))))
  {
    assert cut == CutSize(|data|) && steps == Steps(|data|);
    assert lower == LowerCut(Timestamps(data)) && upper == UpperCut(Timestamps(data));
    LeastIsLowest(data, lower, upper, low);
    GreatestIsHighest(data, lower, upper, high);
    NextDifficultyFailsOnlyOnOverflow(c, data, low, high, span);
    ScaledCases(c, high - low, span);
  }

  lemma ScaledCases(c: Consensus, gained: nat, span: nat)
    requires span >= 1
    ensures var r, product := Scaled(c, gained, span), gained * c.targetBlockTime;
      && !r.Missing?
      && (r.Overflow? <==> product >= TWO128)
      && (r.Difficulty? ==>
            && r.value >= c.minimumDifficulty
            && (|| Times(r.value, span) <= product < Times(r.value + 1, span)
                || (r.value == c.minimumDifficulty && product < Times(c.minimumDifficulty, span))))
  {
    if gained * c.targetBlockTime < TWO128 {
      assert gained * c.targetBlockTime == Times(gained, c.targetBlockTime);
      ScaledMeaning(c, Times(gained, c.targetBlockTime), span, Scaled(c, gained, span));
    }
  }

  /** Such numbers exist for all data, so the meaning above applies to it. */
  lemma ExtremesExist(data: seq<DifficultyData>) returns (low: nat, high: nat)
    requires |data| > 0 && forall d :: d in data ==> d.cumulative < TWO128
    ensures Least(data, LowerCut(Timestamps(data)), UpperCut(Timestamps(data)), low)
    ensures Greatest(data, LowerCut(Timestamps(data)), UpperCut(Timestamps(data)), high)
  {
    var lower, upper := LowerCut(Timestamps(data)), UpperCut(Timestamps(data));
    low, high := Lowest(data, lower, upper), Highest(data, lower, upper);
    BoundsEnclose(data);
    SortedIsSorted(Timestamps(data));
    TimestampOf(data, lower);
    LowestIsLeast(data, lower, upper);
    HighestIsGreatest(data, lower, upper);
    var d :| d in data && d.timestamp == lower;
    assert Within(d, lower, upper);
  }

  lemma TimestampsConcat(a: seq<DifficultyData>, b: seq<DifficultyData>)
    ensures Timestamps(a + b) == Timestamps(a) + Timestamps(b)
  {
  }

  lemma {:induction false} TimestampsPermutation(data: seq<DifficultyData>, other: seq<DifficultyData>)
    requires multiset(data) == multiset(other)
    ensures multiset(Timestamps(data)) == multiset(Timestamps(other))
    decreases |data|
  {
    if data == [] {
      assert |multiset(other)| == 0;
    } else {
      var d := data[0];
      var i, rest := Extract(data, other);
      TimestampsPermutation(data[1..], rest);
      TimestampsConcat([d], data[1..]);
      TimestampsConcat(other[..i], [d] + other[i + 1..]);
      TimestampsConcat([d], other[i + 1..]);
      TimestampsConcat(other[..i], other[i + 1..]);
    }
  }

  lemma SameBounds(data: seq<DifficultyData>, other: seq<DifficultyData>, lower: nat, upper: nat)
    requires forall d :: d in data <==> d in other
    requires forall d :: d in data ==> d.cumulative < TWO128
    ensures Lowest(data, lower, upper) == Lowest(other, lower, upper)
    ensures Highest(data, lower, upper) == Highest(other, lower, upper)
  {
    LowestIsLeast(data, lower, upper);
    LowestIsLeast(other, lower, upper);
    HighestIsGreatest(data, lower, upper);
    HighestIsGreatest(other, lower, upper);
  }

  /** The difficulty does not depend on the order in which the window was collected. */
  lemma NextDifficultyIgnoresOrder(c: Consensus, data: seq<DifficultyData>, other: seq<DifficultyData>)
    requires |data| > 0 && multiset(data) == multiset(other)
    requires forall d :: d in data ==> d.cumulative < TWO128
    ensures |other| > 0
    ensures NextDifficultySpec(c, Timestamps(data), data) == NextDifficultySpec(c, Timestamps(other), other)
  {
    SortedIsSorted(Timestamps(data));
    assert |multiset(data)| == |multiset(other)|;
    forall d ensures d in other <==> d in data {
      assert d in multiset(other) <==> d in multiset(data);
    }
    TimestampsPermutation(data, other);
    SortedPermutation(Timestamps(data), Timestamps(other));
    var lower, upper := LowerCut(Timestamps(data)), UpperCut(Timestamps(data));
    SameBounds(data, other, lower, upper);
  }

  // ---------------------------------------------------------------- collecting the window

  function DataOf(b: PoolBlock): DifficultyData { DifficultyData(b.cumulative, b.timestamp) }

  /** Uncles whose distance from the tip, taken modulo 2^64, lies inside the window. */
  function InWindow(c: Consensus, tip: PoolBlock, uncles: seq<PoolBlock>): seq<DifficultyData> {
    if uncles == [] then []
    else
      (if Sub64(tip.height, uncles[0].height) >= c.chainWindowSize then [] else [DataOf(uncles[0])])
      + InWindow(c, tip, uncles[1..])
  }

  /** The data of `cur`, its uncles and its ancestors, `depth` blocks below the tip; none if a
      block is missing. */
  function Collect(st: Store, c: Consensus, tip: PoolBlock, cur: PoolBlock, depth: nat)
    : (r: Option<seq<DifficultyData>>)
    ensures r.Some? ==> |r.value| > 0
    decreases c.chainWindowSize - depth
  {
    if !UnclesFound(st, cur) then None
    else
      var here := [DataOf(cur)] + InWindow(c, tip, IteratedUncles(st, cur));
      if depth + 1 >= c.chainWindowSize || cur.height == 0 then Some(here)
      else
        match GetParent(st, cur)
        case None => None
        case Some(p) =>
          match Collect(st, c, tip, p, depth + 1)
          case None => None
          case Some(rest) => Some(here + rest)
  }

  /** What `GetDifficultyForNextBlock` answers for a tip. */
  function DifficultyAfter(st: Store, c: Consensus, tip: PoolBlock): Result {
    match Collect(st, c, tip, tip, 0)
    case None => Missing
    case Some(data) => NextDifficultySpec(c, Timestamps(data), data)
  }

  /** The entry comes from a main block of the window, or from an uncle of one that is itself less than the
      window size below the tip. */
  ghost predicate Sampled(st: Store, c: Consensus, tip: PoolBlock, mains: seq<PoolBlock>, d: DifficultyData) {
    exists b, x :: b in mains && (x == b || UncleSample(st, c, tip, b, x))
      && d == DifficultyData(x.cumulative, x.timestamp)
  }

  ghost predicate UncleSample(st: Store, c: Consensus, tip: PoolBlock, b: PoolBlock, x: PoolBlock) {
    x in IteratedUncles(st, b) && (tip.height - x.height) % TWO64 < c.chainWindowSize
  }

  /** The window ends at a genesis block or when it is full, and not before. */
  ghost predicate FullWindow(c: Consensus, mains: seq<PoolBlock>, depth: nat) {
    forall i :: 0 <= i < |mains| ==> (i + 1 == |mains| <==> EndsAt(c, mains[i], depth + i))
  }

  predicate EndsAt(c: Consensus, b: PoolBlock, depth: nat) {
    depth + 1 >= c.chainWindowSize || b.height == 0
  }

  lemma {:induction false} InWindowMeaning(st: Store, c: Consensus, tip: PoolBlock, b: PoolBlock, us: seq<PoolBlock>,
                                           d: DifficultyData)
    ensures d in InWindow(c, tip, us) <==>
      exists x :: x in us && (tip.height - x.height) % TWO64 < c.chainWindowSize
        && d == DifficultyData(x.cumulative, x.timestamp)
  {
    if us != [] {
      InWindowMeaning(st, c, tip, b, us[1..], d);
      assert us == [us[0]] + us[1..];
    }
  }

  lemma HereMeaning(st: Store, c: Consensus, tip: PoolBlock, b: PoolBlock, d: DifficultyData)
    ensures d in [DataOf(b)] + InWindow(c, tip, IteratedUncles(st, b)) <==> Sampled(st, c, tip, [b], d)
  {
    InWindowMeaning(st, c, tip, b, IteratedUncles(st, b), d);
    if d in InWindow(c, tip, IteratedUncles(st, b)) {
      var x :| x in IteratedUncles(st, b) && (tip.height - x.height) % TWO64 < c.chainWindowSize
        && d == DifficultyData(x.cumulative, x.timestamp);
      assert b in [b] && UncleSample(st, c, tip, b, x);
    }
    if d == DataOf(b) {
      assert b in [b] && d == DifficultyData(b.cumulative, b.timestamp);
    }
  }

  lemma SampledFrom(st: Store, c: Consensus, tip: PoolBlock, b: PoolBlock, rest: seq<PoolBlock>, d: DifficultyData)
    ensures Sampled(st, c, tip, [b] + rest, d) <==> Sampled(st, c, tip, [b], d) || Sampled(st, c, tip, rest, d)
  {
    if Sampled(st, c, tip, [b] + rest, d) {
      var y, x :| y in [b] + rest && (x == y || UncleSample(st, c, tip, y, x))
        && d == DifficultyData(x.cumulative, x.timestamp);
      assert y in [b] || y in rest;
    }
    if Sampled(st, c, tip, [b], d) {
      var y, x :| y in [b] && (x == y || UncleSample(st, c, tip, y, x))
        && d == DifficultyData(x.cumulative, x.timestamp);
      assert y in [b] + rest;
    }
    if Sampled(st, c, tip, rest, d) {
      var y, x :| y in rest && (x == y || UncleSample(st, c, tip, y, x))
        && d == DifficultyData(x.cumulative, x.timestamp);
      assert y in [b] + rest;
    }
  }

  lemma FullFrom(c: Consensus, b: PoolBlock, rest: seq<PoolBlock>, depth: nat)
    requires FullWindow(c, rest, depth + 1) && rest != [] && depth + 1 < c.chainWindowSize && b.height > 0
    ensures FullWindow(c, [b] + rest, depth)
  {
    var mains := [b] + rest;
    forall i | 0 <= i < |mains| ensures i + 1 == |mains| <==> EndsAt(c, mains[i], depth + i) {
      if i > 0 {
        var k := i - 1;
        assert mains[i] == rest[k] && depth + i == depth + 1 + k;
      }
    }
  }

  /** What the data is collected from: the window of main blocks and their uncles, and nothing else. */
  lemma {:induction false} CollectMeaning(st: Store, c: Consensus, tip: PoolBlock, cur: PoolBlock, depth: nat,
                                          data: seq<DifficultyData>)
    returns (mains: seq<PoolBlock>)
    requires Collect(st, c, tip, cur, depth) == Some(data)
    ensures Lineage(st, cur, mains) && FullWindow(c, mains, depth)
    ensures forall b :: b in mains ==> UnclesFound(st, b)
    ensures forall d :: d in data <==> Sampled(st, c, tip, mains, d)
    decreases c.chainWindowSize - depth
  {
    var here := [DataOf(cur)] + InWindow(c, tip, IteratedUncles(st, cur));
    forall d ensures d in here <==> Sampled(st, c, tip, [cur], d) {
      HereMeaning(st, c, tip, cur, d);
    }
    mains := [cur];
    if depth + 1 < c.chainWindowSize && cur.height > 0 {
      var p := GetParent(st, cur).value;
      var more := Collect(st, c, tip, p, depth + 1).value;
      var rest := CollectMeaning(st, c, tip, p, depth + 1, more);
      LineageFrom(st, cur, p, rest);
      FullFrom(c, cur, rest, depth);
      mains := [cur] + rest;
      forall d ensures d in data <==> Sampled(st, c, tip, mains, d) {
        SampledFrom(st, c, tip, cur, rest, d);
      }
    }
  }

  /** Collecting fails only if a block is missing. */
  lemma {:induction false} CollectSucceeds(st: Store, c: Consensus, v: set<PoolBlock>, tip: PoolBlock, cur: PoolBlock,
                                           depth: nat)
    requires cur in v && forall b :: b in v ==>
      UnclesFound(st, b) && (b.height > 0 ==> GetParent(st, b).Some? && GetParent(st, b).value in v)
    ensures Collect(st, c, tip, cur, depth).Some?
    decreases c.chainWindowSize - depth
  {
    if depth + 1 < c.chainWindowSize && cur.height > 0 {
      CollectSucceeds(st, c, v, tip, GetParent(st, cur).value, depth + 1);
    }
  }

  /** The uncle callback of `GetDifficultyForNextBlock`. */
  method AppendUncles(c: Consensus, tip: PoolBlock, uncles: seq<PoolBlock>, data: seq<DifficultyData>)
    returns (r: seq<DifficultyData>)
    ensures r == data + InWindow(c, tip, uncles)
  {
    r := data;
    for i := 0 to |uncles|
      invariant r + InWindow(c, tip, uncles[i..]) == data + InWindow(c, tip, uncles)
    {
      // an old uncle adds no sample
      if Sub64(tip.height, uncles[i].height) < c.chainWindowSize {
        r := r + [DataOf(uncles[i])];
      }
      assert uncles[i..][1..] == uncles[i + 1..];
    }
  }

  ghost function Prefixed(data: seq<DifficultyData>, rest: Option<seq<DifficultyData>>): Option<seq<DifficultyData>> {
    if rest.None? then None else Some(data + rest.value)
  }

  lemma CollectStep(st: Store, c: Consensus, tip: PoolBlock, cur: PoolBlock, depth: nat,
                    before: seq<DifficultyData>, data: seq<DifficultyData>)
    requires data == before + [DataOf(cur)] + InWindow(c, tip, IteratedUncles(st, cur))
    ensures var whole := Prefixed(before, Collect(st, c, tip, cur, depth));
      if !UnclesFound(st, cur) then whole == None
      else if depth + 1 >= c.chainWindowSize || cur.height == 0 then whole == Some(data)
      else if GetParent(st, cur).None? then whole == None
      else whole == Prefixed(data, Collect(st, c, tip, GetParent(st, cur).value, depth + 1))
  {
    var here := [DataOf(cur)] + InWindow(c, tip, IteratedUncles(st, cur));
    assert data == before + here;
    if GetParent(st, cur).Some? && depth + 1 < c.chainWindowSize {
      var rest := Collect(st, c, tip, GetParent(st, cur).value, depth + 1);
      if rest.Some? {
        assert before + (here + rest.value) == data + rest.value;
      }
    }
  }

  /** The walk of `GetDifficultyForNextBlock`. */
  method CollectWindow(st: Store, c: Consensus, tip: PoolBlock) returns (r: Option<seq<DifficultyData>>)
    ensures r == Collect(st, c, tip, tip, 0)
  {
    var data: seq<DifficultyData> := [];
    var cur, depth := tip, 0;
    assert Collect(st, c, tip, tip, 0).Some? ==>
      data + Collect(st, c, tip, tip, 0).value == Collect(st, c, tip, tip, 0).value;
    while true
      invariant Collect(st, c, tip, tip, 0) == Prefixed(data, Collect(st, c, tip, cur, depth))
      decreases c.chainWindowSize - depth
    {
      ghost var before := data;
      data := AppendUncles(c, tip, IteratedUncles(st, cur), data + [DataOf(cur)]);
      CollectStep(st, c, tip, cur, depth, before, data);
      if !UnclesFound(st, cur) {
        return None;
      }
      depth := depth + 1;
      if depth >= c.chainWindowSize || cur.height == 0 {
        return Some(data);
      }
      var parent := GetParent(st, cur);
      if parent.None? {
        return None;
      }
      cur := parent.value;
    }
  }

  /** `GetDifficultyForNextBlock`. */
  method GetDifficultyForNextBlock(st: Store, c: Consensus, tip: PoolBlock) returns (r: Result)
    ensures r == DifficultyAfter(st, c, tip)
  {
    var window := CollectWindow(st, c, tip);
    if window.None? {
      return Missing;
    }
    var data := window.value;
    var timestamps := new nat[|data|](i requires 0 <= i < |data| => data[i].timestamp);
    assert timestamps[..] == Timestamps(data);
    r := NextDifficulty(c, timestamps, data);
  }
}
