/** Reduction of 32 bytes modulo the group order (monero/crypto/edwards25519.go): thirteen signed limbs
    of 21 bits each, carried, folded and carried again. Arithmetic shifts are divisions that round
    down, masks are remainders, and `|` of separate bit fields is addition. */
module ScalarReduction {
  import opened Bytes

  /** 2^252 + 27742317777372353535851937790883648493, the order L of section 5.1 of RFC 8032. */
  const GROUP_ORDER: nat := 7237005577332262213973186563042994240857116359379907606001950938285454250989

  const RADIX: int := 0x20_0000
  const HALF: int := 0x10_0000

  predicate Int64(x: int) { -0x8000_0000_0000_0000 <= x < 0x8000_0000_0000_0000 }

  predicate IsBytes(s: seq<int>) {
    forall i :: 0 <= i < |s| ==> 0 <= s[i] < 256
  }

  /** What limbs stand for. */
  function Value(l: seq<int>): int {
    if l == [] then 0 else l[0] + RADIX * Value(l[1..])
  }

  function Power(x: int, n: nat): int {
    if n == 0 then 1 else x * Power(x, n - 1)
  }

  // ---------------------------------------------------------------- limbs from bytes

  function Load3(a: int, b: int, c: int): int { a + b * 0x100 + c * 0x1_0000 }

  function Load4(a: int, b: int, c: int, d: int): int { a + b * 0x100 + c * 0x1_0000 + d * 0x100_0000 }

  predicate AreBytes(a: int, b: int, c: int, d: int) {
    0 <= a < 256 && 0 <= b < 256 && 0 <= c < 256 && 0 <= d < 256
  }

  lemma AtLeast(k: int, d: int)
    requires k >= 1 && d >= 0
    ensures k * d >= d
  {
  }

  lemma Quotient(x: int, d: int, q: int, r: int)
    requires x == q * d + r && 0 <= r < d
    ensures x / d == q
  {
    Unique(x, d, q, r, x / d, x % d);
  }

  lemma Unique(x: int, d: int, q: int, r: int, p: int, s: int)
    requires x == q * d + r && 0 <= r < d && x == d * p + s && 0 <= s < d
    ensures p == q
  {
    assert (q - p) * d == s - r;
    if p < q {
      AtLeast(q - p, d);
    } else if q < p {
      assert (p - q) * d == r - s;
      AtLeast(p - q, d);
    }
  }

  /** Shifting and masking picks out the middle one of three bit fields. */
  lemma Field(x: int, shift: int, low: int, f: int, high: int)
    requires 0 <= low < shift && 0 <= f < RADIX && x == (f + RADIX * high) * shift + low
    ensures x / shift % RADIX == f
  {
    Quotient(x, shift, f + RADIX * high, low);
  }

  lemma Field3At0(a: int, b: int, c: int)
    requires AreBytes(a, b, c, 0)
    ensures Load3(a, b, c) % RADIX == a + b * 0x100 + c % 0x20 * 0x10000
  {
    var q, r := c / 0x20, c % 0x20;
    assert c == 0x20 * q + r && 0 <= q && 0 <= r < 0x20;
    Field(Load3(a, b, c), 1, 0, a + b * 0x100 + r * 0x10000, q);
  }

  lemma Field4At5(a: int, b: int, c: int, d: int)
    requires AreBytes(a, b, c, d)
    ensures Load4(a, b, c, d) / 0x20 % RADIX == a / 0x20 + b * 0x8 + c * 0x800 + d % 0x4 * 0x80000
  {
    Field(Load4(a, b, c, d), 32, a % 0x20, a / 0x20 + b * 0x8 + c * 0x800 + d % 0x4 * 0x80000, d / 0x4);
  }

  lemma Field3At2(a: int, b: int, c: int)
    requires AreBytes(a, b, c, 0)
    ensures Load3(a, b, c) / 0x4 % RADIX == a / 0x4 + b * 0x40 + c % 0x80 * 0x4000
  {
    Field(Load3(a, b, c), 4, a % 0x4, a / 0x4 + b * 0x40 + c % 0x80 * 0x4000, c / 0x80);
  }

  lemma Field4At7(a: int, b: int, c: int, d: int)
    requires AreBytes(a, b, c, d)
    ensures Load4(a, b, c, d) / 0x80 % RADIX == a / 0x80 + b * 0x2 + c * 0x200 + d % 0x10 * 0x20000
  {
    Field(Load4(a, b, c, d), 128, a % 0x80, a / 0x80 + b * 0x2 + c * 0x200 + d % 0x10 * 0x20000, d / 0x10);
  }

  lemma Field4At4(a: int, b: int, c: int, d: int)
    requires AreBytes(a, b, c, d)
    ensures Load4(a, b, c, d) / 0x10 % RADIX == a / 0x10 + b * 0x10 + c * 0x1000 + d % 0x2 * 0x100000
  {
    Field(Load4(a, b, c, d), 16, a % 0x10, a / 0x10 + b * 0x10 + c * 0x1000 + d % 0x2 * 0x100000, d / 0x2);
  }

  lemma Field3At1(a: int, b: int, c: int)
    requires AreBytes(a, b, c, 0)
    ensures Load3(a, b, c) / 0x2 % RADIX == a / 0x2 + b * 0x80 + c % 0x40 * 0x8000
  {
    Field(Load3(a, b, c), 2, a % 0x2, a / 0x2 + b * 0x80 + c % 0x40 * 0x8000, c / 0x40);
  }

  lemma Field4At6(a: int, b: int, c: int, d: int)
    requires AreBytes(a, b, c, d)
    ensures Load4(a, b, c, d) / 0x40 % RADIX == a / 0x40 + b * 0x4 + c * 0x400 + d % 0x8 * 0x40000
  {
    Field(Load4(a, b, c, d), 64, a % 0x40, a / 0x40 + b * 0x4 + c * 0x400 + d % 0x8 * 0x40000, d / 0x8);
  }

  lemma Field3At3(a: int, b: int, c: int)
    requires AreBytes(a, b, c, 0)
    ensures Load3(a, b, c) / 0x8 % RADIX == a / 0x8 + b * 0x20 + c * 0x2000
  {
    Field(Load3(a, b, c), 8, a % 0x8, a / 0x8 + b * 0x20 + c * 0x2000, 0);
  }

  /** The limbs as they are first read; the last one is not masked. */
  function Unpack(b: seq<int>): seq<int>
    requires |b| == 32
  {
    [Load3(b[0], b[1], b[2]) % RADIX,
     Load4(b[2], b[3], b[4], b[5]) / 0x20 % RADIX,
     Load3(b[5], b[6], b[7]) / 0x4 % RADIX,
     Load4(b[7], b[8], b[9], b[10]) / 0x80 % RADIX,
     Load4(b[10], b[11], b[12], b[13]) / 0x10 % RADIX,
     Load3(b[13], b[14], b[15]) / 0x2 % RADIX,
     Load4(b[15], b[16], b[17], b[18]) / 0x40 % RADIX,
     Load3(b[18], b[19], b[20]) / 0x8 % RADIX,
     Load3(b[21], b[22], b[23]) % RADIX,
     Load4(b[23], b[24], b[25], b[26]) / 0x20 % RADIX,
     Load3(b[26], b[27], b[28]) / 0x4 % RADIX,
     Load4(b[28], b[29], b[30], b[31]) / 0x80,
     0]
  }

  lemma UnrollBytes(b: seq<int>)
    requires |b| >= 4
    ensures LittleEndian(b) == b[0] + 0x100 * b[1] + 0x1_0000 * b[2] + 0x100_0000 * b[3]
      + 0x1_0000_0000 * LittleEndian(b[4..])
  {
    var b1, b2, b3 := b[1..], b[2..], b[3..];
    assert b1[1..] == b2 && b2[1..] == b3 && b3[1..] == b[4..];
    assert LittleEndian(b) == b[0] + 0x100 * LittleEndian(b1);
    assert LittleEndian(b1) == b1[0] + 0x100 * LittleEndian(b2);
    assert LittleEndian(b2) == b2[0] + 0x100 * LittleEndian(b3);
    assert LittleEndian(b3) == b3[0] + 0x100 * LittleEndian(b[4..]);
  }

  lemma UnrollLimbs(l: seq<int>)
    requires |l| >= 4
    ensures Value(l) == l[0] + RADIX * (l[1] + RADIX * (l[2] + RADIX * (l[3] + RADIX * Value(l[4..]))))
  {
    var l1, l2, l3 := l[1..], l[2..], l[3..];
    assert l1[1..] == l2 && l2[1..] == l3 && l3[1..] == l[4..];
    assert Value(l) == l[0] + RADIX * Value(l1);
    assert Value(l1) == l1[0] + RADIX * Value(l2);
    assert Value(l2) == l2[0] + RADIX * Value(l3);
    assert Value(l3) == l3[0] + RADIX * Value(l[4..]);
  }

  lemma {:induction false} BytesAppend(a: seq<int>, b: seq<int>)
    ensures LittleEndian(a + b) == LittleEndian(a) + Power(0x100, |a|) * LittleEndian(b)
  {
    if a == [] {
      assert a + b == b;
    } else {
      assert (a + b)[1..] == a[1..] + b;
      BytesAppend(a[1..], b);
      Regroup(0x100, Power(0x100, |a| - 1), LittleEndian(b));
    }
  }

  lemma {:induction false} LimbsAppend(a: seq<int>, b: seq<int>)
    ensures Value(a + b) == Value(a) + Power(RADIX, |a|) * Value(b)
  {
    if a == [] {
      assert a + b == b;
    } else {
      assert (a + b)[1..] == a[1..] + b;
      LimbsAppend(a[1..], b);
      Regroup(RADIX, Power(RADIX, |a| - 1), Value(b));
    }
  }

  lemma Regroup(x: int, y: int, z: int)
    ensures x * (y * z) == (x * y) * z
  {
  }

  lemma TwentyOneBytes(b: seq<int>)
    requires |b| == 21
    ensures LittleEndian(b) == Load4(b[0], b[1], b[2], b[3])
      + 0x1_0000_0000 * (Load4(b[4], b[5], b[6], b[7])
        + 0x1_0000_0000 * (Load4(b[8], b[9], b[10], b[11])
          + 0x1_0000_0000 * (Load4(b[12], b[13], b[14], b[15])
            + 0x1_0000_0000 * (Load4(b[16], b[17], b[18], b[19]) + 0x1_0000_0000 * (b[20])))))
  {
    var b1, b2, b3, b4, b5 := b[4..], b[8..], b[12..], b[16..], b[20..];
    assert b1[4..] == b2 && b2[4..] == b3 && b3[4..] == b4 && b4[4..] == b5 && b5[1..] == [];
    UnrollBytes(b);
    UnrollBytes(b1);
    UnrollBytes(b2);
    UnrollBytes(b3);
    UnrollBytes(b4);
    assert LittleEndian(b5) == b[20];
  }

  lemma ElevenBytes(b: seq<int>)
    requires |b| == 11
    ensures LittleEndian(b) == Load4(b[0], b[1], b[2], b[3])
      + 0x1_0000_0000 * (Load4(b[4], b[5], b[6], b[7]) + 0x1_0000_0000 * (Load3(b[8], b[9], b[10])))
  {
    var b1, b2, b3 := b[4..], b[8..], b[8..] + [0];
    assert b1[4..] == b2;
    UnrollBytes(b);
    UnrollBytes(b1);
    BytesAppend(b2, [0]);
    assert LittleEndian([0]) == 0;
    UnrollBytes(b3);
  }

  lemma EightLimbs(l: seq<int>)
    requires |l| == 8
    ensures Value(l) == l[0]
      + RADIX * (l[1] + RADIX * (l[2]
        + RADIX * (l[3] + RADIX * (l[4] + RADIX * (l[5] + RADIX * (l[6] + RADIX * (l[7])))))))
  {
    UnrollLimbs(l);
    UnrollLimbs(l[4..]);
    assert l[4..][4..] == [];
  }

  lemma FourLimbs(l: seq<int>)
    requires |l| == 4
    ensures Value(l) == l[0] + RADIX * (l[1] + RADIX * (l[2] + RADIX * l[3]))
  {
    UnrollLimbs(l);
    assert l[4..] == [];
  }

  /** Eight limbs are 21 bytes, seven limbs of which straddle a byte. */
  lemma LowNested(b: seq<int>)
    requires |b| == 32 && IsBytes(b)
    ensures var l := Unpack(b);
      l[0] + RADIX * (l[1]
        + RADIX * (l[2] + RADIX * (l[3] + RADIX * (l[4] + RADIX * (l[5] + RADIX * (l[6] + RADIX * l[7]))))))
      == Load4(b[0], b[1], b[2], b[3])
        + 0x1_0000_0000 * (Load4(b[4], b[5], b[6], b[7])
          + 0x1_0000_0000 * (Load4(b[8], b[9], b[10], b[11])
            + 0x1_0000_0000 * (Load4(b[12], b[13], b[14], b[15])
              + 0x1_0000_0000 * (Load4(b[16], b[17], b[18], b[19]) + 0x1_0000_0000 * (b[20])))))
    ensures forall i :: 0 <= i < 8 ==> 0 <= Unpack(b)[i] < RADIX
  {
    Field3At0(b[0], b[1], b[2]);
    Field4At5(b[2], b[3], b[4], b[5]);
    Field3At2(b[5], b[6], b[7]);
    Field4At7(b[7], b[8], b[9], b[10]);
    Field4At4(b[10], b[11], b[12], b[13]);
    Field3At1(b[13], b[14], b[15]);
    Field4At6(b[15], b[16], b[17], b[18]);
    Field3At3(b[18], b[19], b[20]);
  }

  /** The last four limbs are eleven bytes. */
  lemma HighNested(b: seq<int>)
    requires |b| == 32 && IsBytes(b)
    ensures var l := Unpack(b);
      l[8] + RADIX * (l[9] + RADIX * (l[10] + RADIX * (l[11])))
      == Load4(b[21], b[22], b[23], b[24])
        + 0x1_0000_0000 * (Load4(b[25], b[26], b[27], b[28]) + 0x1_0000_0000 * (Load3(b[29], b[30], b[31])))
    ensures forall i :: 8 <= i < 11 ==> 0 <= Unpack(b)[i] < RADIX
    ensures 0 <= Unpack(b)[11] < 0x200_0000
  {
    Field3At0(b[21], b[22], b[23]);
    Field4At5(b[23], b[24], b[25], b[26]);
    Field3At2(b[26], b[27], b[28]);
    Quotient(Load4(b[28], b[29], b[30], b[31]), 0x80, b[28] / 0x80 + 0x2 * Load3(b[29], b[30], b[31]), b[28] % 0x80);
  }

  lemma LowLimbs(b: seq<int>)
    requires |b| == 32 && IsBytes(b)
    ensures Value(Unpack(b)[..8]) == LittleEndian(b[..21])
  {
    LowNested(b);
    EightLimbs(Unpack(b)[..8]);
    TwentyOneBytes(b[..21]);
  }

  lemma HighLimbs(b: seq<int>)
    requires |b| == 32 && IsBytes(b)
    ensures Value(Unpack(b)[8..12]) == LittleEndian(b[21..])
  {
    HighNested(b);
    FourLimbs(Unpack(b)[8..12]);
    ElevenBytes(b[21..]);
  }

  lemma EightLimbsAre21Bytes()
    ensures Power(RADIX, 8) == 0x100_0000_0000_0000_0000_0000_0000_0000_0000_0000_0000
    ensures Power(0x100, 21) == 0x100_0000_0000_0000_0000_0000_0000_0000_0000_0000_0000
  {
    assert Power(0x100, 7) == 0x100_0000_0000_0000;
    assert Power(0x100, 14) == 0x1_0000_0000_0000_0000_0000_0000_0000;
  }

  /** The same number in two halves. */
  lemma SameHalves(l: seq<int>, b: seq<int>)
    requires |l| == 13 && l[12] == 0 && |b| == 32
    requires Value(l[..8]) == LittleEndian(b[..21]) && Value(l[8..12]) == LittleEndian(b[21..])
    ensures Value(l) == LittleEndian(b)
  {
    var low, high := l[..8], l[8..12];
    assert l == low + (high + [0]) && b == b[..21] + b[21..];
    LimbsAppend(low, high + [0]);
    LimbsAppend(high, [0]);
    assert Value([0]) == 0;
    BytesAppend(b[..21], b[21..]);
    EightLimbsAre21Bytes();
  }

  /** Reading the limbs loses nothing. */
  lemma UnpackValue(b: seq<int>)
    requires |b| == 32 && IsBytes(b)
    ensures Value(Unpack(b)) == LittleEndian(b)
  {
    LowLimbs(b);
    HighLimbs(b);
    SameHalves(Unpack(b), b);
  }

  // ---------------------------------------------------------------- carries

  /** No step of the carry leaves the range of int64. */
  predicate MoveFits(l: seq<int>, i: nat, carry: int)
    requires i + 1 < |l|
  {
    Int64(l[i] + HALF) && Int64(carry * RADIX) && Int64(l[i] - carry * RADIX) && Int64(l[i + 1] + carry)
  }

  function Move(l: seq<int>, i: nat, carry: int): (r: seq<int>)
    requires i + 1 < |l| && MoveFits(l, i, carry)
    ensures |r| == |l| && Value(r) == Value(l)
  {
    MoveKeepsValue(l, i, carry);
    l[i := l[i] - carry * RADIX][i + 1 := l[i + 1] + carry]
  }

  lemma {:induction false} MoveKeepsValue(l: seq<int>, i: nat, carry: int)
    requires i + 1 < |l|
    ensures Value(l[i := l[i] - carry * RADIX][i + 1 := l[i + 1] + carry]) == Value(l)
  {
    var r := l[i := l[i] - carry * RADIX][i + 1 := l[i + 1] + carry];
    if i == 0 {
      assert r[1..][1..] == l[1..][1..];
      assert Value(r) == r[0] + RADIX * (r[1] + RADIX * Value(r[1..][1..]));
      assert Value(l) == l[0] + RADIX * (l[1] + RADIX * Value(l[1..][1..]));
    } else {
      var rest := l[1..];
      assert r[1..] == rest[i - 1 := rest[i - 1] - carry * RADIX][i := rest[i] + carry];
      MoveKeepsValue(rest, i - 1, carry);
    }
  }

  /** The rounding carries of even limbs are done up to i. */
  predicate EvenState(l: seq<int>, i: nat, v: int) {
    && |l| == 13
    && Value(l) == v
    && l[12] == 0
    && (forall j :: 0 <= j < 12 ==>
          if j % 2 == 0 && j < i then -HALF <= l[j] < HALF
          else 0 <= l[j] <= EvenLimit(j, i))
  }

  function EvenLimit(j: nat, i: nat): int {
    if j == 11 then 0x1ff_ffff + (if i == 12 then 1 else 0) else if j < i then RADIX else RADIX - 1
  }

  function CarryEven(l: seq<int>, i: nat, ghost v: int): (r: seq<int>)
    requires i % 2 == 0 && i < 12 && EvenState(l, i, v)
    ensures EvenState(r, i + 2, v)
  {
    Move(l, i, (l[i] + HALF) / RADIX)
  }

  /** ... and then those of odd limbs: all limbs up to i are balanced. */
  predicate OddState(l: seq<int>, i: nat, v: int) {
    && |l| == 13
    && Value(l) == v
    && (forall j :: 0 <= j < 12 ==>
          if j < i || j % 2 == 0 then -HALF <= l[j] <= HALF - (if j > i then 1 else 0)
          else 0 <= l[j] <= (if j == 11 then 0x200_0000 else RADIX))
    && (if i < 12 then l[12] == 0 else 0 <= l[12] <= 16)
  }

  function CarryOdd(l: seq<int>, i: nat, ghost v: int): (r: seq<int>)
    requires i % 2 == 1 && i < 12 && OddState(l, i, v)
    ensures OddState(r, i + 2, v)
  {
    Move(l, i, (l[i] + HALF) / RADIX)
  }

  /** All limbs below i are digits, the others still small. */
  predicate FloorState(l: seq<int>, i: nat, v: int) {
    && Value(l) == v
    && (forall j :: 0 <= j < |l| ==>
          if j < i then 0 <= l[j] < RADIX
          else if j == i then -0x400_0040 <= l[j] <= 0x400_0040
          else -0x400_0000 <= l[j] <= 0x400_0000)
  }

  function CarryFloor(l: seq<int>, i: nat, ghost v: int): (r: seq<int>)
    requires i + 1 < |l| && FloorState(l, i, v)
    ensures |r| == |l| && FloorState(r, i + 1, v)
  {
    Move(l, i, l[i] / RADIX)
  }

  // ---------------------------------------------------------------- folding

  /** 2^252 - L in limbs: what one unit of the thirteenth limb is worth in the others. */
  const EXCESS: seq<int> := [666643, 470296, 654183, -997805, 136657, -683901]

  /** No product or sum leaves the range of int64. */
  predicate FoldFits(l: seq<int>)
    requires |l| == 13
  {
    forall i :: 0 <= i < 6 ==> Int64(l[12] * EXCESS[i]) && Int64(l[i] + l[12] * EXCESS[i])
  }

  function Fold(l: seq<int>): (r: seq<int>)
    requires |l| == 13 && FoldFits(l)
    ensures |r| == 13 && Value(r[..12]) == Value(l) - l[12] * GROUP_ORDER
    ensures forall i :: 0 <= i < 6 ==> r[i] == l[i] + l[12] * EXCESS[i]
    ensures forall i :: 6 <= i < 13 ==> r[i] == l[i]
  {
    FoldSubtracts(l);
    FoldedPrefix(l)
  }

  function FoldedPrefix(l: seq<int>): seq<int>
    requires |l| == 13
  {
    var q := l[12];
    [l[0] + q * 666643, l[1] + q * 470296, l[2] + q * 654183, l[3] - q * 997805, l[4] + q * 136657, l[5] - q * 683901]
      + l[6..]
  }

  lemma SixLimbs(l: seq<int>)
    requires |l| == 6
    ensures Value(l) == l[0] + RADIX * (l[1] + RADIX * (l[2] + RADIX * (l[3] + RADIX * (l[4] + RADIX * l[5]))))
  {
    var l4, l5 := l[4..], l[5..];
    UnrollLimbs(l);
    assert l4[1..] == l5 && l5[1..] == [];
    assert Value(l5) == l5[0] && Value(l4) == l4[0] + RADIX * Value(l5);
  }

  lemma TwelvePlaces()
    ensures Power(RADIX, 12) == 0x1000_0000_0000_0000_0000_0000_0000_0000_0000_0000_0000_0000_0000_0000_0000_0000
  {
    assert Power(RADIX, 6) == 0x4000_0000_0000_0000_0000_0000_0000_0000;
  }

  lemma FoldSubtracts(l: seq<int>)
    requires |l| == 13
    ensures Value(FoldedPrefix(l)[..12]) == Value(l) - l[12] * GROUP_ORDER
  {
    var q, r := l[12], FoldedPrefix(l);
    var low, high, folded := l[..6], l[6..12], r[..6];
    assert l[..12] == low + high && r[..12] == folded + high;
    LimbsAppend(low, high);
    LimbsAppend(folded, high);
    FoldLow(low, folded, q);
    TopLimb(l);
  }

  /** What the limb that is folded stands for. */
  lemma TopLimb(l: seq<int>)
    requires |l| == 13
    ensures Value(l) == Value(l[..12]) + l[12] * (GROUP_ORDER - 27742317777372353535851937790883648493)
  {
    assert l == l[..12] + [l[12]] && Value([l[12]]) == l[12];
    LimbsAppend(l[..12], [l[12]]);
    TwelvePlaces();
  }

  lemma FoldLow(low: seq<int>, folded: seq<int>, q: int)
    requires |low| == 6 && |folded| == 6
    requires folded[0] == low[0] + q * 666643 && folded[1] == low[1] + q * 470296 && folded[2] == low[2] + q * 654183
    requires folded[3] == low[3] - q * 997805 && folded[4] == low[4] + q * 136657 && folded[5] == low[5] - q * 683901
    ensures Value(folded) == Value(low) - q * 27742317777372353535851937790883648493
  {
    SixLimbs(low);
    SixLimbs(folded);
  }

  // ---------------------------------------------------------------- ranges

  lemma {:induction false} DigitsBound(l: seq<int>)
    requires forall j :: 0 <= j < |l| ==> 0 <= l[j] < RADIX
    ensures 0 <= Value(l) < Power(RADIX, |l|)
  {
    if l != [] {
      DigitsBound(l[1..]);
    }
  }

  /** The largest value of n limbs that are at most HALF. */
  function Widest(n: nat): int {
    if n == 0 then 0 else HALF + RADIX * Widest(n - 1)
  }

  lemma {:induction false} BalancedBound(l: seq<int>)
    requires forall j :: 0 <= j < |l| ==> -HALF <= l[j] <= HALF
    ensures -Widest(|l|) <= Value(l) <= Widest(|l|)
  {
    if l != [] {
      BalancedBound(l[1..]);
    }
  }

  lemma WidestTwelve()
    ensures 0 <= Widest(12) < Power(RADIX, 12) - 16 * (GROUP_ORDER - Power(RADIX, 12))
  {
    TwelvePlaces();
    assert Widest(6) < 0x3000_0000_0000_0000_0000_0000_0000_0000;
  }

  lemma LastLimb(l: seq<int>)
    requires |l| == 13
    ensures Value(l) == Value(l[..12]) + Power(RADIX, 12) * l[12]
  {
    assert l == l[..12] + [l[12]];
    LimbsAppend(l[..12], [l[12]]);
    assert Value([l[12]]) == l[12];
  }

  /** After the rounding carries and one fold the value is within 2^252 of zero. */
  lemma FirstFold(l: seq<int>, v: int)
    requires OddState(l, 13, v)
    ensures FoldFits(l)
    ensures -Power(RADIX, 12) < v - l[12] * GROUP_ORDER < Power(RADIX, 12)
  {
    LastLimb(l);
    BalancedBound(l[..12]);
    WidestTwelve();
    TwelvePlaces();
  }

  /** After the rounding-down carries the last limb is 0 or -1, and one more fold is enough. */
  lemma SecondFold(l: seq<int>, v: int)
    requires |l| == 13 && FloorState(l, 12, v) && -Power(RADIX, 12) < v < Power(RADIX, 12)
    ensures -1 <= l[12] <= 0 && FoldFits(l)
    ensures 0 <= v - l[12] * GROUP_ORDER < GROUP_ORDER
  {
    LastLimb(l);
    DigitsBound(l[..12]);
    TwelvePlaces();
  }

  /** The last limb of a reduced value still fits its bytes. */
  lemma ReducedLimbs(l: seq<int>, v: int)
    requires |l| == 12 && FloorState(l, 11, v) && 0 <= v < GROUP_ORDER
    ensures 0 <= l[11] <= RADIX
  {
    assert l == l[..11] + [l[11]];
    LimbsAppend(l[..11], [l[11]]);
    assert Value([l[11]]) == l[11];
    DigitsBound(l[..11]);
    TwelvePlaces();
    assert Power(RADIX, 12) == RADIX * Power(RADIX, 11);
  }

  // ---------------------------------------------------------------- bytes from limbs

  /** The 32 bytes, in the order they are written. */
  function Pack(l: seq<int>): (b: seq<int>)
    requires |l| == 12
    ensures |b| == 32
  {
    PackLow(l) + PackMiddle(l) + PackUpper(l) + PackHigh(l)
  }

  function PackLow(l: seq<int>): (b: seq<int>)
    requires |l| == 12
    ensures |b| == 7
  {
    [l[0] % 0x100, l[0] / 0x100 % 0x100, (l[0] / 0x10000 + l[1] * 0x20) % 0x100, l[1] / 0x8 % 0x100,
     l[1] / 0x800 % 0x100, (l[1] / 0x80000 + l[2] * 0x4) % 0x100, l[2] / 0x40 % 0x100]
  }

  function PackMiddle(l: seq<int>): (b: seq<int>)
    requires |l| == 12
    ensures |b| == 7
  {
    [(l[2] / 0x4000 + l[3] * 0x80) % 0x100, l[3] / 0x2 % 0x100, l[3] / 0x200 % 0x100,
     (l[3] / 0x20000 + l[4] * 0x10) % 0x100, l[4] / 0x10 % 0x100, l[4] / 0x1000 % 0x100,
     (l[4] / 0x100000 + l[5] * 0x2) % 0x100]
  }

  function PackUpper(l: seq<int>): (b: seq<int>)
    requires |l| == 12
    ensures |b| == 7
  {
    [l[5] / 0x80 % 0x100, (l[5] / 0x8000 + l[6] * 0x40) % 0x100, l[6] / 0x4 % 0x100, l[6] / 0x400 % 0x100,
     (l[6] / 0x40000 + l[7] * 0x8) % 0x100, l[7] / 0x20 % 0x100, l[7] / 0x2000 % 0x100]
  }

  function PackHigh(l: seq<int>): (b: seq<int>)
    requires |l| == 12
    ensures |b| == 11
  {
    [l[8] % 0x100, l[8] / 0x100 % 0x100, (l[8] / 0x10000 + l[9] * 0x20) % 0x100, l[9] / 0x8 % 0x100,
     l[9] / 0x800 % 0x100, (l[9] / 0x80000 + l[10] * 0x4) % 0x100, l[10] / 0x40 % 0x100,
     (l[10] / 0x4000 + l[11] * 0x80) % 0x100, l[11] / 0x2 % 0x100, l[11] / 0x200 % 0x100,
     l[11] / 0x20000 % 0x100]
  }

  /** A byte made of the top bits of one limb and the bottom bits of the next. */
  lemma Straddle(top: int, next: int, shift: int, low: int)
    requires 0 <= top < shift && shift * low == 0x100 && low > 0
    ensures (top + next * shift) % 0x100 == top + next % low * shift
  {
    var x := top + next * shift;
    assert next == low * (next / low) + next % low;
    Regroup(low, next / low, shift);
    assert next * shift == 0x100 * (next / low) + next % low * shift;
    StraddleBound(top, next % low, shift, low);
    Remainder(x, 0x100, next / low, top + next % low * shift);
  }

  /** ... from which both parts can be read back. */
  lemma Joined(top: int, next: int, shift: int, low: int)
    requires 0 <= top < shift && shift * low == 0x100 && low > 0
    ensures var b := (top + next * shift) % 0x100; b % shift == top && b / shift == next % low
  {
    Straddle(top, next, shift, low);
    Quotient((top + next * shift) % 0x100, shift, next % low, top);
    Remainder((top + next * shift) % 0x100, shift, next % low, top);
  }

  lemma StraddleBound(top: int, rest: int, shift: int, low: int)
    requires 0 <= top < shift && 0 <= rest < low && shift * low == 0x100
    ensures 0 <= top + rest * shift < 0x100
  {
    AtLeastTimes(low - 1 - rest, shift);
    assert (low - 1 - rest) * shift == low * shift - shift - rest * shift;
  }

  lemma AtLeastTimes(k: int, d: int)
    requires k >= 0 && d >= 0
    ensures k * d >= 0
  {
  }

  lemma Remainder(x: int, d: int, q: int, r: int)
    requires x == q * d + r && 0 <= r < d
    ensures x % d == r
  {
    Quotient(x, d, q, r);
  }

  lemma DivideTwice(x: int, a: int, b: int)
    requires a > 0 && b > 0
    ensures a * b > 0 && x / a / b == x / (a * b)
  {
    var y := x / a;
    AtLeast(a, b);
    assert y == b * (y / b) + y % b;
    Regroup(a, b, y / b);
    assert x == (y / b) * (a * b) + (a * (y % b) + x % a);
    AtLeastTimes(b - 1 - y % b, a);
    assert (b - 1 - y % b) * a == a * b - a - a * (y % b);
    AtLeastTimes(y % b, a);
    Quotient(x, a * b, y / b, a * (y % b) + x % a);
  }

  /** A limb as its low bits below c, one whole byte, and what is left on top. */
  lemma OneByte(x: int, c: int)
    requires c > 0
    ensures x == x % c + c * (x / c % 0x100) + (c * 0x100) * (x / (c * 0x100))
  {
    DivideTwice(x, c, 0x100);
    var y := x / c;
    Nest(x, c, y, x % c, y / 0x100, y % 0x100, y / 0x1_0000, y / 0x100 % 0x100);
  }

  /** ... or two whole bytes. */
  lemma TwoBytes(x: int, c: int)
    requires c > 0
    ensures x == x % c + c * (x / c % 0x100) + (c * 0x100) * (x / (c * 0x100) % 0x100)
      + (c * 0x1_0000) * (x / (c * 0x1_0000))
  {
    DivideTwice(x, c, 0x100);
    DivideTwice(x, c, 0x1_0000);
    var y := x / c;
    assert y / 0x100 / 0x100 == y / 0x1_0000;
    Nest(x, c, y, x % c, y / 0x100, y % 0x100, y / 0x1_0000, y / 0x100 % 0x100);
  }

  lemma Nest(x: int, c: int, y: int, r0: int, z: int, r1: int, w: int, r2: int)
    requires x == c * y + r0 && y == 0x100 * z + r1 && z == 0x100 * w + r2
    ensures x == r0 + c * r1 + (c * 0x100) * z
    ensures x == r0 + c * r1 + (c * 0x100) * r2 + (c * 0x1_0000) * w
  {
    assert c * y == c * (0x100 * z) + c * r1;
    Regroup(c, 0x100, z);
    assert (c * 0x100) * z == (c * 0x100) * (0x100 * w) + (c * 0x100) * r2;
    Regroup(c * 0x100, 0x100, w);
  }

  lemma ReadBack0(a: int, b: int, c: int, x: int)
    requires AreBytes(a, b, c, 0) && 0 <= x < RADIX
    requires a == x % 0x100 && b == x / 0x100 % 0x100 && c % 0x20 == x / 0x10000
    ensures Load3(a, b, c) % RADIX == x
  {
    TwoBytes(x, 0x1);
    Field3At0(a, b, c);
  }

  lemma ReadBack1(a: int, b: int, c: int, d: int, x: int)
    requires AreBytes(a, b, c, d) && 0 <= x < RADIX
    requires a / 0x20 == x % 0x8 && b == x / 0x8 % 0x100 && c == x / 0x800 % 0x100 && d % 0x4 == x / 0x80000
    ensures Load4(a, b, c, d) / 0x20 % RADIX == x
  {
    TwoBytes(x, 0x8);
    Field4At5(a, b, c, d);
  }

  lemma ReadBack2(a: int, b: int, c: int, x: int)
    requires AreBytes(a, b, c, 0) && 0 <= x < RADIX
    requires a / 0x4 == x % 0x40 && b == x / 0x40 % 0x100 && c % 0x80 == x / 0x4000
    ensures Load3(a, b, c) / 0x4 % RADIX == x
  {
    OneByte(x, 0x40);
    Field3At2(a, b, c);
  }

  lemma ReadBack3(a: int, b: int, c: int, d: int, x: int)
    requires AreBytes(a, b, c, d) && 0 <= x < RADIX
    requires a / 0x80 == x % 0x2 && b == x / 0x2 % 0x100 && c == x / 0x200 % 0x100 && d % 0x10 == x / 0x20000
    ensures Load4(a, b, c, d) / 0x80 % RADIX == x
  {
    assert a / 0x80 + b * 0x2 + c * 0x200 + d % 0x10 * 0x20000 == x by {
      TwoBytes(x, 0x2);
    }
    Field4At7(a, b, c, d);
  }

  lemma ReadBack4(a: int, b: int, c: int, d: int, x: int)
    requires AreBytes(a, b, c, d) && 0 <= x < RADIX
    requires a / 0x10 == x % 0x10 && b == x / 0x10 % 0x100 && c == x / 0x1000 % 0x100 && d % 0x2 == x / 0x100000
    ensures Load4(a, b, c, d) / 0x10 % RADIX == x
  {
    TwoBytes(x, 0x10);
    Field4At4(a, b, c, d);
  }

  lemma ReadBack5(a: int, b: int, c: int, x: int)
    requires AreBytes(a, b, c, 0) && 0 <= x < RADIX
    requires a / 0x2 == x % 0x80 && b == x / 0x80 % 0x100 && c % 0x40 == x / 0x8000
    ensures Load3(a, b, c) / 0x2 % RADIX == x
  {
    OneByte(x, 0x80);
    Field3At1(a, b, c);
  }

  lemma ReadBack6(a: int, b: int, c: int, d: int, x: int)
    requires AreBytes(a, b, c, d) && 0 <= x < RADIX
    requires a / 0x40 == x % 0x4 && b == x / 0x4 % 0x100 && c == x / 0x400 % 0x100 && d % 0x8 == x / 0x40000
    ensures Load4(a, b, c, d) / 0x40 % RADIX == x
  {
    TwoBytes(x, 0x4);
    Field4At6(a, b, c, d);
  }

  lemma ReadBack7(a: int, b: int, c: int, x: int)
    requires AreBytes(a, b, c, 0) && 0 <= x < RADIX
    requires a / 0x8 == x % 0x20 && b == x / 0x20 % 0x100 && c == x / 0x2000 % 0x100
    ensures Load3(a, b, c) / 0x8 % RADIX == x
  {
    assert a / 0x8 + b * 0x20 + c * 0x2000 == x by {
      TwoBytes(x, 0x20);
    }
    Field3At3(a, b, c);
  }

  lemma ReadBack11(a: int, b: int, c: int, d: int, x: int)
    requires AreBytes(a, b, c, d) && 0 <= x <= RADIX
    requires a / 0x80 == x % 0x2 && b == x / 0x2 % 0x100 && c == x / 0x200 % 0x100 && d == x / 0x20000
    ensures Load4(a, b, c, d) / 0x80 == x
  {
    TwoBytes(x, 0x2);
    Quotient(Load4(a, b, c, d), 0x80, x, a % 0x80);
  }

  /** The top of the last limb is a single byte. */
  lemma TopByte(x: int)
    requires 0 <= x <= RADIX
    ensures x / 0x20000 % 0x100 == x / 0x20000
  {
  }

  /** What `Pack` writes, in four parts. */
  predicate LowPacked(l: seq<int>, b: seq<int>)
    requires |l| == 12 && |b| == 32
  {
    && b[0] == l[0] % 0x100
    && b[1] == l[0] / 0x100 % 0x100
    && b[2] == (l[0] / 0x10000 + l[1] * 0x20) % 0x100
    && b[3] == l[1] / 0x8 % 0x100
    && b[4] == l[1] / 0x800 % 0x100
    && b[5] == (l[1] / 0x80000 + l[2] * 0x4) % 0x100
    && b[6] == l[2] / 0x40 % 0x100
  }

  predicate MiddlePacked(l: seq<int>, b: seq<int>)
    requires |l| == 12 && |b| == 32
  {
    && b[7] == (l[2] / 0x4000 + l[3] * 0x80) % 0x100
    && b[8] == l[3] / 0x2 % 0x100
    && b[9] == l[3] / 0x200 % 0x100
    && b[10] == (l[3] / 0x20000 + l[4] * 0x10) % 0x100
    && b[11] == l[4] / 0x10 % 0x100
    && b[12] == l[4] / 0x1000 % 0x100
    && b[13] == (l[4] / 0x100000 + l[5] * 0x2) % 0x100
  }

  predicate UpperPacked(l: seq<int>, b: seq<int>)
    requires |l| == 12 && |b| == 32
  {
    && b[14] == l[5] / 0x80 % 0x100
    && b[15] == (l[5] / 0x8000 + l[6] * 0x40) % 0x100
    && b[16] == l[6] / 0x4 % 0x100
    && b[17] == l[6] / 0x400 % 0x100
    && b[18] == (l[6] / 0x40000 + l[7] * 0x8) % 0x100
    && b[19] == l[7] / 0x20 % 0x100
    && b[20] == l[7] / 0x2000 % 0x100
  }

  lemma ReadBackLow(l: seq<int>, b: seq<int>)
    requires |l| == 12 && (forall i :: 0 <= i < 11 ==> 0 <= l[i] < RADIX) && 0 <= l[11] <= RADIX && |b| == 32
    requires LowPacked(l, b) && MiddlePacked(l, b) && UpperPacked(l, b)
    ensures Load3(b[0], b[1], b[2]) % RADIX == l[0]
    ensures Load4(b[2], b[3], b[4], b[5]) / 0x20 % RADIX == l[1]
    ensures Load3(b[5], b[6], b[7]) / 0x4 % RADIX == l[2]
    ensures Load4(b[7], b[8], b[9], b[10]) / 0x80 % RADIX == l[3]
    ensures Load4(b[10], b[11], b[12], b[13]) / 0x10 % RADIX == l[4]
    ensures Load3(b[13], b[14], b[15]) / 0x2 % RADIX == l[5]
    ensures Load4(b[15], b[16], b[17], b[18]) / 0x40 % RADIX == l[6]
    ensures Load3(b[18], b[19], b[20]) / 0x8 % RADIX == l[7]
  {
    Joined(l[0] / 0x10000, l[1], 0x20, 0x8);
    Joined(l[1] / 0x80000, l[2], 0x4, 0x40);
    Joined(l[2] / 0x4000, l[3], 0x80, 0x2);
    Joined(l[3] / 0x20000, l[4], 0x10, 0x10);
    Joined(l[4] / 0x100000, l[5], 0x2, 0x80);
    Joined(l[5] / 0x8000, l[6], 0x40, 0x4);
    Joined(l[6] / 0x40000, l[7], 0x8, 0x20);
    ReadBack0(b[0], b[1], b[2], l[0]);
    ReadBack1(b[2], b[3], b[4], b[5], l[1]);
    ReadBack2(b[5], b[6], b[7], l[2]);
    ReadBack3(b[7], b[8], b[9], b[10], l[3]);
    ReadBack4(b[10], b[11], b[12], b[13], l[4]);
    ReadBack5(b[13], b[14], b[15], l[5]);
    ReadBack6(b[15], b[16], b[17], b[18], l[6]);
    ReadBack7(b[18], b[19], b[20], l[7]);
  }

  predicate HighPacked(l: seq<int>, b: seq<int>)
    requires |l| == 12 && |b| == 32
  {
    && b[21] == l[8] % 0x100
    && b[22] == l[8] / 0x100 % 0x100
    && b[23] == (l[8] / 0x10000 + l[9] * 0x20) % 0x100
    && b[24] == l[9] / 0x8 % 0x100
    && b[25] == l[9] / 0x800 % 0x100
    && b[26] == (l[9] / 0x80000 + l[10] * 0x4) % 0x100
    && b[27] == l[10] / 0x40 % 0x100
    && b[28] == (l[10] / 0x4000 + l[11] * 0x80) % 0x100
    && b[29] == l[11] / 0x2 % 0x100
    && b[30] == l[11] / 0x200 % 0x100
    && b[31] == l[11] / 0x20000 % 0x100
  }

  lemma ReadBackHigh(l: seq<int>, b: seq<int>)
    requires |l| == 12 && (forall i :: 0 <= i < 11 ==> 0 <= l[i] < RADIX) && 0 <= l[11] <= RADIX && |b| == 32
    requires HighPacked(l, b)
    ensures Load3(b[21], b[22], b[23]) % RADIX == l[8]
    ensures Load4(b[23], b[24], b[25], b[26]) / 0x20 % RADIX == l[9]
    ensures Load3(b[26], b[27], b[28]) / 0x4 % RADIX == l[10]
    ensures Load4(b[28], b[29], b[30], b[31]) / 0x80 == l[11]
  {
    Joined(l[8] / 0x10000, l[9], 0x20, 0x8);
    Joined(l[9] / 0x80000, l[10], 0x4, 0x40);
    Joined(l[10] / 0x4000, l[11], 0x80, 0x2);
    TopByte(l[11]);
    ReadBack0(b[21], b[22], b[23], l[8]);
    ReadBack1(b[23], b[24], b[25], b[26], l[9]);
    ReadBack2(b[26], b[27], b[28], l[10]);
    ReadBack11(b[28], b[29], b[30], b[31], l[11]);
  }

  lemma PacksLow(l: seq<int>)
    requires |l| == 12
    ensures LowPacked(l, Pack(l))
  {
    var p, b := PackLow(l), Pack(l);
    assert forall i :: 0 <= i < 7 ==> b[i] == p[i - 0];
  }

  lemma PacksMiddle(l: seq<int>)
    requires |l| == 12
    ensures MiddlePacked(l, Pack(l))
  {
    var p, b := PackMiddle(l), Pack(l);
    assert forall i :: 7 <= i < 14 ==> b[i] == p[i - 7];
  }

  lemma PacksUpper(l: seq<int>)
    requires |l| == 12
    ensures UpperPacked(l, Pack(l))
  {
    var p, b := PackUpper(l), Pack(l);
    assert forall i :: 14 <= i < 21 ==> b[i] == p[i - 14];
  }

  lemma PacksHigh(l: seq<int>)
    requires |l| == 12
    ensures HighPacked(l, Pack(l))
  {
    var p, b := PackHigh(l), Pack(l);
    assert forall i :: 21 <= i < 32 ==> b[i] == p[i - 21];
  }

  /** Reading what was written gives the limbs back. */
  lemma ReadBack(l: seq<int>)
    requires |l| == 12 && (forall i :: 0 <= i < 11 ==> 0 <= l[i] < RADIX) && 0 <= l[11] <= RADIX
    ensures Unpack(Pack(l)) == l + [0]
  {
    var b := Pack(l);
    PacksLow(l);
    PacksMiddle(l);
    PacksUpper(l);
    PacksHigh(l);
    ReadBackLow(l, b);
    ReadBackHigh(l, b);
    UnpackIs(b, l);
  }

  lemma UnpackIs(b: seq<int>, l: seq<int>)
    requires |b| == 32 && |l| == 12
    requires
      && Load3(b[0], b[1], b[2]) % RADIX == l[0]
      && Load4(b[2], b[3], b[4], b[5]) / 0x20 % RADIX == l[1]
      && Load3(b[5], b[6], b[7]) / 0x4 % RADIX == l[2]
      && Load4(b[7], b[8], b[9], b[10]) / 0x80 % RADIX == l[3]
      && Load4(b[10], b[11], b[12], b[13]) / 0x10 % RADIX == l[4]
      && Load3(b[13], b[14], b[15]) / 0x2 % RADIX == l[5]
      && Load4(b[15], b[16], b[17], b[18]) / 0x40 % RADIX == l[6]
      && Load3(b[18], b[19], b[20]) / 0x8 % RADIX == l[7]
      && Load3(b[21], b[22], b[23]) % RADIX == l[8]
      && Load4(b[23], b[24], b[25], b[26]) / 0x20 % RADIX == l[9]
      && Load3(b[26], b[27], b[28]) / 0x4 % RADIX == l[10]
      && Load4(b[28], b[29], b[30], b[31]) / 0x80 == l[11]
    ensures Unpack(b) == l + [0]
  {
  }

  lemma PackIsBytes(l: seq<int>)
    requires |l| == 12
    ensures |Pack(l)| == 32 && IsBytes(Pack(l))
  {
    assert IsBytes(PackLow(l)) && IsBytes(PackMiddle(l)) && IsBytes(PackUpper(l)) && IsBytes(PackHigh(l));
  }

  /** Writing the bytes loses nothing. */
  lemma PackValue(l: seq<int>)
    requires |l| == 12 && (forall i :: 0 <= i < 11 ==> 0 <= l[i] < RADIX) && 0 <= l[11] <= RADIX
    ensures LittleEndian(Pack(l)) == Value(l)
  {
    ReadBack(l);
    PackIsBytes(l);
    UnpackValue(Pack(l));
    ZeroOnTop(l);
  }

  lemma ZeroOnTop(l: seq<int>)
    ensures Value(l + [0]) == Value(l)
  {
    LimbsAppend(l, [0]);
    assert Value([0]) == 0;
  }

  // ---------------------------------------------------------------- the whole reduction

  /** The twelve rounding carries, even limbs first. */
  method CarryRounding(l0: seq<int>, ghost v: int) returns (l: seq<int>)
    requires EvenState(l0, 0, v)
    ensures OddState(l, 13, v)
  {
    l := CarryEven(l0, 0, v);
    l := CarryEven(l, 2, v);
    l := CarryEven(l, 4, v);
    l := CarryEven(l, 6, v);
    l := CarryEven(l, 8, v);
    l := CarryEven(l, 10, v);
    l := CarryOdd(l, 1, v);
    l := CarryOdd(l, 3, v);
    l := CarryOdd(l, 5, v);
    l := CarryOdd(l, 7, v);
    l := CarryOdd(l, 9, v);
    l := CarryOdd(l, 11, v);
  }

  /** The first eleven carries that round down. */
  method CarryDown(l0: seq<int>, ghost v: int) returns (l: seq<int>)
    requires 12 <= |l0| && FloorState(l0, 0, v)
    ensures |l| == |l0| && FloorState(l, 11, v)
  {
    l := CarryFloor(l0, 0, v);
    l := CarryFloor(l, 1, v);
    l := CarryFloor(l, 2, v);
    l := CarryFloor(l, 3, v);
    l := CarryFloor(l, 4, v);
    l := CarryFloor(l, 5, v);
    l := CarryFloor(l, 6, v);
    l := CarryFloor(l, 7, v);
    l := CarryFloor(l, 8, v);
    l := CarryFloor(l, 9, v);
    l := CarryFloor(l, 10, v);
  }

  lemma UnpackState(b: seq<int>)
    requires |b| == 32 && IsBytes(b)
    ensures EvenState(Unpack(b), 0, LittleEndian(b))
  {
    UnpackValue(b);
    LowNested(b);
    HighNested(b);
    InitialState(Unpack(b), LittleEndian(b));
  }

  lemma InitialState(l: seq<int>, v: int)
    requires |l| == 13 && Value(l) == v && l[12] == 0 && 0 <= l[11] < 0x200_0000
    requires (forall i :: 0 <= i < 8 ==> 0 <= l[i] < RADIX) && (forall i :: 8 <= i < 11 ==> 0 <= l[i] < RADIX)
    ensures EvenState(l, 0, v)
  {
  }

  lemma FoldedState(l: seq<int>, v: int)
    requires OddState(l, 13, v) && FoldFits(l)
    ensures FloorState(Fold(l)[12 := 0], 0, v - l[12] * GROUP_ORDER)
  {
    var r := Fold(l);
    ZeroOnTop(r[..12]);
    assert r[12 := 0] == r[..12] + [0];
  }

  /** Fold, clear the thirteenth limb, and carry down. */
  method FoldRounded(l0: seq<int>, ghost v: int) returns (l: seq<int>, ghost q: int)
    requires OddState(l0, 13, v)
    ensures |l| == 13 && FloorState(l, 12, v - q * GROUP_ORDER)
    ensures -Power(RADIX, 12) < v - q * GROUP_ORDER < Power(RADIX, 12)
  {
    FirstFold(l0, v);
    FoldedState(l0, v);
    q := l0[12];
    l := Fold(l0);
    l := l[12 := 0];
    l := CarryDown(l, v - q * GROUP_ORDER);
    l := CarryFloor(l, 11, v - q * GROUP_ORDER);
  }

  /** Fold once more and carry down; the thirteenth limb is not used again. */
  method FoldReduced(l0: seq<int>, ghost v: int) returns (l: seq<int>, ghost q: int)
    requires |l0| == 13 && FloorState(l0, 12, v) && -Power(RADIX, 12) < v < Power(RADIX, 12)
    ensures |l| == 12 && FloorState(l, 11, v - q * GROUP_ORDER) && 0 <= v - q * GROUP_ORDER < GROUP_ORDER
  {
    SecondFold(l0, v);
    q := l0[12];
    l := Fold(l0);
    l := CarryDown(l[..12], v - q * GROUP_ORDER);
  }

  method Reduce(b: seq<int>) returns (r: seq<int>)
    requires |b| == 32 && IsBytes(b)
    ensures |r| == 32 && IsBytes(r) && LittleEndian(r) == LittleEndian(b) % GROUP_ORDER
  {
    ghost var v, q1, q2 := LittleEndian(b), 0, 0;
    UnpackState(b);
    var l := CarryRounding(Unpack(b), v);
    l, q1 := FoldRounded(l, v);
    l, q2 := FoldReduced(l, v - q1 * GROUP_ORDER);
    ReducedLimbs(l, v - q1 * GROUP_ORDER - q2 * GROUP_ORDER);
    PackIsBytes(l);
    PackValue(l);
    r := Pack(l);
    Remainder(v, GROUP_ORDER, q1 + q2, v - q1 * GROUP_ORDER - q2 * GROUP_ORDER);
  }

  /** `scReduce32`: the bytes become those of the number modulo the group order. Anything shorter
      than 32 bytes panics. */
  method ScReduce32(s: array<Byte>)
    requires s.Length >= 32
    modifies s
    ensures LittleEndian(s[..32]) == LittleEndian(old(s[..32])) % GROUP_ORDER
    ensures s[32..] == old(s[32..])
  {
    var r := Reduce(s[..32]);
    forall i | 0 <= i < 32 {
      s[i] := r[i];
    }
    assert s[..32] == r;
  }

  // ---------------------------------------------------------------- comparison with the limit

  lemma {:induction false} HighByteDecides(a: seq<int>, b: seq<int>, n: nat)
    requires |a| == |b| && n < |a| && IsBytes(a) && IsBytes(b)
    requires a[n] < b[n] && a[n + 1..] == b[n + 1..]
    ensures LittleEndian(a) < LittleEndian(b)
  {
    if n > 0 {
      assert a[1..][n..] == a[n + 1..] && b[1..][n..] == b[n + 1..];
      HighByteDecides(a[1..], b[1..], n - 1);
    }
  }

  /** `less32`: the order of the first 32 bytes as numbers. Anything shorter panics. */
  method Less32(a: seq<Byte>, b: seq<Byte>) returns (less: bool)
    requires |a| >= 32 && |b| >= 32
    ensures less <==> LittleEndian(a[..32]) < LittleEndian(b[..32])
  {
    var n := 32;
    while n > 0
      invariant 0 <= n <= 32 && a[..32][n..] == b[..32][n..]
    {
      n := n - 1;
      if a[n] < b[n] {
        HighByteDecides(a[..32], b[..32], n);
        return true;
      } else if a[n] > b[n] {
        HighByteDecides(b[..32], a[..32], n);
        return false;
      }
      assert a[..32][n..] == [a[n]] + a[..32][n + 1..] && b[..32][n..] == [b[n]] + b[..32][n + 1..];
    }
    assert a[..32] == b[..32];
    return false;
  }

  /** The bound of rejection sampling. */
  const LIMIT: seq<Byte> := [
    0xe3, 0x6a, 0x67, 0x72, 0x8b, 0xce, 0x13, 0x29, 0x8f, 0x30, 0x82, 0x8c, 0x0b, 0xa4, 0x10, 0x39,
    0x01, 0x00, 0x00, 0x00, 0x00, 0x00, 0x00, 0x00, 0x00, 0x00, 0x00, 0x00, 0x00, 0x00, 0x00, 0xf0]

  lemma LimitLow()
    ensures |LIMIT| == 32 && LittleEndian(LIMIT[..21]) == 0x1_3910_a40b_8c82_308f_2913_ce8b_7267_6ae3
  {
    TwentyOneBytes(LIMIT[..21]);
  }

  lemma LimitHigh()
    ensures |LIMIT| == 32 && LittleEndian(LIMIT[21..]) == 0xf0_0000_0000_0000_0000_0000
  {
    var high: seq<int> := LIMIT[21..];
    assert high[10] == 0xf0 && forall i :: 0 <= i < 10 ==> high[i] == 0;
    ElevenBytes(high);
  }

  lemma LimitValue()
    ensures LittleEndian(LIMIT) == 15 * GROUP_ORDER
  {
    LimitLow();
    LimitHigh();
    assert LIMIT == LIMIT[..21] + LIMIT[21..];
    BytesAppend(LIMIT[..21], LIMIT[21..]);
    EightLimbsAre21Bytes();
  }

  lemma ThirtyTwoBytes()
    ensures 15 * GROUP_ORDER < Power(0x100, 32) < 16 * GROUP_ORDER
  {
    EightLimbsAre21Bytes();
    assert Power(0x100, 11) == 0x100_0000_0000_0000_0000_0000;
    PowerAdds(0x100, 21, 11);
  }

  /** The limit is the greatest multiple of the group order that fits 32 bytes. */
  lemma LimitIsGreatestMultiple(k: nat)
    ensures LittleEndian(LIMIT) == 15 * GROUP_ORDER
    ensures k * GROUP_ORDER < Power(0x100, 32) <==> k <= 15
  {
    LimitValue();
    ThirtyTwoBytes();
    if k > 15 {
      AtLeastTimes(k - 16, GROUP_ORDER);
    } else {
      AtLeastTimes(15 - k, GROUP_ORDER);
    }
  }

  lemma {:induction false} PowerAdds(x: int, a: nat, b: nat)
    ensures Power(x, a + b) == Power(x, a) * Power(x, b)
  {
    if a > 0 {
      PowerAdds(x, a - 1, b);
      Regroup(x, Power(x, a - 1), Power(x, b));
    }
  }
}
