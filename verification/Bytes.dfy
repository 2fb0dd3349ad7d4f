/** Bytes, what reading them gives, and variable-length integers: unsigned LEB128 of section 7.6 of
    DWARF Version 5, limited to 64 bits, as the Go standard library reads and writes them. */
module Bytes {
  type Byte = x: int | 0 <= x < 256

  type Data = seq<Byte>

  /** A hash, a key, or any other string of 32 bytes. */
  type Bytes32 = s: Data | |s| == 32 ghost witness seq(32, _ => 0)

  const MAX64: nat := 0x1_0000_0000_0000_0000

  /** What a read gives: a value and the bytes after it, or an error. */
  datatype Parsed<+T> = Parsed(value: T, rest: Data) | Failed

  function ReadByte(input: Data): Parsed<Byte> {
    if input == [] then Failed else Parsed(input[0], input[1..])
  }

  /** `io.ReadFull`. */
  function ReadFull(input: Data, n: nat): (r: Parsed<Data>)
    ensures r.Parsed? ==> |r.value| == n
  {
    if |input| < n then Failed else Parsed(input[..n], input[n..])
  }

  lemma Cat(a: Data, b: Data, c: Data)
    ensures (a + b) + c == a + (b + c)
  {
  }

  lemma ReadByteBack(b: Byte, rest: Data)
    ensures ReadByte([b] + rest) == Parsed(b, rest)
  {
    assert ([b] + rest)[1..] == rest;
  }

  lemma ReadFullBack(s: Data, rest: Data)
    ensures ReadFull(s + rest, |s|) == Parsed(s, rest)
  {
    assert (s + rest)[..|s|] == s && (s + rest)[|s|..] == rest;
  }

  // ---------------------------------------------------------------- numbers in little-endian order

  function LittleEndian(s: seq<int>): int {
    if s == [] then 0 else s[0] + 0x100 * LittleEndian(s[1..])
  }

  /** The lowest `n` bytes of a number. */
  function Spelled(x: nat, n: nat): (r: Data)
    ensures |r| == n
  {
    if n == 0 then [] else [x % 0x100] + Spelled(x / 0x100, n - 1)
  }

  lemma {:induction false} SpelledBack(s: Data)
    ensures LittleEndian(s) >= 0 && Spelled(LittleEndian(s), |s|) == s
  {
    if s != [] {
      SpelledBack(s[1..]);
      var x := LittleEndian(s);
      assert x % 0x100 == s[0] && x / 0x100 == LittleEndian(s[1..]);
      assert s == [s[0]] + s[1..];
    }
  }

  // ---------------------------------------------------------------- four-byte integers

  function PutUint32(x: nat): (r: Data)
    ensures |r| == 4
  {
    [x % 0x100, x / 0x100 % 0x100, x / 0x1_0000 % 0x100, x / 0x100_0000 % 0x100]
  }

  function ReadUint32(input: Data): Parsed<int> {
    match ReadFull(input, 4)
    case Failed => Failed
    case Parsed(s, rest) => Parsed(Join4(s[0], s[1], s[2], s[3]), rest)
  }

  function Join4(a: int, b: int, c: int, d: int): int { a + 0x100 * b + 0x1_0000 * c + 0x100_0000 * d }

  lemma Uint32Digits(x: nat)
    requires x < 0x1_0000_0000
    ensures Join4(x % 0x100, x / 0x100 % 0x100, x / 0x1_0000 % 0x100, x / 0x100_0000 % 0x100) == x
  {
    var y := x / 0x100;
    assert y / 0x100 == x / 0x1_0000;
    var z := y / 0x100;
    assert z / 0x100 == x / 0x100_0000 && z / 0x100 < 0x100;
  }

  lemma Uint32Back(x: nat, rest: Data)
    requires x < 0x1_0000_0000
    ensures ReadUint32(PutUint32(x) + rest) == Parsed(x, rest)
  {
    ReadFullBack(PutUint32(x), rest);
    Uint32Digits(x);
  }

  // ---------------------------------------------------------------- variable-length integers

  function PutUvarint(x: nat): (r: Data)
    ensures |r| >= 1
  {
    if x < 0x80 then [x] else [x % 0x80 + 0x80] + PutUvarint(x / 0x80)
  }

  /** Reading from the i-th byte on; more than 64 bits are an error. */
  function ReadUvarintFrom(input: Data, i: nat): Parsed<nat>
    decreases 10 - i
  {
    if i >= 10 || input == [] then Failed
    else if input[0] < 0x80 then if i == 9 && input[0] > 1 then Failed else Parsed(input[0], input[1..])
    else
      match ReadUvarintFrom(input[1..], i + 1)
      case Failed => Failed
      case Parsed(high, rest) => Parsed(input[0] - 0x80 + 0x80 * high, rest)
  }

  function ReadUvarint(input: Data): Parsed<nat> { ReadUvarintFrom(input, 0) }

  /** How much still fits from the i-th byte on. */
  function Room(i: nat): nat
    requires i <= 9
    decreases 9 - i
  {
    if i == 9 then 2 else 0x80 * Room(i + 1)
  }

  lemma {:induction false} UvarintBackFrom(x: nat, i: nat, rest: Data)
    requires i <= 9 && x < Room(i)
    ensures ReadUvarintFrom(PutUvarint(x) + rest, i) == Parsed(x, rest)
    decreases x
  {
    var written := PutUvarint(x) + rest;
    if x < 0x80 {
      assert written[1..] == rest;
    } else {
      assert i < 9;
      assert written[1..] == PutUvarint(x / 0x80) + rest;
      UvarintBackFrom(x / 0x80, i + 1, rest);
    }
  }

  lemma RoomIs64Bits()
    ensures Room(0) == MAX64
  {
    assert Room(5) == 0x80 * 0x80 * 0x80 * 0x80 * 2;
  }

  lemma UvarintBack(x: nat, rest: Data)
    requires x < MAX64
    ensures ReadUvarint(PutUvarint(x) + rest) == Parsed(x, rest)
  {
    RoomIs64Bits();
    UvarintBackFrom(x, 0, rest);
  }

  /** `UVarInt64Size`. */
  function UVarInt64Size(x: nat): nat {
    if x < 0x80 then 1
    else if x < 0x4000 then 2
    else if x < 0x20_0000 then 3
    else if x < 0x1000_0000 then 4
    else if x < 0x8_0000_0000 then 5
    else if x < 0x400_0000_0000 then 6
    else if x < 0x2_0000_0000_0000 then 7
    else if x < 0x100_0000_0000_0000 then 8
    else if x < 0x8000_0000_0000_0000 then 9
    else 10
  }

  function Power128(k: nat): nat {
    if k == 0 then 1 else 0x80 * Power128(k - 1)
  }

  lemma {:induction false} DigitsOfUvarint(x: nat, k: nat)
    requires k >= 1 && x < Power128(k) && (k == 1 || x >= Power128(k - 1))
    ensures |PutUvarint(x)| == k
  {
    if k > 1 {
      assert x >= 0x80 by {
        PowerGrows(k - 1);
      }
      DigitsOfUvarint(x / 0x80, k - 1);
    }
  }

  lemma {:induction false} PowerGrows(k: nat)
    requires k >= 1
    ensures Power128(k) >= 0x80
  {
    if k > 1 {
      PowerGrows(k - 1);
    }
  }

  /** The size is the length of what is written. */
  lemma SizeIsLength(x: nat)
    requires x < MAX64
    ensures UVarInt64Size(x) == |PutUvarint(x)|
  {
    Powers();
    DigitsOfUvarint(x, UVarInt64Size(x));
  }

  lemma Powers()
    ensures Power128(1) == 0x80 && Power128(2) == 0x4000 && Power128(3) == 0x20_0000 && Power128(4) == 0x1000_0000
    ensures Power128(5) == 0x8_0000_0000 && Power128(6) == 0x400_0000_0000 && Power128(7) == 0x2_0000_0000_0000
    ensures Power128(8) == 0x100_0000_0000_0000 && Power128(9) == 0x8000_0000_0000_0000
    ensures Power128(10) == 0x40_0000_0000_0000_0000
  {
  }
}
