/** The side-chain part of a pool block and its encodings (p2pool/sidechain/sidedata.go). */
module SideData {
  import opened Bytes
  import opened Outputs
  import opened MainBlock

  /** Difficulties are pairs of 64-bit halves. The last four fields exist from share version 2 on. */
  datatype Side = Side(
    spendKey: Bytes32,
    viewKey: Bytes32,
    privateKeySeed: Bytes32,
    privateKey: Bytes32,
    parent: Bytes32,
    uncles: seq<Bytes32>,
    height: nat,
    difficultyLo: nat,
    difficultyHi: nat,
    cumulativeLo: nat,
    cumulativeHi: nat,
    software: Software)

  datatype Software = Software(id: nat, version: nat, randomNumber: nat, extraNonce: nat)

  const NO_SOFTWARE := Software(0, 0, 0, 0)

  // ---------------------------------------------------------------- writing

  function PutKeys(s: Side, v2: bool): Data {
    s.spendKey + (s.viewKey + ((if v2 then s.privateKeySeed else s.privateKey) + s.parent))
  }

  function PutUncles(us: seq<Bytes32>): Data { PutUvarint(|us|) + PutHashes(us) }

  function PutNumbers(s: Side): Data {
    PutUvarint(s.height) + (PutPair(s.difficultyLo, s.difficultyHi) + PutPair(s.cumulativeLo, s.cumulativeHi))
  }

  function PutPair(lo: nat, hi: nat): Data { PutUvarint(lo) + PutUvarint(hi) }

  function PutSoftware(w: Software): Data {
    PutUint32(w.id) + (PutUint32(w.version) + (PutUint32(w.randomNumber) + PutUint32(w.extraNonce)))
  }

  function PutSide(s: Side, v2: bool): Data {
    PutKeys(s, v2) + (PutUncles(s.uncles) + (PutNumbers(s) + if v2 then PutSoftware(s.software) else []))
  }

  /** `SideData.AppendBinary`. */
  method AppendSide(buf: Data, s: Side, v2: bool) returns (data: Data)
    ensures data == buf + PutSide(s, v2)
  {
    var tail := PutNumbers(s) + if v2 then PutSoftware(s.software) else [];
    data := buf + PutKeys(s, v2);
    ghost var before := data;
    data := data + PutUvarint(|s.uncles|);
    for i := 0 to |s.uncles|
      invariant data + PutHashes(s.uncles[i..]) == before + PutUncles(s.uncles)
    {
      assert s.uncles[i..][1..] == s.uncles[i + 1..];
      Cat(data, s.uncles[i], PutHashes(s.uncles[i + 1..]));
      data := data + s.uncles[i];
    }
    assert data + [] == data;
    data := data + tail;
    Cat(buf, PutKeys(s, v2), PutUncles(s.uncles));
    Cat(buf, PutKeys(s, v2) + PutUncles(s.uncles), tail);
    Cat(PutKeys(s, v2), PutUncles(s.uncles), tail);
  }

  /** `SideData.BufferLength`. */
  function SideLength(s: Side): nat {
    32 + 32 + 32 + 32 + UVarInt64Size(|s.uncles|) + |s.uncles| * 32 + UVarInt64Size(s.height)
      + UVarInt64Size(s.difficultyLo) + UVarInt64Size(s.difficultyHi)
      + UVarInt64Size(s.cumulativeLo) + UVarInt64Size(s.cumulativeHi) + 4 * 4
  }

  predicate SideOk(s: Side) {
    && |s.uncles| < 0x8000_0000_0000_0000
    && s.height < MAX64
    && s.difficultyLo < MAX64
    && s.difficultyHi < MAX64
    && s.cumulativeLo < MAX64
    && s.cumulativeHi < MAX64
    && s.software.id < 0x1_0000_0000
    && s.software.version < 0x1_0000_0000
    && s.software.randomNumber < 0x1_0000_0000
    && s.software.extraNonce < 0x1_0000_0000
  }

  /** Exact for version 2, sixteen too many for version 1. */
  lemma SideLengthIsLength(s: Side, v2: bool)
    requires SideOk(s)
    ensures SideLength(s) == |PutSide(s, v2)| + if v2 then 0 else 16
  {
    SizeIsLength(|s.uncles|);
    HashesLength(s.uncles);
    SizeIsLength(s.height);
    SizeIsLength(s.difficultyLo);
    SizeIsLength(s.difficultyHi);
    SizeIsLength(s.cumulativeLo);
    SizeIsLength(s.cumulativeHi);
  }

  // ---------------------------------------------------------------- reading

  const NO_SIDE := Side(ZERO32, ZERO32, ZERO32, ZERO32, ZERO32, [], 0, 0, 0, 0, 0, NO_SOFTWARE)

  function ReadKeys(input: Data, v2: bool): Parsed<Side> {
    match ReadFull(input, 4 * 32)
    case Failed => Failed
    case Parsed(k, rest) =>
      var s := NO_SIDE.(spendKey := k[..32], viewKey := k[32..64], parent := k[96..]);
      Parsed(if v2 then s.(privateKeySeed := k[64..96]) else s.(privateKey := k[64..96]), rest)
  }

  function ReadUncles(input: Data): Parsed<seq<Bytes32>> {
    match ReadUvarint(input)
    case Failed => Failed
    case Parsed(count, r1) => ReadHashes(r1, 0, LoopBound(count))
  }

  /** A 128-bit number, low half first. */
  function ReadPair(input: Data): Parsed<(nat, nat)> {
    match ReadUvarint(input)
    case Failed => Failed
    case Parsed(lo, r1) =>
      match ReadUvarint(r1)
      case Failed => Failed
      case Parsed(hi, r2) => Parsed((lo, hi), r2)
  }

  function ReadNumbers(s: Side, input: Data): Parsed<Side> {
    match ReadUvarint(input)
    case Failed => Failed
    case Parsed(height, r1) =>
      match ReadPair(r1)
      case Failed => Failed
      case Parsed(d, r2) =>
        match ReadPair(r2)
        case Failed => Failed
        case Parsed(c, r3) =>
          Parsed(s.(height := height, difficultyLo := d.0, difficultyHi := d.1,
                    cumulativeLo := c.0, cumulativeHi := c.1), r3)
  }

  function ReadSoftware(input: Data): Parsed<Software> {
    match ReadUint32(input)
    case Failed => Failed
    case Parsed(id, r1) =>
      match ReadUint32(r1)
      case Failed => Failed
      case Parsed(version, r2) =>
        match ReadUint32(r2)
        case Failed => Failed
        case Parsed(randomNumber, r3) =>
          match ReadUint32(r3)
          case Failed => Failed
          case Parsed(extraNonce, r4) => Parsed(Software(id, version, randomNumber, extraNonce), r4)
  }

  /** `SideData.FromReader`. */
  function ReadSide(input: Data, v2: bool): Parsed<Side> {
    match ReadKeys(input, v2)
    case Failed => Failed
    case Parsed(keys, r1) =>
      match ReadUncles(r1)
      case Failed => Failed
      case Parsed(uncles, r2) =>
        match ReadNumbers(keys.(uncles := uncles), r2)
        case Failed => Failed
        case Parsed(s, r3) =>
          if !v2 then Parsed(s, r3)
          else
            match ReadSoftware(r3)
            case Failed => Failed
            case Parsed(w, r4) => Parsed(s.(software := w), r4)
  }

  // ---------------------------------------------------------------- round trip

  /** What a version writes: the seed or the key, and the software only from version 2 on. */
  function Serialised(s: Side, v2: bool): Side {
    if v2 then s.(privateKey := ZERO32) else s.(privateKeySeed := ZERO32, software := NO_SOFTWARE)
  }

  lemma KeysBack(s: Side, v2: bool, rest: Data)
    ensures ReadKeys(PutKeys(s, v2) + rest, v2) ==
      var k := NO_SIDE.(spendKey := s.spendKey, viewKey := s.viewKey, parent := s.parent);
      Parsed(if v2 then k.(privateKeySeed := s.privateKeySeed) else k.(privateKey := s.privateKey), rest)
  {
    var key: Bytes32 := if v2 then s.privateKeySeed else s.privateKey;
    var k := PutKeys(s, v2);
    assert k[..32] == s.spendKey && k[32..64] == s.viewKey && k[64..96] == key && k[96..] == s.parent;
    ReadFullBack(k, rest);
  }

  lemma UnclesBack(us: seq<Bytes32>, rest: Data)
    requires |us| < 0x8000_0000_0000_0000
    ensures ReadUncles(PutUncles(us) + rest) == Parsed(us, rest)
  {
    Cat(PutUvarint(|us|), PutHashes(us), rest);
    UvarintBack(|us|, PutHashes(us) + rest);
    HashesBack(us, 0, |us|, rest);
  }

  lemma NumbersBack(k: Side, s: Side, rest: Data)
    requires SideOk(s)
    ensures ReadNumbers(k, PutNumbers(s) + rest) == Parsed(
      k.(height := s.height, difficultyLo := s.difficultyLo, difficultyHi := s.difficultyHi,
         cumulativeLo := s.cumulativeLo, cumulativeHi := s.cumulativeHi), rest)
  {
    var h, d, c := PutUvarint(s.height), PutPair(s.difficultyLo, s.difficultyHi),
      PutPair(s.cumulativeLo, s.cumulativeHi);
    Cat(h, d + c, rest);
    Cat(d, c, rest);
    UvarintBack(s.height, d + (c + rest));
    PairBack(s.difficultyLo, s.difficultyHi, c + rest);
    PairBack(s.cumulativeLo, s.cumulativeHi, rest);
  }

  lemma PairBack(lo: nat, hi: nat, rest: Data)
    requires lo < MAX64 && hi < MAX64
    ensures ReadPair(PutPair(lo, hi) + rest) == Parsed((lo, hi), rest)
  {
    Cat(PutUvarint(lo), PutUvarint(hi), rest);
    UvarintBack(lo, PutUvarint(hi) + rest);
    UvarintBack(hi, rest);
  }

  lemma SoftwareBack(s: Side, rest: Data)
    requires SideOk(s)
    ensures ReadSoftware(PutSoftware(s.software) + rest) == Parsed(s.software, rest)
  {
    var w := s.software;
    var a, b, c, d := PutUint32(w.id), PutUint32(w.version), PutUint32(w.randomNumber), PutUint32(w.extraNonce);
    Cat(a, b + (c + d), rest);
    Cat(b, c + d, rest);
    Cat(c, d, rest);
    Uint32Back(w.id, b + (c + (d + rest)));
    Uint32Back(w.version, c + (d + rest));
    Uint32Back(w.randomNumber, d + rest);
    Uint32Back(w.extraNonce, rest);
  }

  lemma ComposeSide(input: Data, r1: Data, r2: Data, r3: Data, rest: Data, v2: bool, k: Side, us: seq<Bytes32>,
                    n: Side, w: Software)
    requires ReadKeys(input, v2) == Parsed(k, r1) && ReadUncles(r1) == Parsed(us, r2)
    requires ReadNumbers(k.(uncles := us), r2) == Parsed(n, r3)
    requires if v2 then ReadSoftware(r3) == Parsed(w, rest) else rest == r3
    ensures ReadSide(input, v2) == Parsed(if v2 then n.(software := w) else n, rest)
  {
  }

  /** Decoding restores everything the version writes. */
  lemma SideBack(s: Side, v2: bool, rest: Data)
    requires SideOk(s)
    ensures ReadSide(PutSide(s, v2) + rest, v2) == Parsed(Serialised(s, v2), rest)
  {
    var a, b, c, d := PutKeys(s, v2), PutUncles(s.uncles), PutNumbers(s), if v2 then PutSoftware(s.software) else [];
    Cat(a, b + (c + d), rest);
    Cat(b, c + d, rest);
    Cat(c, d, rest);
    KeysBack(s, v2, b + (c + (d + rest)));
    UnclesBack(s.uncles, c + (d + rest));
    var k := NO_SIDE.(spendKey := s.spendKey, viewKey := s.viewKey, parent := s.parent);
    var k' := if v2 then k.(privateKeySeed := s.privateKeySeed) else k.(privateKey := s.privateKey);
    NumbersBack(k'.(uncles := s.uncles), s, d + rest);
    if v2 {
      SoftwareBack(s, rest);
    } else {
      assert d + rest == rest;
    }
    ComposeSide(PutSide(s, v2) + rest, b + (c + (d + rest)), c + (d + rest), d + rest, rest, v2, k', s.uncles,
                Serialised(s, v2).(software := NO_SOFTWARE), s.software);
  }
}
