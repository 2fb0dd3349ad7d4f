/** What decoding admits. Whatever is read from any bytes is a proper block, except for what reading
    tolerates, and can be written and read again without change
    (p2pool/sidechain/poolblock.go, p2pool/sidechain/sidedata.go, monero/block/block.go,
    monero/transaction). */
module Decoding {
  import opened Blocks
  import opened Bytes
  import opened Outputs
  import opened ExtraTags
  import opened Coinbase
  import opened MainBlock
  import opened SideData
  import opened Templates
  import opened WireFormat

  // ---------------------------------------------------------------- variable-length integers

  /** From the i-th byte on: n bytes, all but the last with the top bit set, at most ten in all, of which
      the tenth is at most one. */
  ghost predicate Varint(input: Data, i: nat, n: nat) {
    && 1 <= n <= |input|
    && i + n <= 10
    && (forall k :: 0 <= k < n - 1 ==> input[k] >= 0x80)
    && input[n - 1] < 0x80
    && (i + n == 10 ==> input[n - 1] <= 1)
  }

  lemma {:induction false} ReadIsVarint(input: Data, i: nat) returns (n: nat)
    requires ReadUvarintFrom(input, i).Parsed?
    ensures Varint(input, i, n)
    decreases 10 - i
  {
    n := 1;
    if input[0] >= 0x80 {
      n := ReadIsVarint(input[1..], i + 1);
      assert forall k :: 1 <= k < n + 1 ==> input[k] == input[1..][k - 1];
      n := n + 1;
    }
  }

  lemma {:induction false} VarintIsRead(input: Data, i: nat, n: nat)
    requires Varint(input, i, n)
    ensures ReadUvarintFrom(input, i) == Parsed(DigitSum(input[..n]), input[n..])
    decreases n
  {
    var first := input[..n];
    if n > 1 {
      var more := input[1..];
      assert forall k :: 0 <= k < n - 1 ==> more[k] == input[k + 1];
      VarintIsRead(more, i + 1, n - 1);
      assert more[..n - 1] == first[1..] && more[n - 1..] == input[n..];
      assert input[0] >= 0x80;
    } else {
      assert first == [input[0]] && DigitSum(first[1..]) == 0;
    }
  }

  /** Reading succeeds exactly on such bytes, gives their value, and leaves what follows. */
  lemma UvarintIff(input: Data)
    ensures ReadUvarint(input).Parsed? <==> exists n: nat :: Varint(input, 0, n)
    ensures forall n: nat :: Varint(input, 0, n) ==> ReadUvarint(input) == Parsed(DigitSum(input[..n]), input[n..])
  {
    if ReadUvarint(input).Parsed? {
      var n := ReadIsVarint(input, 0);
    }
    forall n: nat | Varint(input, 0, n) ensures ReadUvarint(input) == Parsed(DigitSum(input[..n]), input[n..]) {
      VarintIsRead(input, 0, n);
    }
  }

  /** What is read fits 64 bits, and no shorter encoding than the one written exists. */
  lemma {:induction false} UvarintFits(input: Data, i: nat)
    requires ReadUvarintFrom(input, i).Parsed?
    ensures var p := ReadUvarintFrom(input, i);
      i <= 9 && p.value < Room(i) && |PutUvarint(p.value)| + |p.rest| <= |input|
    decreases 10 - i
  {
    if input[0] >= 0x80 {
      UvarintFits(input[1..], i + 1);
      var high := ReadUvarintFrom(input[1..], i + 1).value;
      var x := input[0] - 0x80 + 0x80 * high;
      assert x / 0x80 == high;
    } else {
      RoomGrows(i);
    }
  }

  lemma {:induction false} RoomGrows(i: nat)
    requires i <= 9
    ensures Room(i) >= 2 && (i < 9 ==> Room(i) >= 0x80)
    decreases 9 - i
  {
    if i < 9 {
      RoomGrows(i + 1);
    }
  }

  lemma NumberFits(input: Data)
    requires ReadUvarint(input).Parsed?
    ensures var p := ReadUvarint(input); p.value < MAX64 && |PutUvarint(p.value)| + |p.rest| <= |input|
  {
    UvarintFits(input, 0);
    RoomIs64Bits();
  }

  // ---------------------------------------------------------------- outputs

  lemma OutputFits(input: Data, index: nat)
    requires ReadOutput(input, index).Parsed?
    ensures var p := ReadOutput(input, index); OutputOk(p.value, index) && |PutOutput(p.value)| + |p.rest| <= |input|
  {
    NumberFits(input);
  }

  lemma {:induction false} EachFits(input: Data, index: nat, count: nat)
    requires index <= count && ReadEach(input, index, count).Parsed?
    ensures var p := ReadEach(input, index, count);
      && |p.value| == count - index
      && (forall k :: 0 <= k < |p.value| ==> OutputOk(p.value[k], index + k))
      && |PutEach(p.value)| + |p.rest| <= |input|
    decreases count - index
  {
    if index < count {
      OutputFits(input, index);
      var o := ReadOutput(input, index);
      EachFits(o.rest, index + 1, count);
      var more := ReadEach(o.rest, index + 1, count);
      assert ([o.value] + more.value)[1..] == more.value;
    }
  }

  lemma OutputsFit(input: Data)
    requires ReadOutputs(input).Parsed?
    ensures var p := ReadOutputs(input); OutputsOk(p.value) && |OutputBytes(p.value)| + |p.rest| <= |input|
  {
    NumberFits(input);
    var n := ReadUvarint(input);
    EachFits(n.rest, 0, LoopBound(n.value));
    OkIsKnown(ReadOutputs(input).value);
  }

  // ---------------------------------------------------------------- tags

  predicate HasPadding(ts: seq<ExtraTag>) { HasTag(ts, TAG_PADDING) }

  /** The tag as it was read over the one before. */
  lemma TagFits(last: ExtraTag, input: Data)
    requires ReadTag(last, input).TagRead?
    ensures var r := ReadTag(last, input);
      r.tag.tag != TAG_PADDING && (r.tag.tag == TAG_PUB_KEY ==> last == NO_TAG) ==>
        TagOk(r.tag) && |PutTag(r.tag)| + |r.rest| <= |input|
  {
    var r := ReadTag(last, input);
    if input[0] != TAG_PADDING && input[0] != TAG_PUB_KEY {
      NumberFits(input[1..]);
    }
  }

  lemma {:induction false} TagsDistinct(sofar: seq<ExtraTag>, last: ExtraTag, input: Data, ts: seq<ExtraTag>)
    requires ReadTags(sofar, last, input) == Some(ts) && Distinct(sofar)
    ensures sofar <= ts && Distinct(ts)
    decreases |input|
  {
    ReadTagShrinks(last, input);
    var r := ReadTag(last, input);
    if r.TagRead? {
      DistinctMore(sofar, r.tag);
      TagsDistinct(sofar + [r.tag], r.tag, r.rest, ts);
    }
  }

  lemma DistinctMore(sofar: seq<ExtraTag>, t: ExtraTag)
    requires Distinct(sofar) && !HasTag(sofar, t.tag)
    ensures Distinct(sofar + [t])
  {
  }

  /** The tags read from here on, and the length of their encoding. */
  ghost predicate Proper(ts: seq<ExtraTag>, n: nat, limit: nat) {
    n <= |ts| && (forall i :: n <= i < |ts| ==> TagOk(ts[i])) && |PutTags(ts[n..])| <= limit
  }

  lemma ProperFrom(ts: seq<ExtraTag>, n: nat, t: ExtraTag, rest: nat, limit: nat)
    requires n < |ts| && ts[n] == t && TagOk(t) && Proper(ts, n + 1, rest) && |PutTag(t)| + rest <= limit
    ensures Proper(ts, n, limit)
  {
    assert ts[n..][1..] == ts[n + 1..];
  }

  lemma TagStep(ts: seq<ExtraTag>, n: nat, last: ExtraTag, input: Data)
    requires ReadTag(last, input).TagRead? && n < |ts| && ts[n] == ReadTag(last, input).tag
    requires KeyFirst(ts) && !HasPadding(ts) && (n == 0 ==> last == NO_TAG)
    requires Proper(ts, n + 1, |ReadTag(last, input).rest|)
    ensures Proper(ts, n, |input|)
  {
    var r := ReadTag(last, input);
    assert r.tag in ts;
    TagFits(last, input);
    ProperFrom(ts, n, r.tag, |r.rest|, |input|);
  }

  lemma ProperEnd(ts: seq<ExtraTag>, limit: nat)
    ensures Proper(ts, |ts|, limit)
  {
    assert ts[|ts|..] == [];
  }

  lemma {:induction false} TagsProper(sofar: seq<ExtraTag>, last: ExtraTag, input: Data, ts: seq<ExtraTag>)
    requires ReadTags(sofar, last, input) == Some(ts) && (sofar == [] ==> last == NO_TAG) && Distinct(sofar)
    requires KeyFirst(ts) && !HasPadding(ts)
    ensures Proper(ts, |sofar|, |input|)
    decreases |input|
  {
    ReadTagShrinks(last, input);
    var r := ReadTag(last, input);
    if r.TagRead? {
      var n, more := |sofar|, sofar + [r.tag];
      DistinctMore(sofar, r.tag);
      TagsDistinct(more, r.tag, r.rest, ts);
      assert ts[n] == more[n] == r.tag;
      TagsProper(more, r.tag, r.rest, ts);
      TagStep(ts, n, last, input);
    } else {
      ProperEnd(ts, |input|);
    }
  }

  /** Tags are distinct, and proper but for padding and a public key after other tags. */
  lemma TagsFit(input: Data, ts: seq<ExtraTag>)
    requires ReadTags([], NO_TAG, input) == Some(ts)
    ensures Distinct(ts) && (TagsOk(ts) <==> KeyFirst(ts) && !HasPadding(ts))
    ensures TagsOk(ts) ==> TagsLength(ts) <= |input|
  {
    TagsDistinct([], NO_TAG, input, ts);
    if KeyFirst(ts) && !HasPadding(ts) {
      TagsProper([], NO_TAG, input, ts);
      assert ts[0..] == ts;
      TagsLengthIsLength(ts);
    }
  }

  // ---------------------------------------------------------------- the coinbase transaction

  /** The extra field: a length of at most 65536, that many bytes of tags, and a zero. */
  lemma SuffixShape(input: Data) returns (size: nat, start: nat)
    requires ReadSuffix(input).Parsed?
    ensures var p := ReadSuffix(input);
      && Varint(input, 0, start)
      && size == DigitSum(input[..start]) <= 65536
      && start + size < |input|
      && input[start + size] == 0
      && ReadTags([], NO_TAG, input[start..start + size]) == Some(p.value)
      && p.rest == input[start + size + 1..]
  {
    start := ReadIsVarint(input, 0);
    VarintIsRead(input, 0, start);
    size := DigitSum(input[..start]);
    var r1 := input[start..];
    assert r1[..size] == input[start..start + size] && r1[size + 1..] == input[start + size + 1..];
  }

  lemma PrefixFits(input: Data)
    requires ReadPrefix(input).Parsed?
    ensures ReadPrefix(input).value < MAX64 && |ReadPrefix(input).rest| <= |input|
  {
    var v := input[1..];
    NumberFits(v);
    var r := ReadUvarint(v).rest;
    NumberFits(r[2..]);
    assert r[1..][1..] == r[2..];
  }

  lemma MiddleFits(input: Data)
    requires ReadMiddle(input).Parsed?
    ensures var p := ReadMiddle(input);
      OutputsOk(p.value.0) && p.value.1 < MAX64 && (p.value.0 != [] ==> |OutputBytes(p.value.0)| <= |input|)
  {
    OutputsFit(input);
    var os := ReadOutputs(input);
    if os.value == [] {
      NumberFits(os.rest);
    } else {
      TotalsMeaning(os.value);
    }
  }

  /** What reading tolerates and writing does not reproduce: outputs left out, padding, and a public key
      after other tags. */
  predicate Tolerated(c: CoinbaseTx) { c.outputs == [] || !KeyFirst(c.extra) || HasPadding(c.extra) }

  lemma PartsFit(genHeight: nat, m: (seq<TxOutput>, nat, nat), tags: seq<ExtraTag>)
    requires genHeight < MAX64 && OutputsOk(m.0) && m.1 < MAX64 && (m.0 != [] ==> |OutputBytes(m.0)| < MAX64)
    requires TagsOk(tags) <==> KeyFirst(tags) && !HasPadding(tags)
    requires TagsOk(tags) ==> TagsLength(tags) <= 65536
    ensures var c := Decoded(genHeight, m, tags); CoinbaseOk(c) <==> !Tolerated(c)
  {
  }

  lemma CoinbaseFits(input: Data)
    requires ReadCoinbase(input).Parsed? && |input| < MAX64
    ensures CoinbaseOk(ReadCoinbase(input).value) <==> !Tolerated(ReadCoinbase(input).value)
  {
    var p := ReadPrefix(input);
    PrefixFits(input);
    var m := ReadMiddle(p.rest);
    MiddleFits(p.rest);
    var size, start := SuffixShape(m.rest);
    var tags := ReadSuffix(m.rest).value;
    TagsFit(m.rest[start..start + size], tags);
    PartsFit(p.value, m.value, tags);
  }

  // ---------------------------------------------------------------- the main block

  lemma Uint32Fits(input: Data)
    requires ReadUint32(input).Parsed?
    ensures 0 <= ReadUint32(input).value < 0x1_0000_0000
  {
  }

  lemma HeaderFits(input: Data)
    requires ReadHeader(input).Parsed?
    ensures var p := ReadHeader(input);
      p.value.nonce < 0x1_0000_0000 && p.value.timestamp < MAX64 && |p.rest| <= |input|
  {
    NumberFits(input[2..]);
    var t := ReadUvarint(input[2..]);
    Uint32Fits(t.rest[32..]);
  }

  lemma {:induction false} HashesFit(input: Data, i: nat, count: nat)
    requires i <= count && ReadHashes(input, i, count).Parsed?
    ensures |ReadHashes(input, i, count).value| == count - i
    decreases count - i
  {
    if i < count {
      HashesFit(ReadFull(input, 32).rest, i + 1, count);
    }
  }

  lemma EntryFits(input: Data)
    requires ReadEntry(input).Parsed?
    ensures ReadEntry(input).value.1 < MAX64
  {
    NumberFits(input);
  }

  lemma IndicesFit(first: nat, more: seq<nat>)
    requires first < MAX64 && forall k :: 0 <= k < |more| ==> more[k] < MAX64
    ensures forall k :: 0 <= k < |[first] + more| ==> ([first] + more)[k] < MAX64
  {
  }

  lemma {:induction false} EntriesFit(input: Data, i: nat, count: nat)
    requires i <= count && ReadEntries(input, i, count).Parsed?
    ensures var p := ReadEntries(input, i, count);
      |p.value.0| == count - i == |p.value.1| && forall k :: 0 <= k < |p.value.1| ==> p.value.1[k] < MAX64
    decreases count - i
  {
    if i < count {
      var e := ReadEntry(input);
      EntryFits(input);
      EntriesFit(e.rest, i + 1, count);
      IndicesFit(e.value.1, ReadEntries(e.rest, i + 1, count).value.1);
    }
  }

  lemma TransactionsFit(input: Data, compact: bool)
    requires ReadTransactions(input, compact).Parsed?
    ensures var p := ReadTransactions(input, compact);
      && |p.value.0| < 0x8000_0000_0000_0000
      && (forall k :: 0 <= k < |p.value.1| ==> p.value.1[k] < MAX64)
      && (if compact then |p.value.1| == |p.value.0| else p.value.1 == [])
  {
    var n := ReadUvarint(input);
    if compact {
      EntriesFit(n.rest, 0, LoopBound(n.value));
    } else {
      HashesFit(n.rest, 0, LoopBound(n.value));
    }
  }

  lemma BlockFits(input: Data, compact: bool)
    requires ReadBlock(input, compact).Parsed? && |input| < MAX64
    ensures var b := ReadBlock(input, compact).value;
      && (BlockOk(b) <==> Supported(b) && !Tolerated(b.coinbase))
      && (if compact then |b.parentIndices| == |b.transactions| else b.parentIndices == [])
  {
    var h := ReadHeader(input);
    HeaderFits(input);
    CoinbaseFits(h.rest);
    TransactionsFit(ReadCoinbase(h.rest).rest, compact);
  }

  // ---------------------------------------------------------------- the side data

  lemma NumbersFit(s: Side, input: Data)
    requires ReadNumbers(s, input).Parsed?
    ensures var n := ReadNumbers(s, input).value;
      && n.height < MAX64
      && n.difficultyLo < MAX64
      && n.difficultyHi < MAX64
      && n.cumulativeLo < MAX64
      && n.cumulativeHi < MAX64
      && n == s.(height := n.height, difficultyLo := n.difficultyLo, difficultyHi := n.difficultyHi,
                 cumulativeLo := n.cumulativeLo, cumulativeHi := n.cumulativeHi)
  {
    NumberFits(input);
    var h := ReadUvarint(input);
    PairFits(h.rest);
    PairFits(ReadPair(h.rest).rest);
  }

  lemma PairFits(input: Data)
    requires ReadPair(input).Parsed?
    ensures ReadPair(input).value.0 < MAX64 && ReadPair(input).value.1 < MAX64
  {
    NumberFits(input);
    NumberFits(ReadUvarint(input).rest);
  }

  predicate SoftwareOk(w: Software) {
    && w.id < 0x1_0000_0000
    && w.version < 0x1_0000_0000
    && w.randomNumber < 0x1_0000_0000
    && w.extraNonce < 0x1_0000_0000
  }

  lemma SoftwareFits(input: Data)
    requires ReadSoftware(input).Parsed?
    ensures SoftwareOk(ReadSoftware(input).value)
  {
    Uint32Fits(input);
    Uint32Fits(input[4..]);
    Uint32Fits(input[4..][4..]);
    Uint32Fits(input[4..][4..][4..]);
  }

  lemma SideFits(input: Data, v2: bool)
    requires ReadSide(input, v2).Parsed?
    ensures var s := ReadSide(input, v2).value; SideOk(s) && Serialised(s, v2) == s
  {
    var k := ReadKeys(input, v2);
    var u := ReadUncles(k.rest);
    var count := ReadUvarint(k.rest);
    HashesFit(count.rest, 0, LoopBound(count.value));
    var n := ReadNumbers(k.value.(uncles := u.value), u.rest);
    NumbersFit(k.value.(uncles := u.value), u.rest);
    if v2 {
      SoftwareFits(n.rest);
    }
  }

  // ---------------------------------------------------------------- pool blocks

  /** A block that was read is a proper one exactly if none of that is in it and its version is supported. */
  lemma ReadIsOk(rules: Rules, input: Data, compact: bool)
    requires ReadTemplate(rules, input, compact).Parsed? && |input| < MAX64
    ensures var t := ReadTemplate(rules, input, compact).value;
      TemplateOk(rules, t) <==> Supported(t.main) && !Tolerated(t.main.coinbase)
  {
    var b := ReadBlock(input, compact);
    BlockFits(input, compact);
    var version := rules.shareVersion(b.value.timestamp);
    SideFits(b.rest, version > 1);
    FilledIsOk(rules, b.value, ReadSide(b.rest, version > 1).value, version);
  }

  lemma FilledIsOk(rules: Rules, main: Block, side: Side, version: nat)
    requires version == rules.shareVersion(main.timestamp) && SideOk(side)
    requires main.majorVersion == rules.majorVersion(main.coinbase.genHeight)
      && HasTag(main.coinbase.extra, TAG_MERGE_MINING)
    ensures var t := FillKeys(rules, Template(main, side, version));
      t.main == main && (TemplateOk(rules, t) <==> BlockOk(main))
  {
  }

  /** The totals of a transaction that was read are those of its outputs. */
  lemma ReadIsReceived(input: Data)
    requires ReadCoinbase(input).Parsed?
    ensures var c := ReadCoinbase(input).value; c.outputs != [] ==> Coinbase.Received(c, false) == c
  {
  }

  lemma ReadHasArrived(rules: Rules, input: Data)
    requires ReadTemplate(rules, input, false).Parsed? && |input| < MAX64
    ensures var t := ReadTemplate(rules, input, false).value;
      t.main.coinbase.outputs != [] ==> Arrived(rules, t, false, false) == t
  {
    var b := ReadBlock(input, false);
    BlockFits(input, false);
    ReadIsReceived(ReadHeader(input).rest);
    SideFits(b.rest, rules.shareVersion(b.value.timestamp) > 1);
  }

  /** Reading, writing and reading again changes nothing: what was read from full bytes of any origin is
      written to bytes that are read as the same block. */
  lemma ReadWriteRead(rules: Rules, input: Data, rest: Data)
    requires ReadTemplate(rules, input, false).Parsed? && |input| < MAX64
    requires var t := ReadTemplate(rules, input, false).value; Supported(t.main) && !Tolerated(t.main.coinbase)
    ensures var t := ReadTemplate(rules, input, false).value;
      ReadTemplate(rules, PutTemplate(t, false, false) + rest, false) == Parsed(t, rest)
  {
    var t := ReadTemplate(rules, input, false).value;
    ReadIsOk(rules, input, false);
    TemplateBack(rules, t, false, false, rest);
    ReadHasArrived(rules, input);
  }
}
