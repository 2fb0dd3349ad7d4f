/** The wire format of pool blocks as flat lists of fields in the order they are sent
    (p2pool/sidechain/poolblock.go, p2pool/sidechain/sidedata.go, monero/block/block.go,
    monero/transaction). The encoders are proved to produce exactly these. */
module WireFormat {
  import opened Bytes
  import opened Outputs
  import opened ExtraTags
  import opened Coinbase
  import opened MainBlock
  import opened SideData
  import opened Templates

  /** A byte, a variable-length integer, a four-byte integer, or bytes as they are. */
  datatype Field = U8(byte: Byte) | Var(x: nat) | U32(x: nat) | Raw(data: Data)

  /** Seven bits at a time, the lowest first, with the top bit set on all but the last. */
  ghost predicate Leb128(x: nat, r: Data) {
    && r != []
    && (|r| == 1 ==> x == r[0] < 0x80)
    && (|r| > 1 ==> r[0] == x % 0x80 + 0x80 && x >= 0x80 && Leb128(x / 0x80, r[1..]))
  }

  lemma {:induction false} UvarintIsLeb128(x: nat)
    ensures Leb128(x, PutUvarint(x))
    decreases x
  {
    if x >= 0x80 {
      UvarintIsLeb128(x / 0x80);
      assert PutUvarint(x)[1..] == PutUvarint(x / 0x80);
    }
  }

  /** The number that such bytes stand for. */
  lemma {:induction false} Leb128Value(x: nat, r: Data)
    requires Leb128(x, r)
    ensures x == DigitSum(r)
    decreases |r|
  {
    if |r| > 1 {
      Leb128Value(x / 0x80, r[1..]);
    }
  }

  function DigitSum(r: Data): nat {
    if r == [] then 0 else r[0] % 0x80 + 0x80 * DigitSum(r[1..])
  }

  function Encoding(f: Field): Data {
    match f
    case U8(b) => [b]
    case Var(x) => PutUvarint(x)
    case U32(x) => Spelled(x, 4)
    case Raw(d) => d
  }

  function Wire(fs: seq<Field>): Data {
    if fs == [] then [] else Encoding(fs[0]) + Wire(fs[1..])
  }

  lemma {:induction false} WireConcat(a: seq<Field>, b: seq<Field>)
    ensures Wire(a + b) == Wire(a) + Wire(b)
  {
    if a == [] {
      assert a + b == b;
    } else {
      assert (a + b)[1..] == a[1..] + b;
      WireConcat(a[1..], b);
      Cat(Encoding(a[0]), Wire(a[1..]), Wire(b));
    }
  }

  lemma WireOne(f: Field, rest: seq<Field>)
    ensures Wire([f] + rest) == Encoding(f) + Wire(rest)
  {
    assert ([f] + rest)[1..] == rest;
  }

  lemma WireLast(f: Field)
    ensures Wire([f]) == Encoding(f)
  {
    assert [f][1..] == [];
  }

  lemma Uint32IsSpelled(x: nat)
    ensures PutUint32(x) == Spelled(x, 4)
  {
    var y, z, w := x / 0x100, x / 0x1_0000, x / 0x100_0000;
    assert y / 0x100 == z && z / 0x100 == w;
    assert Spelled(w, 1) == [w % 0x100] + Spelled(w / 0x100, 0);
    assert Spelled(z, 2) == [z % 0x100] + Spelled(w, 1);
    assert Spelled(y, 3) == [y % 0x100] + Spelled(z, 2);
    assert Spelled(x, 4) == [x % 0x100] + Spelled(y, 3);
  }

  // ---------------------------------------------------------------- outputs and tags

  /** Reward, type, one-time key and, in tagged outputs, the view tag. */
  function OutputFields(o: TxOutput): seq<Field> {
    [Var(o.reward), U8(o.kind), Raw(o.key)] + if o.kind == 3 then [U8(o.viewTag)] else []
  }

  function OutputsFields(os: seq<TxOutput>): seq<Field> {
    if os == [] then [] else OutputFields(os[0]) + OutputsFields(os[1..])
  }

  lemma WireThree(a: Field, b: Field, c: Field)
    ensures Wire([a, b, c]) == Encoding(a) + (Encoding(b) + Encoding(c))
  {
    WireOne(a, [b, c]);
    assert [a] + [b, c] == [a, b, c];
    WireOne(b, [c]);
    assert [b] + [c] == [b, c];
    WireLast(c);
  }

  lemma OutputOnWire(o: TxOutput)
    ensures PutOutput(o) == Wire(OutputFields(o))
  {
    var tag: seq<Field> := if o.kind == 3 then [U8(o.viewTag)] else [];
    var end: Data := if o.kind == 3 then [o.viewTag] else [];
    WireConcat([Var(o.reward), U8(o.kind), Raw(o.key)], tag);
    WireThree(Var(o.reward), U8(o.kind), Raw(o.key));
    if o.kind == 3 {
      WireLast(U8(o.viewTag));
    }
    Cat(PutUvarint(o.reward), [o.kind] + o.key, end);
    Cat([o.kind], o.key, end);
  }

  lemma {:induction false} EachOutputOnWire(os: seq<TxOutput>)
    ensures PutEach(os) == Wire(OutputsFields(os))
  {
    if os != [] {
      OutputOnWire(os[0]);
      EachOutputOnWire(os[1..]);
      WireConcat(OutputFields(os[0]), OutputsFields(os[1..]));
    }
  }

  /** The kind, a length or depth where there is one, and the data. */
  function TagFields(t: ExtraTag): seq<Field> {
    [U8(t.tag)] + (if t.hasVarInt then [Var(t.varInt)] else []) + [Raw(t.data)]
  }

  function TagsFields(ts: seq<ExtraTag>): seq<Field> {
    if ts == [] then [] else TagFields(ts[0]) + TagsFields(ts[1..])
  }

  lemma TagOnWire(t: ExtraTag)
    ensures PutTag(t) == Wire(TagFields(t))
  {
    var size: seq<Field> := if t.hasVarInt then [Var(t.varInt)] else [];
    WireConcat([U8(t.tag)] + size, [Raw(t.data)]);
    WireOne(U8(t.tag), size);
    if t.hasVarInt {
      WireLast(Var(t.varInt));
    }
    WireLast(Raw(t.data));
    Cat([t.tag], PutVarInt(t), t.data);
  }

  lemma {:induction false} TagsOnWire(ts: seq<ExtraTag>)
    ensures PutTags(ts) == Wire(TagsFields(ts))
  {
    if ts != [] {
      TagOnWire(ts[0]);
      TagsOnWire(ts[1..]);
      WireConcat(TagFields(ts[0]), TagsFields(ts[1..]));
    }
  }

  // ---------------------------------------------------------------- the coinbase transaction

  /** Version, unlock time, one input with the height. */
  function PrefixFields(c: CoinbaseTx): seq<Field> {
    [U8(c.version), Var(c.unlockTime), U8(c.inputCount), U8(c.inputType), Var(c.genHeight)]
  }

  /** The outputs, or in their place none, the total reward and the length of their encoding. */
  function RewardFields(c: CoinbaseTx, pruned: bool): seq<Field> {
    if pruned then [Var(0), Var(c.totalReward), Var(|OutputBytes(c.outputs)|)]
    else [Var(|c.outputs|)] + OutputsFields(c.outputs)
  }

  /** The length of the tags, the tags, and the signature type. */
  function ExtraFields(c: CoinbaseTx): seq<Field> {
    [Var(TagsLength(c.extra))] + TagsFields(c.extra) + [U8(c.extraBaseRct)]
  }

  function CoinbaseFields(c: CoinbaseTx, pruned: bool): seq<Field> {
    PrefixFields(c) + (RewardFields(c, pruned) + ExtraFields(c))
  }

  lemma PrefixOnWire(c: CoinbaseTx)
    ensures PutPrefix(c) == Wire(PrefixFields(c))
  {
    var f := PrefixFields(c);
    WireOne(U8(c.version), f[1..]);
    WireOne(Var(c.unlockTime), f[2..]);
    assert f == [U8(c.version)] + f[1..] && f[1..] == [Var(c.unlockTime)] + f[2..];
    WireThree(U8(c.inputCount), U8(c.inputType), Var(c.genHeight));
    assert f[2..] == [U8(c.inputCount), U8(c.inputType), Var(c.genHeight)];
  }

  lemma RewardOnWire(c: CoinbaseTx, pruned: bool)
    requires pruned || AllKnown(c.outputs)
    ensures Middle(c, pruned) == Wire(RewardFields(c, pruned))
  {
    if pruned {
      WireThree(Var(0), Var(c.totalReward), Var(|OutputBytes(c.outputs)|));
    } else {
      EachOutputOnWire(c.outputs);
      WireOne(Var(|c.outputs|), OutputsFields(c.outputs));
    }
  }

  lemma ExtraOnWire(c: CoinbaseTx)
    ensures PutSuffix(TagsLength(c.extra), c.extra, c.extraBaseRct) == Wire(ExtraFields(c))
  {
    var n := TagsLength(c.extra);
    TagsOnWire(c.extra);
    WireConcat([Var(n)] + TagsFields(c.extra), [U8(c.extraBaseRct)]);
    WireOne(Var(n), TagsFields(c.extra));
    WireLast(U8(c.extraBaseRct));
    Cat(PutUvarint(n), PutTags(c.extra), [c.extraBaseRct]);
  }

  lemma CoinbaseOnWire(c: CoinbaseTx, pruned: bool)
    requires pruned || AllKnown(c.outputs)
    ensures PutCoinbase(c, pruned) == Wire(CoinbaseFields(c, pruned))
  {
    PrefixOnWire(c);
    RewardOnWire(c, pruned);
    ExtraOnWire(c);
    WireConcat(RewardFields(c, pruned), ExtraFields(c));
    WireConcat(PrefixFields(c), RewardFields(c, pruned) + ExtraFields(c));
  }

  // ---------------------------------------------------------------- the main block

  function HeaderFields(b: Block): seq<Field> {
    [U8(b.majorVersion), U8(b.minorVersion), Var(b.timestamp), Raw(b.previousId), U32(b.nonce)]
  }

  /** A transaction: its hash, or in the compact form its index in the parent where it has one, and else
      zero and the hash. */
  function TransactionFields(b: Block, compact: bool, i: nat): seq<Field>
    requires i < |b.transactions|
  {
    if !compact then [Raw(b.transactions[i])]
    else if IndexAt(b.parentIndices, i) != 0 then [Var(IndexAt(b.parentIndices, i))]
    else [Var(0), Raw(b.transactions[i])]
  }

  function TransactionsFrom(b: Block, compact: bool, i: nat): seq<Field>
    requires i <= |b.transactions|
    decreases |b.transactions| - i
  {
    if i == |b.transactions| then [] else TransactionFields(b, compact, i) + TransactionsFrom(b, compact, i + 1)
  }

  function BodyFields(b: Block, pruned: bool, compact: bool): seq<Field> {
    HeaderFields(b) + (CoinbaseFields(b.coinbase, pruned) + ([Var(|b.transactions|)] + TransactionsFrom(b, compact, 0)))
  }

  lemma HeaderOnWire(b: Block)
    ensures PutHeader(b) == Wire(HeaderFields(b))
  {
    var f := HeaderFields(b);
    WireOne(U8(b.majorVersion), f[1..]);
    WireOne(U8(b.minorVersion), f[2..]);
    assert f == [U8(b.majorVersion)] + f[1..] && f[1..] == [U8(b.minorVersion)] + f[2..];
    WireThree(Var(b.timestamp), Raw(b.previousId), U32(b.nonce));
    assert f[2..] == [Var(b.timestamp), Raw(b.previousId), U32(b.nonce)];
    Uint32IsSpelled(b.nonce);
  }

  lemma CompactOne(b: Block, i: nat)
    requires i < |b.transactions|
    ensures PutEntry(b.transactions[i], IndexAt(b.parentIndices, i)) == Wire(TransactionFields(b, true, i))
  {
    var index := IndexAt(b.parentIndices, i);
    if index != 0 {
      WireLast(Var(index));
    } else {
      WireOne(Var(0), [Raw(b.transactions[i])]);
      WireLast(Raw(b.transactions[i]));
      assert [Var(0)] + [Raw(b.transactions[i])] == [Var(0), Raw(b.transactions[i])];
    }
  }

  lemma {:induction false} CompactOnWire(b: Block, i: nat)
    requires i <= |b.transactions|
    ensures PutCompact(b.transactions, b.parentIndices, i) == Wire(TransactionsFrom(b, true, i))
    decreases |b.transactions| - i
  {
    if i < |b.transactions| {
      CompactOne(b, i);
      CompactOnWire(b, i + 1);
      WireConcat(TransactionFields(b, true, i), TransactionsFrom(b, true, i + 1));
    }
  }

  lemma {:induction false} HashesOnWire(b: Block, i: nat)
    requires i <= |b.transactions|
    ensures PutHashes(b.transactions[i..]) == Wire(TransactionsFrom(b, false, i))
    decreases |b.transactions| - i
  {
    if i < |b.transactions| {
      assert b.transactions[i..][1..] == b.transactions[i + 1..];
      HashesOnWire(b, i + 1);
      WireLast(Raw(b.transactions[i]));
      WireConcat(TransactionFields(b, false, i), TransactionsFrom(b, false, i + 1));
    }
  }

  lemma TransactionsOnWire(b: Block, compact: bool)
    ensures PutTransactions(b, compact) == Wire([Var(|b.transactions|)] + TransactionsFrom(b, compact, 0))
  {
    WireOne(Var(|b.transactions|), TransactionsFrom(b, compact, 0));
    if compact {
      CompactOnWire(b, 0);
    } else {
      HashesOnWire(b, 0);
      assert b.transactions[0..] == b.transactions;
    }
  }

  lemma BodyOnWire(b: Block, pruned: bool, compact: bool)
    requires pruned || AllKnown(b.coinbase.outputs)
    ensures PutBody(b, pruned, compact) == Wire(BodyFields(b, pruned, compact))
  {
    var txs := [Var(|b.transactions|)] + TransactionsFrom(b, compact, 0);
    HeaderOnWire(b);
    CoinbaseOnWire(b.coinbase, pruned);
    TransactionsOnWire(b, compact);
    WireConcat(CoinbaseFields(b.coinbase, pruned), txs);
    WireConcat(HeaderFields(b), CoinbaseFields(b.coinbase, pruned) + txs);
  }

  // ---------------------------------------------------------------- side data and the whole block

  function HashFields(hs: seq<Bytes32>): seq<Field> {
    if hs == [] then [] else [Raw(hs[0])] + HashFields(hs[1..])
  }

  /** The miner's keys, seed or key of the transaction, the parent. */
  function KeyFields(s: Side, v2: bool): seq<Field> {
    [Raw(s.spendKey), Raw(s.viewKey), Raw(if v2 then s.privateKeySeed else s.privateKey), Raw(s.parent)]
  }

  /** Height, difficulty and cumulative difficulty, low words first. */
  function NumberFields(s: Side): seq<Field> {
    [Var(s.height), Var(s.difficultyLo), Var(s.difficultyHi), Var(s.cumulativeLo), Var(s.cumulativeHi)]
  }

  /** From version 2 on: software, its version, and two numbers for the miner to vary. */
  function SoftwareFields(w: Software): seq<Field> {
    [U32(w.id), U32(w.version), U32(w.randomNumber), U32(w.extraNonce)]
  }

  function SideFields(s: Side, v2: bool): seq<Field> {
    KeyFields(s, v2) + (([Var(|s.uncles|)] + HashFields(s.uncles))
      + (NumberFields(s) + if v2 then SoftwareFields(s.software) else []))
  }

  lemma {:induction false} UnclesOnWire(hs: seq<Bytes32>)
    ensures PutHashes(hs) == Wire(HashFields(hs))
  {
    if hs != [] {
      UnclesOnWire(hs[1..]);
      WireOne(Raw(hs[0]), HashFields(hs[1..]));
    }
  }

  lemma KeysOnWire(s: Side, v2: bool)
    ensures PutKeys(s, v2) == Wire(KeyFields(s, v2))
  {
    var f := KeyFields(s, v2);
    WireOne(f[0], f[1..]);
    assert f == [f[0]] + f[1..] && f[1..] == [f[1], f[2], f[3]];
    WireThree(f[1], f[2], f[3]);
  }

  lemma NumbersOnWire(s: Side)
    ensures PutNumbers(s) == Wire(NumberFields(s))
  {
    var f := NumberFields(s);
    WireOne(f[0], f[1..]);
    WireOne(f[1], f[2..]);
    assert f == [f[0]] + f[1..] && f[1..] == [f[1]] + f[2..] && f[2..] == [f[2], f[3], f[4]];
    WireThree(f[2], f[3], f[4]);
    Cat(PutUvarint(s.difficultyLo), PutUvarint(s.difficultyHi), PutPair(s.cumulativeLo, s.cumulativeHi));
  }

  lemma SoftwareOnWire(w: Software)
    ensures PutSoftware(w) == Wire(SoftwareFields(w))
  {
    var f := SoftwareFields(w);
    WireOne(f[0], f[1..]);
    assert f == [f[0]] + f[1..] && f[1..] == [f[1], f[2], f[3]];
    WireThree(f[1], f[2], f[3]);
    Uint32IsSpelled(w.id);
    Uint32IsSpelled(w.version);
    Uint32IsSpelled(w.randomNumber);
    Uint32IsSpelled(w.extraNonce);
  }

  lemma SideOnWire(s: Side, v2: bool)
    ensures PutSide(s, v2) == Wire(SideFields(s, v2))
  {
    var uncles := [Var(|s.uncles|)] + HashFields(s.uncles);
    var end: seq<Field> := if v2 then SoftwareFields(s.software) else [];
    KeysOnWire(s, v2);
    UnclesOnWire(s.uncles);
    WireOne(Var(|s.uncles|), HashFields(s.uncles));
    NumbersOnWire(s);
    SoftwareOnWire(s.software);
    WireConcat(NumberFields(s), end);
    WireConcat(uncles, NumberFields(s) + end);
    WireConcat(KeyFields(s, v2), uncles + (NumberFields(s) + end));
  }

  /** Every form of a pool block is the main block followed by the side data, field by field. */
  lemma TemplateOnWire(t: Template, pruned: bool, compact: bool)
    requires pruned || AllKnown(t.main.coinbase.outputs)
    ensures PutTemplate(t, pruned, compact)
      == Wire(BodyFields(t.main, pruned, compact) + SideFields(t.side, t.version > 1))
  {
    BodyOnWire(t.main, pruned, compact);
    SideOnWire(t.side, t.version > 1);
    WireConcat(BodyFields(t.main, pruned, compact), SideFields(t.side, t.version > 1));
  }
}
