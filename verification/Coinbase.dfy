/** The coinbase transaction and its encodings (monero/transaction/coinbase.go). */
module Coinbase {
  import opened Blocks
  import opened Bytes
  import opened Outputs
  import opened ExtraTags

  const TX_IN_GEN: Byte := 0xff
  const MINER_REWARD_UNLOCK_TIME: nat := 60
  const MAX_EXTRA_SIZE: nat := 65536

  datatype CoinbaseTx = CoinbaseTx(
    version: Byte,
    unlockTime: nat,
    inputCount: Byte,
    inputType: Byte,
    genHeight: nat,
    outputs: seq<TxOutput>,
    outputsBlobSize: nat,
    totalReward: nat,
    extra: seq<ExtraTag>,
    extraBaseRct: Byte)

  // ---------------------------------------------------------------- writing

  function PutPrefix(c: CoinbaseTx): Data {
    [c.version] + (PutUvarint(c.unlockTime) + ([c.inputCount] + ([c.inputType] + PutUvarint(c.genHeight))))
  }

  function OutputBytes(os: seq<TxOutput>): Data {
    match PutOutputs(os) case None => [] case Some(d) => d
  }

  /** In place of the outputs: none, the total reward, and the length of their encoding. */
  function PutPruned(c: CoinbaseTx): Data {
    PutUvarint(0) + (PutUvarint(c.totalReward) + PutUvarint(|OutputBytes(c.outputs)|))
  }

  function PutSuffix(length: nat, tags: seq<ExtraTag>, extraBaseRct: Byte): Data {
    PutUvarint(length) + (PutTags(tags) + [extraBaseRct])
  }

  function PutCoinbase(c: CoinbaseTx, pruned: bool): Data {
    PutPrefix(c) + (Middle(c, pruned) + PutSuffix(TagsLength(c.extra), c.extra, c.extraBaseRct))
  }

  function Middle(c: CoinbaseTx, pruned: bool): Data {
    if pruned then PutPruned(c) else OutputBytes(c.outputs)
  }

  /** `CoinbaseTransaction.AppendBinaryFlags`. Outputs of an unknown type empty the buffer. */
  method AppendCoinbase(buf: Data, c: CoinbaseTx, pruned: bool) returns (data: Data)
    requires forall i :: 0 <= i < |c.extra| ==> c.extra[i].varInt < MAX64
    ensures pruned || AllKnown(c.outputs) ==> data == buf + PutCoinbase(c, pruned)
    ensures !pruned && !AllKnown(c.outputs) ==> data == PutSuffix(TagsLength(c.extra), c.extra, c.extraBaseRct)
  {
    data := buf + PutPrefix(c);
    ghost var middle := Middle(c, pruned);
    if pruned {
      var outputs := AppendOutputs([], c.outputs);
      assert outputs.Some? ==> outputs.value == OutputBytes(c.outputs);
      data := data + (PutUvarint(0)
        + (PutUvarint(c.totalReward) + PutUvarint(if outputs.Some? then |outputs.value| else 0)));
    } else {
      var out := AppendOutputs(data, c.outputs);
      data := if out.Some? then out.value else [];
    }
    ghost var before := data;
    var length := TagsBufferLength(c.extra);
    TagsLengthIsLength(c.extra);
    data := data + PutUvarint(length);
    data := AppendTags(data, c.extra);
    data := data + [c.extraBaseRct];
    ghost var suffix := PutSuffix(TagsLength(c.extra), c.extra, c.extraBaseRct);
    assert data == before + suffix by {
      Cat(before, PutUvarint(length), PutTags(c.extra));
      Cat(before + PutUvarint(length), PutTags(c.extra), [c.extraBaseRct]);
      Cat(before, PutUvarint(length), PutTags(c.extra) + [c.extraBaseRct]);
    }
    if pruned || AllKnown(c.outputs) {
      Cat(buf, PutPrefix(c), middle);
      Cat(buf + PutPrefix(c), middle, suffix);
      Cat(buf, PutPrefix(c), middle + suffix);
    } else {
      assert [] + suffix == suffix;
    }
  }

  /** `CoinbaseTransaction.SideChainHashingBlob`: the full encoding with erased tags. */
  function Erased(c: CoinbaseTx, zeroTemplateId: bool): CoinbaseTx {
    c.(extra := ErasedTags(c.extra, zeroTemplateId))
  }

  function CoinbaseLength(c: CoinbaseTx, outputsLength: nat): nat {
    1 + UVarInt64Size(c.unlockTime) + 1 + 1 + UVarInt64Size(c.genHeight) + outputsLength
      + UVarInt64Size(TagsLength(c.extra)) + TagsLength(c.extra) + 1
  }

  /** `CoinbaseTransaction.BufferLength` is the length of the full encoding. */
  lemma CoinbaseLengthIsLength(c: CoinbaseTx)
    requires c.unlockTime < MAX64 && c.genHeight < MAX64 && TagsLength(c.extra) < MAX64
    requires forall i :: 0 <= i < |c.extra| ==> c.extra[i].varInt < MAX64
    ensures CoinbaseLength(c, |OutputBytes(c.outputs)|) == |PutCoinbase(c, false)|
  {
    SizeIsLength(c.unlockTime);
    SizeIsLength(c.genHeight);
    SizeIsLength(TagsLength(c.extra));
    TagsLengthIsLength(c.extra);
  }

  // ---------------------------------------------------------------- reading

  function ReadPrefix(input: Data): Parsed<nat> {
    match ReadByte(input)
    case Failed => Failed
    case Parsed(version, r1) =>
      if version != 2 then Failed
      else
        match ReadUvarint(r1)
        case Failed => Failed
        case Parsed(unlockTime, r2) =>
          match ReadInput(r2)
          case Failed => Failed
          case Parsed(genHeight, r3) =>
            if unlockTime != (genHeight + MINER_REWARD_UNLOCK_TIME) % MAX64 then Failed else Parsed(genHeight, r3)
  }

  /** The one input, which holds the height. */
  function ReadInput(input: Data): Parsed<nat> {
    match ReadByte(input)
    case Failed => Failed
    case Parsed(inputCount, r1) =>
      if inputCount != 1 then Failed
      else
        match ReadByte(r1)
        case Failed => Failed
        case Parsed(inputType, r2) => if inputType != TX_IN_GEN then Failed else ReadUvarint(r2)
  }

  /** The tags, from exactly as many bytes as announced. */
  function ReadSuffix(input: Data): Parsed<seq<ExtraTag>> {
    match ReadUvarint(input)
    case Failed => Failed
    case Parsed(size, r1) =>
      if size > MAX_EXTRA_SIZE || size > |r1| then Failed
      else
        match ReadTags([], NO_TAG, r1[..size])
        case None => Failed
        case Some(tags) => if r1[size..] == [] || r1[size] != 0 then Failed else Parsed(tags, r1[size + 1..])
  }

  function RewardSum(os: seq<TxOutput>): nat {
    if os == [] then 0 else (RewardSum(os[..|os| - 1]) + os[|os| - 1].reward) % MAX64
  }

  /** What decoding calls the size of the outputs: type, key and view tag, without the rewards. */
  function KeysSize(os: seq<TxOutput>): nat {
    if os == [] then 0
    else (KeysSize(os[..|os| - 1]) + if os[|os| - 1].kind == TX_OUT_TO_TAGGED_KEY then 34 else 33) % MAX64
  }

  /** The outputs with their total and size, or the total and size alone. */
  function ReadMiddle(input: Data): Parsed<(seq<TxOutput>, nat, nat)> {
    match ReadOutputs(input)
    case Failed => Failed
    case Parsed(os, r1) =>
      if os != [] then Parsed((os, RewardSum(os), KeysSize(os)), r1)
      else
        match ReadUvarint(r1)
        case Failed => Failed
        case Parsed(total, r2) =>
          match ReadUvarint(r2)
          case Failed => Failed
          case Parsed(size, r3) => Parsed(([], total, size), r3)
  }

  function Decoded(genHeight: nat, m: (seq<TxOutput>, nat, nat), tags: seq<ExtraTag>): CoinbaseTx {
    CoinbaseTx(2, (genHeight + MINER_REWARD_UNLOCK_TIME) % MAX64, 1, TX_IN_GEN, genHeight, m.0, m.2, m.1, tags, 0)
  }

  function ReadCoinbase(input: Data): Parsed<CoinbaseTx> {
    match ReadPrefix(input)
    case Failed => Failed
    case Parsed(genHeight, r1) =>
      match ReadMiddle(r1)
      case Failed => Failed
      case Parsed(middle, r2) =>
        match ReadSuffix(r2)
        case Failed => Failed
        case Parsed(tags, r3) => Parsed(Decoded(genHeight, middle, tags), r3)
  }

  /** The loop that adds up rewards and sizes. */
  method Totals(os: seq<TxOutput>) returns (total: nat, size: nat)
    ensures total == RewardSum(os) && size == KeysSize(os)
  {
    total, size := 0, 0;
    for i := 0 to |os|
      invariant total == RewardSum(os[..i]) && size == KeysSize(os[..i])
    {
      assert os[..i + 1][..i] == os[..i];
      size := (size + if os[i].kind == TX_OUT_TO_TAGGED_KEY then 34 else 33) % MAX64;
      total := (total + os[i].reward) % MAX64;
    }
    assert os[..|os|] == os;
  }

  function SumRewards(os: seq<TxOutput>): nat {
    if os == [] then 0 else SumRewards(os[..|os| - 1]) + os[|os| - 1].reward
  }

  /** How many outputs have a view tag. */
  function CountTagged(os: seq<TxOutput>): nat {
    if os == [] then 0 else CountTagged(os[..|os| - 1]) + if os[|os| - 1].kind == 3 then 1 else 0
  }

  /** The totals are plain sums modulo 2^64: the rewards, and 33 bytes per output and one more per view tag. */
  lemma {:induction false} TotalsMeaning(os: seq<TxOutput>)
    ensures RewardSum(os) == SumRewards(os) % MAX64
    ensures KeysSize(os) == (33 * |os| + CountTagged(os)) % MAX64
  {
    if os != [] {
      var n, o := |os| - 1, os[|os| - 1];
      TotalsMeaning(os[..n]);
      AddTo64(SumRewards(os[..n]), o.reward);
      AddTo64(33 * n + CountTagged(os[..n]), if o.kind == TX_OUT_TO_TAGGED_KEY then 34 else 33);
    }
  }

  /** What reading a coinbase transaction has checked, and the totals it has derived. */
  predicate CoinbaseChecked(c: CoinbaseTx) {
    && c.version == 2
    && c.inputCount == 1
    && c.inputType == 0xff
    && c.unlockTime == (c.genHeight + 60) % MAX64
    && c.extraBaseRct == 0
    && (c.outputs != [] ==> c.totalReward == SumRewards(c.outputs) % MAX64)
  }

  lemma MiddleChecks(input: Data)
    ensures var p := ReadMiddle(input); p.Parsed? && p.value.0 != [] ==> p.value.1 == SumRewards(p.value.0) % MAX64
  {
    var p := ReadMiddle(input);
    if p.Parsed? {
      TotalsMeaning(p.value.0);
    }
  }

  lemma CoinbaseChecks(input: Data)
    ensures var p := ReadCoinbase(input); p.Parsed? ==> CoinbaseChecked(p.value)
  {
    var p := ReadPrefix(input);
    if p.Parsed? {
      MiddleChecks(p.rest);
      var m := ReadMiddle(p.rest);
      if m.Parsed? {
        var e := ReadSuffix(m.rest);
        if e.Parsed? {
          DecodedChecks(p.value, m.value, e.value);
        }
      }
    }
  }

  lemma DecodedChecks(genHeight: nat, m: (seq<TxOutput>, nat, nat), tags: seq<ExtraTag>)
    requires m.0 != [] ==> m.1 == SumRewards(m.0) % MAX64
    ensures CoinbaseChecked(Decoded(genHeight, m, tags))
  {
  }

  // ---------------------------------------------------------------- round trips

  predicate PrefixOk(c: CoinbaseTx) {
    && c.version == 2
    && c.inputCount == 1
    && c.inputType == TX_IN_GEN
    && c.genHeight < MAX64
    && c.unlockTime == (c.genHeight + MINER_REWARD_UNLOCK_TIME) % MAX64
  }

  /** A transaction that decoding accepts and restores. */
  predicate CoinbaseOk(c: CoinbaseTx) {
    && PrefixOk(c)
    && c.totalReward < MAX64
    && OutputsOk(c.outputs)
    && c.outputs != []
    && |OutputBytes(c.outputs)| < MAX64
    && TagsOk(c.extra)
    && TagsLength(c.extra) <= MAX_EXTRA_SIZE
    && c.extraBaseRct == 0
  }

  lemma PrefixBack(c: CoinbaseTx, rest: Data)
    requires PrefixOk(c)
    ensures ReadPrefix(PutPrefix(c) + rest) == Parsed(c.genHeight, rest)
  {
    var u, g := PutUvarint(c.unlockTime), PutUvarint(c.genHeight);
    Cat([c.version], u + ([c.inputCount] + ([c.inputType] + g)), rest);
    Cat(u, [c.inputCount] + ([c.inputType] + g), rest);
    Cat([c.inputCount], [c.inputType] + g, rest);
    Cat([c.inputType], g, rest);
    ReadByteBack(c.version, u + ([c.inputCount] + ([c.inputType] + (g + rest))));
    UvarintBack(c.unlockTime, [c.inputCount] + ([c.inputType] + (g + rest)));
    ReadByteBack(c.inputCount, [c.inputType] + (g + rest));
    ReadByteBack(c.inputType, g + rest);
    UvarintBack(c.genHeight, rest);
  }

  lemma SuffixBack(tags: seq<ExtraTag>, rest: Data)
    requires TagsOk(tags) && TagsLength(tags) <= MAX_EXTRA_SIZE
    ensures ReadSuffix(PutSuffix(TagsLength(tags), tags, 0) + rest) == Parsed(tags, rest)
  {
    var n, body := TagsLength(tags), PutTags(tags);
    TagsLengthIsLength(tags);
    Cat(PutUvarint(n), body + [0], rest);
    Cat(body, [0], rest);
    UvarintBack(n, body + ([0] + rest));
    var r1 := body + ([0] + rest);
    assert r1[..n] == body && r1[n..] == [0] + rest && r1[n + 1..] == rest;
    TagsBackIff(tags);
  }

  lemma FullMiddleBack(c: CoinbaseTx, rest: Data)
    requires OutputsOk(c.outputs) && c.outputs != []
    ensures ReadMiddle(OutputBytes(c.outputs) + rest)
      == Parsed((c.outputs, RewardSum(c.outputs), KeysSize(c.outputs)), rest)
  {
    OutputsBack(c.outputs, rest);
  }

  lemma PrunedMiddleBack(c: CoinbaseTx, rest: Data)
    requires c.totalReward < MAX64 && |OutputBytes(c.outputs)| < MAX64
    ensures ReadMiddle(PutPruned(c) + rest) == Parsed(([], c.totalReward, |OutputBytes(c.outputs)|), rest)
  {
    var t, n := PutUvarint(c.totalReward), PutUvarint(|OutputBytes(c.outputs)|);
    Cat(PutUvarint(0), t + n, rest);
    Cat(t, n, rest);
    UvarintBack(0, t + (n + rest));
    UvarintBack(c.totalReward, n + rest);
    UvarintBack(|OutputBytes(c.outputs)|, rest);
  }

  lemma Compose(input: Data, r1: Data, r2: Data, rest: Data, genHeight: nat, m: (seq<TxOutput>, nat, nat),
                tags: seq<ExtraTag>)
    requires ReadPrefix(input) == Parsed(genHeight, r1) && ReadMiddle(r1) == Parsed(m, r2)
      && ReadSuffix(r2) == Parsed(tags, rest)
    ensures ReadCoinbase(input) == Parsed(Decoded(genHeight, m, tags), rest)
  {
  }

  /** The three parts one after the other. */
  lemma PartsBack(c: CoinbaseTx, middle: Data, m: (seq<TxOutput>, nat, nat), rest: Data)
    requires PrefixOk(c) && TagsOk(c.extra) && TagsLength(c.extra) <= MAX_EXTRA_SIZE
    requires var r := PutSuffix(TagsLength(c.extra), c.extra, 0) + rest; ReadMiddle(middle + r) == Parsed(m, r)
    ensures ReadCoinbase(PutPrefix(c) + (middle + PutSuffix(TagsLength(c.extra), c.extra, 0)) + rest)
      == Parsed(Decoded(c.genHeight, m, c.extra), rest)
  {
    var suffix := PutSuffix(TagsLength(c.extra), c.extra, 0);
    Cat(PutPrefix(c), middle + suffix, rest);
    Cat(middle, suffix, rest);
    PrefixBack(c, middle + (suffix + rest));
    SuffixBack(c.extra, rest);
    Compose(PutPrefix(c) + (middle + suffix) + rest, middle + (suffix + rest), suffix + rest, rest, c.genHeight,
            m, c.extra);
  }

  /** The transaction as it comes back: the outputs and what is derived from them depend on the form. */
  function Received(c: CoinbaseTx, pruned: bool): CoinbaseTx {
    if pruned then c.(outputs := [], outputsBlobSize := |OutputBytes(c.outputs)|)
    else c.(totalReward := RewardSum(c.outputs), outputsBlobSize := KeysSize(c.outputs))
  }

  function MiddleValue(c: CoinbaseTx, pruned: bool): (seq<TxOutput>, nat, nat) {
    if pruned then ([], c.totalReward, |OutputBytes(c.outputs)|)
    else (c.outputs, RewardSum(c.outputs), KeysSize(c.outputs))
  }

  lemma MiddleBack(c: CoinbaseTx, pruned: bool, rest: Data)
    requires CoinbaseOk(c)
    ensures ReadMiddle(Middle(c, pruned) + rest) == Parsed(MiddleValue(c, pruned), rest)
  {
    if pruned {
      PrunedMiddleBack(c, rest);
    } else {
      FullMiddleBack(c, rest);
    }
  }

  lemma DecodedIsReceived(c: CoinbaseTx, pruned: bool)
    requires CoinbaseOk(c)
    ensures Decoded(c.genHeight, MiddleValue(c, pruned), c.extra) == Received(c, pruned)
  {
  }

  lemma CoinbaseBack(c: CoinbaseTx, pruned: bool, rest: Data)
    requires CoinbaseOk(c)
    ensures ReadCoinbase(PutCoinbase(c, pruned) + rest) == Parsed(Received(c, pruned), rest)
  {
    MiddleBack(c, pruned, PutSuffix(TagsLength(c.extra), c.extra, 0) + rest);
    PartsBack(c, Middle(c, pruned), MiddleValue(c, pruned), rest);
    DecodedIsReceived(c, pruned);
  }
}
