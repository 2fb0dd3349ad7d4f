/** Main-chain blocks and their full and compact encodings (monero/block/block.go). */
module MainBlock {
  import opened Blocks
  import opened Bytes
  import opened Outputs
  import opened ExtraTags
  import opened Coinbase

  const HARD_FORK_SUPPORTED_VERSION: Byte := 16

  datatype Block = Block(
    majorVersion: Byte,
    minorVersion: Byte,
    nonce: nat,
    timestamp: nat,
    previousId: Bytes32,
    coinbase: CoinbaseTx,
    transactions: seq<Bytes32>,
    parentIndices: seq<nat>)

  const ZERO32: Bytes32 := Zeros(32)

  // ---------------------------------------------------------------- writing

  function PutHeader(b: Block): Data {
    [b.majorVersion] + ([b.minorVersion] + (PutUvarint(b.timestamp) + (b.previousId + PutUint32(b.nonce))))
  }

  function PutHashes(txs: seq<Bytes32>): Data {
    if txs == [] then [] else txs[0] + PutHashes(txs[1..])
  }

  /** The index into the transactions of the parent, or 0. */
  function IndexAt(indices: seq<nat>, i: nat): nat {
    if i < |indices| then indices[i] else 0
  }

  function PutEntry(tx: Bytes32, index: nat): Data {
    if index != 0 then PutUvarint(index) else PutUvarint(0) + tx
  }

  /** Transactions from the i-th on, as indexes into the parent where there are any. */
  function PutCompact(txs: seq<Bytes32>, indices: seq<nat>, i: nat): Data
    requires i <= |txs|
    decreases |txs| - i
  {
    if i == |txs| then [] else PutEntry(txs[i], IndexAt(indices, i)) + PutCompact(txs, indices, i + 1)
  }

  function PutTransactions(b: Block, compact: bool): Data {
    PutUvarint(|b.transactions|) + if compact then PutCompact(b.transactions, b.parentIndices, 0)
      else PutHashes(b.transactions)
  }

  function PutBody(b: Block, pruned: bool, compact: bool): Data {
    PutHeader(b) + (PutCoinbase(b.coinbase, pruned) + PutTransactions(b, compact))
  }

  predicate Supported(b: Block) { b.majorVersion <= HARD_FORK_SUPPORTED_VERSION && b.majorVersion <= b.minorVersion }

  /** What is left of a block with an output of an unknown type: that error empties the buffer and
      is ignored. */
  function Remnant(b: Block, compact: bool): Data {
    PutSuffix(TagsLength(b.coinbase.extra), b.coinbase.extra, b.coinbase.extraBaseRct) + PutTransactions(b, compact)
  }

  /** `Block.AppendBinaryFlags`: unsupported versions are an error. */
  method AppendBlock(buf: Data, b: Block, pruned: bool, compact: bool) returns (data: Option<Data>)
    requires forall i :: 0 <= i < |b.coinbase.extra| ==> b.coinbase.extra[i].varInt < MAX64
    ensures data.Some? <==> Supported(b)
    ensures data.Some? ==>
      data.value == if pruned || AllKnown(b.coinbase.outputs) then buf + PutBody(b, pruned, compact)
        else Remnant(b, compact)
  {
    if b.majorVersion > HARD_FORK_SUPPORTED_VERSION || b.minorVersion < b.majorVersion {
      return None;
    }
    var out := AppendCoinbase(buf + PutHeader(b), b.coinbase, pruned);
    Cat(buf, PutHeader(b), PutCoinbase(b.coinbase, pruned));
    out := AppendTransactions(out, b, compact);
    Cat(buf, PutHeader(b) + PutCoinbase(b.coinbase, pruned), PutTransactions(b, compact));
    Cat(PutHeader(b), PutCoinbase(b.coinbase, pruned), PutTransactions(b, compact));
    return Some(out);
  }

  /** The transaction loops. */
  method AppendTransactions(buf: Data, b: Block, compact: bool) returns (data: Data)
    ensures data == buf + PutTransactions(b, compact)
  {
    var txs := b.transactions;
    data := buf + PutUvarint(|txs|);
    if compact {
      for i := 0 to |txs|
        invariant data + PutCompact(txs, b.parentIndices, i) == buf + PutTransactions(b, compact)
      {
        Cat(data, PutEntry(txs[i], IndexAt(b.parentIndices, i)), PutCompact(txs, b.parentIndices, i + 1));
        if i < |b.parentIndices| && b.parentIndices[i] != 0 {
          data := data + PutUvarint(b.parentIndices[i]);
        } else {
          data := data + (PutUvarint(0) + txs[i]);
        }
      }
    } else {
      for i := 0 to |txs|
        invariant data + PutHashes(txs[i..]) == buf + PutTransactions(b, compact)
      {
        assert txs[i..][1..] == txs[i + 1..];
        Cat(data, txs[i], PutHashes(txs[i + 1..]));
        data := data + txs[i];
      }
    }
    assert data + [] == data;
  }

  function BlockLength(b: Block, outputsLength: nat): nat {
    1 + 1 + UVarInt64Size(b.timestamp) + 32 + 4 + CoinbaseLength(b.coinbase, outputsLength)
      + UVarInt64Size(|b.transactions|) + 32 * |b.transactions|
  }

  lemma {:induction false} HashesLength(txs: seq<Bytes32>)
    ensures |PutHashes(txs)| == 32 * |txs|
  {
    if txs != [] {
      HashesLength(txs[1..]);
    }
  }

  /** `Block.BufferLength` is the length of the full encoding. */
  lemma BlockLengthIsLength(b: Block)
    requires b.timestamp < MAX64 && |b.transactions| < MAX64 && b.coinbase.unlockTime < MAX64
      && b.coinbase.genHeight < MAX64
    requires TagsLength(b.coinbase.extra) < MAX64 && forall i :: 0 <= i < |b.coinbase.extra| ==>
      b.coinbase.extra[i].varInt < MAX64
    ensures BlockLength(b, |OutputBytes(b.coinbase.outputs)|) == |PutBody(b, false, false)|
  {
    SizeIsLength(b.timestamp);
    SizeIsLength(|b.transactions|);
    HashesLength(b.transactions);
    CoinbaseLengthIsLength(b.coinbase);
  }

  // ---------------------------------------------------------------- reading

  function ReadHeader(input: Data): Parsed<Block> {
    if |input| < 2 then Failed
    else
      match ReadUvarint(input[2..])
      case Failed => Failed
      case Parsed(timestamp, r1) =>
        match ReadFull(r1, 32)
        case Failed => Failed
        case Parsed(previousId, r2) =>
          match ReadUint32(r2)
          case Failed => Failed
          case Parsed(nonce, r3) =>
            Parsed(Block(input[0], input[1], nonce, timestamp, previousId, NO_COINBASE, [], []), r3)
  }

  const NO_COINBASE := CoinbaseTx(0, 0, 0, 0, 0, [], 0, 0, [], 0)

  function ReadHashes(input: Data, i: nat, count: nat): Parsed<seq<Bytes32>>
    requires i <= count
    decreases count - i
  {
    if i == count then Parsed([], input)
    else
      match ReadFull(input, 32)
      case Failed => Failed
      case Parsed(tx, r1) =>
        match ReadHashes(r1, i + 1, count)
        case Failed => Failed
        case Parsed(more, r2) => Parsed([tx] + more, r2)
  }

  /** One entry of the compact form: the zero hash stands for what the parent must supply. */
  function ReadEntry(input: Data): Parsed<(Bytes32, nat)> {
    match ReadUvarint(input)
    case Failed => Failed
    case Parsed(index, r1) =>
      if index != 0 then Parsed((ZERO32, index), r1)
      else
        match ReadFull(r1, 32)
        case Failed => Failed
        case Parsed(tx, r2) => Parsed((tx, 0), r2)
  }

  function ReadEntries(input: Data, i: nat, count: nat): Parsed<(seq<Bytes32>, seq<nat>)>
    requires i <= count
    decreases count - i
  {
    if i == count then Parsed(([], []), input)
    else
      match ReadEntry(input)
      case Failed => Failed
      case Parsed(e, r1) =>
        After([e.0], [e.1], ReadEntries(r1, i + 1, count))
  }

  /** What was read before, followed by the outcome of the rest of a loop. */
  function After(txs: seq<Bytes32>, indices: seq<nat>, p: Parsed<(seq<Bytes32>, seq<nat>)>)
    : Parsed<(seq<Bytes32>, seq<nat>)>
  {
    match p
    case Failed => Failed
    case Parsed(more, rest) => Parsed((txs + more.0, indices + more.1), rest)
  }

  function ReadTransactions(input: Data, compact: bool): Parsed<(seq<Bytes32>, seq<nat>)> {
    match ReadUvarint(input)
    case Failed => Failed
    case Parsed(count, r1) =>
      if compact then ReadEntries(r1, 0, LoopBound(count))
      else
        match ReadHashes(r1, 0, LoopBound(count))
        case Failed => Failed
        case Parsed(txs, r2) => Parsed((txs, []), r2)
  }

  lemma AfterNothing(p: Parsed<(seq<Bytes32>, seq<nat>)>)
    ensures After([], [], p) == p
  {
    assert p.Parsed? ==> [] + p.value.0 == p.value.0 && [] + p.value.1 == p.value.1;
  }

  lemma AfterOne(txs: seq<Bytes32>, indices: seq<nat>, e: (Bytes32, nat), p: Parsed<(seq<Bytes32>, seq<nat>)>)
    ensures After(txs, indices, After([e.0], [e.1], p)) == After(txs + [e.0], indices + [e.1], p)
  {
    if p.Parsed? {
      assert txs + ([e.0] + p.value.0) == txs + [e.0] + p.value.0;
      assert indices + ([e.1] + p.value.1) == indices + [e.1] + p.value.1;
    }
  }

  /** The loop of the compact form. */
  method EntriesFromReader(input: Data, count: nat) returns (r: Parsed<(seq<Bytes32>, seq<nat>)>)
    ensures r == ReadEntries(input, 0, count)
  {
    var txs: seq<Bytes32>, indices: seq<nat>, rest := [], [], input;
    AfterNothing(ReadEntries(input, 0, count));
    for i := 0 to count
      invariant ReadEntries(input, 0, count) == After(txs, indices, ReadEntries(rest, i, count))
    {
      var e := ReadEntry(rest);
      if !e.Parsed? {
        return Failed;
      }
      AfterOne(txs, indices, e.value, ReadEntries(e.rest, i + 1, count));
      txs, indices, rest := txs + [e.value.0], indices + [e.value.1], e.rest;
    }
    assert txs + [] == txs && indices + [] == indices;
    return Parsed((txs, indices), rest);
  }

  /** The loop of the full form. */
  method HashesFromReader(input: Data, count: nat) returns (r: Parsed<seq<Bytes32>>)
    ensures r == ReadHashes(input, 0, count)
  {
    var txs: seq<Bytes32>, rest := [], input;
    ghost var all := ReadHashes(input, 0, count);
    assert all.Parsed? ==> txs + all.value == all.value;
    for i := 0 to count
      invariant ReadHashes(input, 0, count) ==
        match ReadHashes(rest, i, count) case Parsed(more, r) => Parsed(txs + more, r) case Failed => Failed
    {
      var tx := ReadFull(rest, 32);
      if !tx.Parsed? {
        return Failed;
      }
      ghost var more := ReadHashes(tx.rest, i + 1, count);
      assert more.Parsed? ==> txs + ([tx.value] + more.value) == txs + [tx.value] + more.value;
      txs, rest := txs + [tx.value], tx.rest;
    }
    assert txs + [] == txs;
    return Parsed(txs, rest);
  }

  /** `Block.FromReaderFlags`. */
  function ReadBlock(input: Data, compact: bool): Parsed<Block> {
    match ReadHeader(input)
    case Failed => Failed
    case Parsed(header, r1) =>
      match ReadCoinbase(r1)
      case Failed => Failed
      case Parsed(coinbase, r2) =>
        match ReadTransactions(r2, compact)
        case Failed => Failed
        case Parsed(txs, r3) => Parsed(header.(coinbase := coinbase, transactions := txs.0, parentIndices := txs.1), r3)
  }

  lemma BlockChecks(input: Data, compact: bool)
    ensures var p := ReadBlock(input, compact); p.Parsed? ==> CoinbaseChecked(p.value.coinbase)
  {
    var h := ReadHeader(input);
    if h.Parsed? {
      CoinbaseChecks(h.rest);
    }
  }

  // ---------------------------------------------------------------- round trips

  predicate BlockOk(b: Block) {
    && Supported(b)
    && b.nonce < 0x1_0000_0000
    && b.timestamp < MAX64
    && CoinbaseOk(b.coinbase)
    && |b.transactions| < 0x8000_0000_0000_0000
    && forall i :: 0 <= i < |b.parentIndices| ==> b.parentIndices[i] < MAX64
  }

  lemma HeaderParts(a: Data, b: Data, c: Data, d: Data, e: Data, rest: Data)
    requires |a| == 1 && |b| == 1
    ensures var h := a + (b + (c + (d + e))) + rest;
      |h| >= 2 && h[0] == a[0] && h[1] == b[0] && h[2..] == c + (d + (e + rest))
  {
    Cat(a, b + (c + (d + e)), rest);
    Cat(b, c + (d + e), rest);
    Cat(c, d + e, rest);
    Cat(d, e, rest);
    var tail := c + (d + (e + rest));
    assert (a + (b + tail))[2..] == tail;
  }

  lemma HeaderBack(b: Block, rest: Data)
    requires b.nonce < 0x1_0000_0000 && b.timestamp < MAX64
    ensures ReadHeader(PutHeader(b) + rest)
      == Parsed(b.(coinbase := NO_COINBASE, transactions := [], parentIndices := []), rest)
  {
    var t, n := PutUvarint(b.timestamp), PutUint32(b.nonce);
    HeaderParts([b.majorVersion], [b.minorVersion], t, b.previousId, n, rest);
    UvarintBack(b.timestamp, b.previousId + (n + rest));
    ReadFullBack(b.previousId, n + rest);
    Uint32Back(b.nonce, rest);
  }

  lemma {:induction false} HashesBack(txs: seq<Bytes32>, i: nat, count: nat, rest: Data)
    requires i + |txs| == count
    ensures ReadHashes(PutHashes(txs) + rest, i, count) == Parsed(txs, rest)
    decreases |txs|
  {
    if txs == [] {
      assert PutHashes(txs) + rest == rest;
    } else {
      Cat(txs[0], PutHashes(txs[1..]), rest);
      ReadFullBack(txs[0], PutHashes(txs[1..]) + rest);
      HashesBack(txs[1..], i + 1, count, rest);
      assert [txs[0]] + txs[1..] == txs;
    }
  }

  /** What the compact form keeps of the transactions, and the indexes it carries. */
  function Thinned(txs: seq<Bytes32>, indices: seq<nat>): (r: seq<Bytes32>)
    ensures |r| == |txs| && forall i :: 0 <= i < |txs| ==> r[i] == if IndexAt(indices, i) == 0 then txs[i] else ZERO32
  {
    seq(|txs|, i requires 0 <= i < |txs| => if IndexAt(indices, i) == 0 then txs[i] else ZERO32)
  }

  function Padded(indices: seq<nat>, n: nat): (r: seq<nat>)
    ensures |r| == n && forall i :: 0 <= i < n ==> r[i] == IndexAt(indices, i)
  {
    seq(n, i requires 0 <= i < n => IndexAt(indices, i))
  }

  lemma EntryBack(tx: Bytes32, index: nat, rest: Data)
    requires index < MAX64
    ensures ReadEntry(PutEntry(tx, index) + rest) == Parsed((if index == 0 then tx else ZERO32, index), rest)
  {
    if index == 0 {
      Cat(PutUvarint(0), tx, rest);
      UvarintBack(0, tx + rest);
      ReadFullBack(tx, rest);
    } else {
      UvarintBack(index, rest);
    }
  }

  lemma EntriesStep(input: Data, i: nat, count: nat, e: (Bytes32, nat), r1: Data, more: (seq<Bytes32>, seq<nat>),
                    r2: Data)
    requires i < count && ReadEntry(input) == Parsed(e, r1) && ReadEntries(r1, i + 1, count) == Parsed(more, r2)
    ensures ReadEntries(input, i, count) == Parsed(([e.0] + more.0, [e.1] + more.1), r2)
  {
  }

  ghost predicate EntriesComeBack(txs: seq<Bytes32>, indices: seq<nat>, i: nat, rest: Data)
    requires i <= |txs|
  {
    ReadEntries(PutCompact(txs, indices, i) + rest, i, |txs|)
      == Parsed((Thinned(txs, indices)[i..], Padded(indices, |txs|)[i..]), rest)
  }

  lemma FirstOfRest<T>(s: seq<T>, i: nat)
    requires i < |s|
    ensures s[i..] == [s[i]] + s[i + 1..]
  {
  }

  lemma OneMoreEntry(txs: seq<Bytes32>, indices: seq<nat>, i: nat, rest: Data)
    requires i < |txs| && IndexAt(indices, i) < MAX64 && EntriesComeBack(txs, indices, i + 1, rest)
    ensures EntriesComeBack(txs, indices, i, rest)
  {
    var thin, pad := Thinned(txs, indices), Padded(indices, |txs|);
    var entry, below := PutEntry(txs[i], pad[i]), PutCompact(txs, indices, i + 1);
    Cat(entry, below, rest);
    EntryBack(txs[i], pad[i], below + rest);
    EntriesStep(PutCompact(txs, indices, i) + rest, i, |txs|, (thin[i], pad[i]), below + rest,
                (thin[i + 1..], pad[i + 1..]), rest);
    FirstOfRest(thin, i);
    FirstOfRest(pad, i);
  }

  lemma {:induction false} EntriesBack(txs: seq<Bytes32>, indices: seq<nat>, i: nat, rest: Data)
    requires i <= |txs| && forall k :: 0 <= k < |indices| ==> indices[k] < MAX64
    ensures EntriesComeBack(txs, indices, i, rest)
    decreases |txs| - i
  {
    if i == |txs| {
      assert PutCompact(txs, indices, i) + rest == rest;
      assert Thinned(txs, indices)[i..] == [] && Padded(indices, |txs|)[i..] == [];
    } else {
      EntriesBack(txs, indices, i + 1, rest);
      OneMoreEntry(txs, indices, i, rest);
    }
  }

  lemma TransactionsBack(b: Block, compact: bool, rest: Data)
    requires BlockOk(b)
    ensures ReadTransactions(PutTransactions(b, compact) + rest, compact) == Parsed(
      if compact then (Thinned(b.transactions, b.parentIndices), Padded(b.parentIndices, |b.transactions|))
      else (b.transactions, []), rest)
  {
    var txs := b.transactions;
    var body := if compact then PutCompact(txs, b.parentIndices, 0) else PutHashes(txs);
    Cat(PutUvarint(|txs|), body, rest);
    UvarintBack(|txs|, body + rest);
    if compact {
      EntriesBack(txs, b.parentIndices, 0, rest);
      assert Thinned(txs, b.parentIndices)[0..] == Thinned(txs, b.parentIndices);
      assert Padded(b.parentIndices, |txs|)[0..] == Padded(b.parentIndices, |txs|);
    } else {
      HashesBack(txs, 0, |txs|, rest);
    }
  }

  /** The block as it comes back from one of its encodings. */
  function Received(b: Block, pruned: bool, compact: bool): Block {
    b.(coinbase := Coinbase.Received(b.coinbase, pruned),
       transactions := if compact then Thinned(b.transactions, b.parentIndices) else b.transactions,
       parentIndices := if compact then Padded(b.parentIndices, |b.transactions|) else [])
  }

  lemma Compose(input: Data, r1: Data, r2: Data, rest: Data, header: Block, coinbase: CoinbaseTx,
                txs: (seq<Bytes32>, seq<nat>), compact: bool)
    requires ReadHeader(input) == Parsed(header, r1) && ReadCoinbase(r1) == Parsed(coinbase, r2)
    requires ReadTransactions(r2, compact) == Parsed(txs, rest)
    ensures ReadBlock(input, compact)
      == Parsed(header.(coinbase := coinbase, transactions := txs.0, parentIndices := txs.1), rest)
  {
  }

  lemma BlockBack(b: Block, pruned: bool, compact: bool, rest: Data)
    requires BlockOk(b)
    ensures ReadBlock(PutBody(b, pruned, compact) + rest, compact) == Parsed(Received(b, pruned, compact), rest)
  {
    var header, coinbase, txs := PutHeader(b), PutCoinbase(b.coinbase, pruned), PutTransactions(b, compact);
    Cat(header, coinbase + txs, rest);
    Cat(coinbase, txs, rest);
    HeaderBack(b, coinbase + (txs + rest));
    CoinbaseBack(b.coinbase, pruned, txs + rest);
    TransactionsBack(b, compact, rest);
    var r := Received(b, pruned, compact);
    Compose(PutBody(b, pruned, compact) + rest, coinbase + (txs + rest), txs + rest, rest,
            b.(coinbase := NO_COINBASE, transactions := [], parentIndices := []), r.coinbase,
            (r.transactions, r.parentIndices), compact);
  }

  // ---------------------------------------------------------------- the blob that is hashed

  /** Nonce, four bytes of extra nonce and possibly the template id are replaced by zeros. */
  function ErasedBlock(b: Block, zeroTemplateId: bool): Block {
    b.(nonce := 0, coinbase := Erased(b.coinbase, zeroTemplateId), parentIndices := [])
  }

  /** `Block.SideChainHashingBlob` is the encoding of the erased block. */
  method SideChainHashingBlob(b: Block, zeroTemplateId: bool) returns (blob: Data)
    requires forall i :: 0 <= i < |b.coinbase.extra| ==> b.coinbase.extra[i].varInt < MAX64
    ensures var e := ErasedBlock(b, zeroTemplateId);
      blob == if AllKnown(b.coinbase.outputs) then PutBody(e, false, false) else Remnant(e, false)
  {
    var e := ErasedBlock(b, zeroTemplateId);
    blob := PutHeader(b.(nonce := 0));
    blob := AppendErasedCoinbase(blob, b.coinbase, zeroTemplateId);
    blob := AppendTransactions(blob, b, false);
    assert PutTransactions(b, false) == PutTransactions(e, false);
    Cat(PutHeader(e), PutCoinbase(e.coinbase, false), PutTransactions(e, false));
  }

  /** `CoinbaseTransaction.SideChainHashingBlob`; the length is that of the tags as they are. */
  method AppendErasedCoinbase(buf: Data, c: CoinbaseTx, zeroTemplateId: bool) returns (data: Data)
    requires forall i :: 0 <= i < |c.extra| ==> c.extra[i].varInt < MAX64
    ensures var e := Erased(c, zeroTemplateId);
      data == if AllKnown(c.outputs) then buf + PutCoinbase(e, false)
        else PutSuffix(TagsLength(e.extra), e.extra, e.extraBaseRct)
  {
    var e := Erased(c, zeroTemplateId);
    data := buf + PutPrefix(c);
    var out := AppendOutputs(data, c.outputs);
    data := if out.Some? then out.value else [];
    var length := TagsBufferLength(c.extra);
    TagsLengthIsLength(c.extra);
    ErasedLength(c.extra, zeroTemplateId);
    ghost var before := data;
    data := data + PutUvarint(length);
    data := AppendErasedTags(data, c.extra, zeroTemplateId);
    data := data + [c.extraBaseRct];
    ghost var suffix := PutSuffix(length, e.extra, c.extraBaseRct);
    assert data == before + suffix by {
      Cat(before, PutUvarint(length), PutTags(e.extra));
      Cat(before + PutUvarint(length), PutTags(e.extra), [c.extraBaseRct]);
      Cat(before, PutUvarint(length), PutTags(e.extra) + [c.extraBaseRct]);
    }
    if AllKnown(c.outputs) {
      Cat(buf, PutPrefix(c), OutputBytes(c.outputs));
      Cat(buf + PutPrefix(c), OutputBytes(c.outputs), suffix);
      Cat(buf, PutPrefix(c), OutputBytes(c.outputs) + suffix);
    } else {
      assert [] + suffix == suffix;
    }
  }
}
