/** Transaction outputs and their encoding (monero/transaction/output.go). */
module Outputs {
  import opened Blocks
  import opened Bytes

  const TX_OUT_TO_KEY: Byte := 2
  const TX_OUT_TO_TAGGED_KEY: Byte := 3

  datatype TxOutput = TxOutput(index: nat, reward: nat, key: Bytes32, kind: Byte, viewTag: Byte)

  predicate Known(o: TxOutput) { o.kind == TX_OUT_TO_KEY || o.kind == TX_OUT_TO_TAGGED_KEY }

  predicate AllKnown(os: seq<TxOutput>) { forall o :: o in os ==> Known(o) }

  function PutOutput(o: TxOutput): Data {
    PutUvarint(o.reward) + ([o.kind] + (o.key + if o.kind == TX_OUT_TO_TAGGED_KEY then [o.viewTag] else []))
  }

  function PutEach(os: seq<TxOutput>): Data {
    if os == [] then [] else PutOutput(os[0]) + PutEach(os[1..])
  }

  /** The encoding; there is none if a type is unknown. */
  function PutOutputs(os: seq<TxOutput>): Option<Data> {
    if AllKnown(os) then Some(PutUvarint(|os|) + PutEach(os)) else None
  }

  /** `int` of a 64-bit count as a loop bound: beyond 2^63 it is negative. */
  function LoopBound(count: nat): nat { if count < 0x8000_0000_0000_0000 then count else 0 }

  function ReadOutput(input: Data, index: nat): Parsed<TxOutput> {
    match ReadUvarint(input)
    case Failed => Failed
    case Parsed(reward, r1) =>
      match ReadByte(r1)
      case Failed => Failed
      case Parsed(kind, r2) =>
        if kind != TX_OUT_TO_KEY && kind != TX_OUT_TO_TAGGED_KEY then Failed
        else
          match ReadFull(r2, 32)
          case Failed => Failed
          case Parsed(key, r3) =>
            if kind == TX_OUT_TO_KEY then Parsed(TxOutput(index, reward, key, kind, 0), r3)
            else
              match ReadByte(r3)
              case Failed => Failed
              case Parsed(viewTag, r4) => Parsed(TxOutput(index, reward, key, kind, viewTag), r4)
  }

  function ReadEach(input: Data, index: nat, count: nat): Parsed<seq<TxOutput>>
    requires index <= count
    decreases count - index
  {
    if index == count then Parsed([], input)
    else
      match ReadOutput(input, index)
      case Failed => Failed
      case Parsed(o, r1) =>
        match ReadEach(r1, index + 1, count)
        case Failed => Failed
        case Parsed(more, r2) => Parsed([o] + more, r2)
  }

  function ReadOutputs(input: Data): Parsed<seq<TxOutput>> {
    match ReadUvarint(input)
    case Failed => Failed
    case Parsed(count, rest) => ReadEach(rest, 0, LoopBound(count))
  }

  // ---------------------------------------------------------------- round trip

  /** What decoding can give: positions as indexes, and view tags only where they are written. */
  predicate OutputOk(o: TxOutput, i: nat) {
    o.index == i && o.reward < MAX64 && Known(o) && (o.kind == TX_OUT_TO_KEY ==> o.viewTag == 0)
  }

  predicate OutputsOk(os: seq<TxOutput>) {
    |os| < 0x8000_0000_0000_0000 && forall i :: 0 <= i < |os| ==> OutputOk(os[i], i)
  }

  lemma OutputBack(o: TxOutput, i: nat, rest: Data)
    requires OutputOk(o, i)
    ensures ReadOutput(PutOutput(o) + rest, i) == Parsed(o, rest)
  {
    var tag := if o.kind == TX_OUT_TO_TAGGED_KEY then [o.viewTag] else [];
    Cat(PutUvarint(o.reward), [o.kind] + (o.key + tag), rest);
    Cat([o.kind], o.key + tag, rest);
    Cat(o.key, tag, rest);
    UvarintBack(o.reward, [o.kind] + (o.key + (tag + rest)));
    ReadByteBack(o.kind, o.key + (tag + rest));
    ReadFullBack(o.key, tag + rest);
    if o.kind == TX_OUT_TO_TAGGED_KEY {
      ReadByteBack(o.viewTag, rest);
    } else {
      assert tag + rest == rest;
    }
  }

  lemma {:induction false} EachBack(os: seq<TxOutput>, i: nat, count: nat, rest: Data)
    requires i + |os| == count && forall k :: 0 <= k < |os| ==> OutputOk(os[k], i + k)
    ensures ReadEach(PutEach(os) + rest, i, count) == Parsed(os, rest)
    decreases |os|
  {
    if os == [] {
      assert PutEach(os) + rest == rest;
    } else {
      Cat(PutOutput(os[0]), PutEach(os[1..]), rest);
      OutputBack(os[0], i, PutEach(os[1..]) + rest);
      EachBack(os[1..], i + 1, count, rest);
      assert [os[0]] + os[1..] == os;
    }
  }

  lemma OkIsKnown(os: seq<TxOutput>)
    requires OutputsOk(os)
    ensures AllKnown(os)
  {
  }

  lemma OutputsBack(os: seq<TxOutput>, rest: Data)
    requires OutputsOk(os)
    ensures PutOutputs(os).Some? && ReadOutputs(PutOutputs(os).value + rest) == Parsed(os, rest)
  {
    OkIsKnown(os);
    Cat(PutUvarint(|os|), PutEach(os), rest);
    UvarintBack(|os|, PutEach(os) + rest);
    EachBack(os, 0, |os|, rest);
  }

  // ---------------------------------------------------------------- the loops

  /** `Outputs.AppendBinary`. */
  method AppendOutputs(buf: Data, os: seq<TxOutput>) returns (data: Option<Data>)
    ensures data == match PutOutputs(os) case None => None case Some(d) => Some(buf + d)
  {
    var out := buf + PutUvarint(|os|);
    for i := 0 to |os|
      invariant AllKnown(os[..i]) && out + PutEach(os[i..]) == buf + (PutUvarint(|os|) + PutEach(os))
    {
      var o := os[i];
      if !Known(o) {
        return None;
      }
      assert os[i..][1..] == os[i + 1..];
      Cat(out, PutOutput(o), PutEach(os[i + 1..]));
      out := out + PutOutput(o);
      assert os[..i + 1] == os[..i] + [o];
    }
    assert os[..|os|] == os && out + PutEach([]) == out;
    return Some(out);
  }

  /** `Outputs.FromReader`. */
  method OutputsFromReader(input: Data) returns (r: Parsed<seq<TxOutput>>)
    ensures r == ReadOutputs(input)
  {
    var count := ReadUvarint(input);
    if !count.Parsed? {
      return Failed;
    }
    var os: seq<TxOutput>, rest := [], count.rest;
    var bound := LoopBound(count.value);
    ghost var all := ReadEach(rest, 0, bound);
    assert all.Parsed? ==> os + all.value == all.value;
    for index := 0 to bound
      invariant ReadOutputs(input) ==
        match ReadEach(rest, index, bound) case Parsed(more, r) => Parsed(os + more, r) case Failed => Failed
    {
      var o := ReadOutput(rest, index);
      if !o.Parsed? {
        return Failed;
      }
      ghost var more := ReadEach(o.rest, index + 1, bound);
      assert more.Parsed? ==> os + ([o.value] + more.value) == os + [o.value] + more.value;
      os, rest := os + [o.value], o.rest;
    }
    assert os + [] == os;
    return Parsed(os, rest);
  }

  /** `Outputs.BufferLength`. */
  method OutputsBufferLength(os: seq<TxOutput>) returns (n: nat)
    requires |os| < MAX64 && forall o :: o in os ==> o.reward < MAX64
    ensures PutOutputs(os).Some? ==> n == |PutOutputs(os).value|
  {
    n := UVarInt64Size(|os|);
    SizeIsLength(|os|);
    for i := 0 to |os|
      invariant AllKnown(os) ==> n + |PutEach(os[i..])| == |PutUvarint(|os|)| + |PutEach(os)|
    {
      var o := os[i];
      assert os[i..][1..] == os[i + 1..];
      SizeIsLength(o.reward);
      n := n + UVarInt64Size(o.reward) + 1 + 32;
      if o.kind == TX_OUT_TO_TAGGED_KEY {
        n := n + 1;
      }
    }
  }
}
