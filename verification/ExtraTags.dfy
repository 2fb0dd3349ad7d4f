/** The extra field of a coinbase transaction (monero/transaction/extra.go). */
module ExtraTags {
  import opened Blocks
  import opened Bytes

  const TAG_PADDING: Byte := 0x00
  const TAG_PUB_KEY: Byte := 0x01
  const TAG_NONCE: Byte := 0x02
  const TAG_MERGE_MINING: Byte := 0x03
  const TAG_ADDITIONAL_PUB_KEYS: Byte := 0x04
  const TAG_MINERGATE: Byte := 0xde

  const PADDING_MAX_COUNT: nat := 255
  const NONCE_MAX_COUNT: nat := 255
  const ADDITIONAL_PUB_KEYS_MAX_COUNT: nat := 4096
  const TEMPLATE_NONCE_SIZE: nat := 4

  /** `varInt` is a depth in a merge-mining tag and a length elsewhere. */
  datatype ExtraTag = ExtraTag(varInt: nat, tag: Byte, hasVarInt: bool, data: Data)

  const NO_TAG := ExtraTag(0, 0, false, [])

  // ---------------------------------------------------------------- writing

  function PutVarInt(t: ExtraTag): Data {
    if t.hasVarInt then PutUvarint(t.varInt) else []
  }

  function PutTag(t: ExtraTag): Data { [t.tag] + (PutVarInt(t) + t.data) }

  function PutTags(ts: seq<ExtraTag>): Data {
    if ts == [] then [] else PutTag(ts[0]) + PutTags(ts[1..])
  }

  function TagLength(t: ExtraTag): nat {
    if t.hasVarInt then 1 + UVarInt64Size(t.varInt) + |t.data| else 1 + |t.data|
  }

  function TagsLength(ts: seq<ExtraTag>): nat {
    if ts == [] then 0 else TagLength(ts[0]) + TagsLength(ts[1..])
  }

  function Zeros(n: nat): (r: Data)
    ensures |r| == n
  {
    seq(n, _ => 0)
  }

  /** The data as it enters the template id: without template id and without the first four bytes of
      the nonce. */
  function ErasedData(t: ExtraTag, zeroTemplateId: bool): (r: Data)
    ensures |r| == |t.data|
  {
    if zeroTemplateId && t.tag == TAG_MERGE_MINING then Zeros(|t.data|)
    else if t.tag == TAG_NONCE then
      if |t.data| > TEMPLATE_NONCE_SIZE then Zeros(TEMPLATE_NONCE_SIZE) + t.data[TEMPLATE_NONCE_SIZE..]
        else Zeros(|t.data|)
    else t.data
  }

  function ErasedTag(t: ExtraTag, zeroTemplateId: bool): ExtraTag { t.(data := ErasedData(t, zeroTemplateId)) }

  function ErasedTags(ts: seq<ExtraTag>, zeroTemplateId: bool): (r: seq<ExtraTag>)
    ensures |r| == |ts| && forall i :: 0 <= i < |ts| ==> r[i] == ErasedTag(ts[i], zeroTemplateId)
  {
    seq(|ts|, i requires 0 <= i < |ts| => ErasedTag(ts[i], zeroTemplateId))
  }

  // ---------------------------------------------------------------- reading

  /** How many zeros follow, up to a limit, and whether they are followed by the end of the input. */
  function Padding(input: Data, size: nat): Parsed<nat>
    decreases |input|
  {
    if size > PADDING_MAX_COUNT then Failed
    else if input == [] then Parsed(size, [])
    else if input[0] != 0 then Failed
    else Padding(input[1..], size + 1)
  }

  /** The outcome for one tag: the input may also have ended, which is no error. */
  datatype TagRead = TagRead(tag: ExtraTag, rest: Data) | Ended | Broken

  /** As many bytes as asked for. None at all count as the end of the input. */
  function ReadData(t: ExtraTag, input: Data, n: nat): TagRead {
    if n > 0 && input == [] then Ended
    else
      match ReadFull(input, n)
      case Failed => Broken
      case Parsed(data, rest) => TagRead(t.(data := data), rest)
  }

  /** A length or depth, checked against a limit, and the bytes it stands for. */
  function ReadSized(tag: Byte, input: Data, limit: nat, size: nat -> nat): TagRead {
    if input == [] then Ended
    else
      match ReadUvarint(input)
      case Failed => Broken
      case Parsed(n, rest) => if n > limit then Broken else ReadData(ExtraTag(n, tag, true, []), rest, size(n))
  }

  /** `ExtraTag.FromReader`: the tag is read over the one before, so `hasVarInt` stays set once it was
      and a public key keeps the previous `varInt`. Padding of a single byte panics. */
  function ReadTag(t: ExtraTag, input: Data): TagRead {
    if input == [] then Ended
    else
      var tag, rest := input[0], input[1..];
      if tag == TAG_PADDING then
        match Padding(rest, 1)
        case Failed => Broken
        case Parsed(size, r) => if size < 2 then Broken else TagRead(t.(tag := tag, data := Zeros(size - 2)), r)
      else if tag == TAG_PUB_KEY then ReadData(t.(tag := tag), rest, 32)
      else if tag == TAG_NONCE || tag == TAG_MINERGATE then ReadSized(tag, rest, NONCE_MAX_COUNT, n => n)
      else if tag == TAG_MERGE_MINING then ReadSized(tag, rest, MAX64, _ => 32)
      else if tag == TAG_ADDITIONAL_PUB_KEYS then ReadSized(tag, rest, ADDITIONAL_PUB_KEYS_MAX_COUNT, n => 32 * n)
      else Broken
  }

  predicate HasTag(ts: seq<ExtraTag>, tag: Byte) { exists t :: t in ts && t.tag == tag }

  lemma ReadTagShrinks(t: ExtraTag, input: Data)
    ensures ReadTag(t, input).TagRead? ==> |ReadTag(t, input).rest| < |input|
  {
    if ReadTag(t, input).TagRead? {
      var r1 := input[1..];
      UvarintShrinks(r1, 0);
      if input[0] == TAG_PADDING {
        PaddingShrinks(r1, 1);
      }
    }
  }

  lemma {:induction false} UvarintShrinks(input: Data, i: nat)
    ensures ReadUvarintFrom(input, i).Parsed? ==> |ReadUvarintFrom(input, i).rest| < |input|
    decreases 10 - i
  {
    if i < 10 && input != [] && input[0] >= 0x80 {
      UvarintShrinks(input[1..], i + 1);
    }
  }

  lemma {:induction false} PaddingShrinks(input: Data, size: nat)
    ensures Padding(input, size).Parsed? ==> |Padding(input, size).rest| <= |input|
    decreases |input|
  {
    if input != [] && size <= PADDING_MAX_COUNT {
      PaddingShrinks(input[1..], size + 1);
    }
  }

  /** `ExtraTags.FromReader` with the tags read so far and the variable that holds the last one. An
      end of input anywhere in a tag is taken as the end of the list. */
  function ReadTags(sofar: seq<ExtraTag>, last: ExtraTag, input: Data): Option<seq<ExtraTag>>
    decreases |input|
  {
    ReadTagShrinks(last, input);
    match ReadTag(last, input)
    case Ended => Some(sofar)
    case Broken => None
    case TagRead(t, rest) => if HasTag(sofar, t.tag) then None else ReadTags(sofar + [t], t, rest)
  }

  // ---------------------------------------------------------------- round trip

  /** A tag that decoding gives back: of a known kind other than padding, with data of the right
      length, and with a `varInt` only where one is written. */
  predicate TagOk(t: ExtraTag) {
    && t.varInt < MAX64
    && if t.tag == TAG_PUB_KEY then !t.hasVarInt && t.varInt == 0 && |t.data| == 32
       else
         && t.hasVarInt
         && if t.tag == TAG_NONCE || t.tag == TAG_MINERGATE then t.varInt == |t.data| <= NONCE_MAX_COUNT
            else if t.tag == TAG_MERGE_MINING then |t.data| == 32
            else
              && t.tag == TAG_ADDITIONAL_PUB_KEYS
              && t.varInt <= ADDITIONAL_PUB_KEYS_MAX_COUNT
              && |t.data| == 32 * t.varInt
  }

  predicate Distinct(ts: seq<ExtraTag>) {
    forall i, j :: 0 <= i < j < |ts| ==> ts[i].tag != ts[j].tag
  }

  /** A public key only in front. */
  predicate KeyFirst(ts: seq<ExtraTag>) {
    forall i :: 0 < i < |ts| ==> ts[i].tag != TAG_PUB_KEY
  }

  predicate TagsOk(ts: seq<ExtraTag>) {
    (forall i :: 0 <= i < |ts| ==> TagOk(ts[i])) && Distinct(ts) && KeyFirst(ts)
  }

  /** A tag as it is read over another one. */
  function Carry(last: ExtraTag, t: ExtraTag): ExtraTag {
    if t.tag == TAG_PUB_KEY then t.(hasVarInt := last.hasVarInt, varInt := last.varInt) else t
  }

  function Carried(last: ExtraTag, ts: seq<ExtraTag>): seq<ExtraTag>
    decreases |ts|
  {
    if ts == [] then [] else [Carry(last, ts[0])] + Carried(Carry(last, ts[0]), ts[1..])
  }

  lemma TagBack(last: ExtraTag, t: ExtraTag, rest: Data)
    requires TagOk(t)
    ensures ReadTag(last, PutTag(t) + rest) == TagRead(Carry(last, t), rest)
  {
    Cat([t.tag], PutVarInt(t) + t.data, rest);
    Cat(PutVarInt(t), t.data, rest);
    ReadByteBack(t.tag, PutVarInt(t) + (t.data + rest));
    ReadFullBack(t.data, rest);
    if t.hasVarInt {
      UvarintBack(t.varInt, t.data + rest);
    } else {
      assert PutVarInt(t) + (t.data + rest) == t.data + rest;
    }
  }

  lemma {:induction false} TagsBackFrom(sofar: seq<ExtraTag>, last: ExtraTag, ts: seq<ExtraTag>)
    requires (forall i :: 0 <= i < |ts| ==> TagOk(ts[i]) && !HasTag(sofar, ts[i].tag)) && Distinct(ts)
    ensures ReadTags(sofar, last, PutTags(ts)) == Some(sofar + Carried(last, ts))
    decreases |ts|
  {
    if ts == [] {
      assert sofar + Carried(last, ts) == sofar;
    } else {
      var t := Carry(last, ts[0]);
      TagBack(last, ts[0], PutTags(ts[1..]));
      assert sofar + Carried(last, ts) == (sofar + [t]) + Carried(t, ts[1..]);
      TagsBackFrom(sofar + [t], t, ts[1..]);
    }
  }

  lemma {:induction false} CarriedNothing(last: ExtraTag, ts: seq<ExtraTag>)
    requires forall i :: 0 <= i < |ts| ==> ts[i].tag != TAG_PUB_KEY
    ensures Carried(last, ts) == ts
    decreases |ts|
  {
    if ts != [] {
      CarriedNothing(ts[0], ts[1..]);
    }
  }

  /** The length or depth of one tag goes to a public key right after it. */
  lemma {:induction false} CarriedAt(last: ExtraTag, ts: seq<ExtraTag>, i: nat)
    requires i < |ts| && ts[i].tag == TAG_PUB_KEY && forall k :: 0 <= k < |ts| ==> TagOk(ts[k])
    requires if i == 0 then last.hasVarInt else ts[i - 1].tag != TAG_PUB_KEY
    ensures |Carried(last, ts)| == |ts| && Carried(last, ts)[i].hasVarInt
    decreases |ts|
  {
    var t := Carry(last, ts[0]);
    if i > 0 {
      CarriedAt(t, ts[1..], i - 1);
    } else {
      CarriedLength(t, ts[1..]);
    }
  }

  lemma {:induction false} CarriedLength(last: ExtraTag, ts: seq<ExtraTag>)
    ensures |Carried(last, ts)| == |ts|
    decreases |ts|
  {
    if ts != [] {
      CarriedLength(Carry(last, ts[0]), ts[1..]);
    }
  }

  lemma KeyFirstIsRestored(ts: seq<ExtraTag>)
    requires (forall i :: 0 <= i < |ts| ==> TagOk(ts[i])) && KeyFirst(ts)
    ensures Carried(NO_TAG, ts) == ts
  {
    if ts != [] {
      var rest := ts[1..];
      assert forall i :: 0 <= i < |rest| ==> rest[i].tag != TAG_PUB_KEY;
      assert TagOk(ts[0]) && Carry(NO_TAG, ts[0]) == ts[0];
      CarriedNothing(ts[0], rest);
      assert [ts[0]] + rest == ts;
    }
  }

  lemma LaterKeyIsNot(ts: seq<ExtraTag>, i: nat)
    requires (forall i :: 0 <= i < |ts| ==> TagOk(ts[i])) && Distinct(ts) && 0 < i < |ts| && ts[i].tag == TAG_PUB_KEY
    ensures Carried(NO_TAG, ts) != ts
  {
    assert ts[i - 1].tag != ts[i].tag;
    CarriedAt(NO_TAG, ts, i);
    assert TagOk(ts[i]);
  }

  /** A list of proper, distinct tags is restored exactly if no public key comes after another tag. */
  lemma TagsBackIff(ts: seq<ExtraTag>)
    requires (forall i :: 0 <= i < |ts| ==> TagOk(ts[i])) && Distinct(ts)
    ensures ReadTags([], NO_TAG, PutTags(ts)) == Some(ts) <==> KeyFirst(ts)
  {
    TagsBackFrom([], NO_TAG, ts);
    assert [] + Carried(NO_TAG, ts) == Carried(NO_TAG, ts);
    if KeyFirst(ts) {
      KeyFirstIsRestored(ts);
    } else {
      var i :| 0 < i < |ts| && ts[i].tag == TAG_PUB_KEY;
      LaterKeyIsNot(ts, i);
    }
  }

  lemma {:induction false} TagsLengthIsLength(ts: seq<ExtraTag>)
    requires forall i :: 0 <= i < |ts| ==> ts[i].varInt < MAX64
    ensures TagsLength(ts) == |PutTags(ts)|
  {
    if ts != [] {
      SizeIsLength(ts[0].varInt);
      TagsLengthIsLength(ts[1..]);
    }
  }

  // ---------------------------------------------------------------- erasing

  lemma ErasedTagOk(t: ExtraTag, zeroTemplateId: bool)
    requires TagOk(t)
    ensures TagOk(ErasedTag(t, zeroTemplateId))
  {
  }

  lemma ErasedTagsOk(ts: seq<ExtraTag>, zeroTemplateId: bool)
    requires TagsOk(ts)
    ensures TagsOk(ErasedTags(ts, zeroTemplateId))
  {
    forall i | 0 <= i < |ts| ensures TagOk(ErasedTags(ts, zeroTemplateId)[i]) {
      ErasedTagOk(ts[i], zeroTemplateId);
    }
  }

  lemma {:induction false} ErasedLength(ts: seq<ExtraTag>, zeroTemplateId: bool)
    ensures TagsLength(ErasedTags(ts, zeroTemplateId)) == TagsLength(ts)
  {
    if ts != [] {
      assert ErasedTags(ts, zeroTemplateId)[1..] == ErasedTags(ts[1..], zeroTemplateId);
      ErasedLength(ts[1..], zeroTemplateId);
    }
  }

  // ---------------------------------------------------------------- the loops

  /** `ExtraTags.AppendBinary`. */
  method AppendTags(buf: Data, ts: seq<ExtraTag>) returns (data: Data)
    ensures data == buf + PutTags(ts)
  {
    data := buf;
    for i := 0 to |ts|
      invariant data + PutTags(ts[i..]) == buf + PutTags(ts)
    {
      assert ts[i..][1..] == ts[i + 1..];
      Cat(data, PutTag(ts[i]), PutTags(ts[i + 1..]));
      data := data + PutTag(ts[i]);
    }
    assert data + PutTags([]) == data;
  }

  /** `ExtraTags.SideChainHashingBlob`: as if the erased tags were written. */
  method AppendErasedTags(buf: Data, ts: seq<ExtraTag>, zeroTemplateId: bool) returns (data: Data)
    ensures data == buf + PutTags(ErasedTags(ts, zeroTemplateId))
  {
    ghost var erased := ErasedTags(ts, zeroTemplateId);
    data := buf;
    for i := 0 to |ts|
      invariant data + PutTags(erased[i..]) == buf + PutTags(erased)
    {
      assert erased[i..][1..] == erased[i + 1..];
      Cat(data, PutTag(erased[i]), PutTags(erased[i + 1..]));
      data := data + PutTag(ErasedTag(ts[i], zeroTemplateId));
    }
    assert data + PutTags([]) == data;
  }

  /** `ExtraTags.BufferLength`. */
  method TagsBufferLength(ts: seq<ExtraTag>) returns (n: nat)
    requires forall i :: 0 <= i < |ts| ==> ts[i].varInt < MAX64
    ensures n == |PutTags(ts)|
  {
    n := 0;
    for i := 0 to |ts|
      invariant n + TagsLength(ts[i..]) == TagsLength(ts)
    {
      assert ts[i..][1..] == ts[i + 1..];
      n := n + TagLength(ts[i]);
    }
    TagsLengthIsLength(ts);
  }

  /** `ExtraTags.FromReader`. */
  method TagsFromReader(input: Data) returns (r: Option<seq<ExtraTag>>)
    ensures r == ReadTags([], NO_TAG, input)
  {
    var tag, rest, ts := NO_TAG, input, [];
    while true
      invariant ReadTags(ts, tag, rest) == ReadTags([], NO_TAG, input)
      decreases |rest|
    {
      ReadTagShrinks(tag, rest);
      var p := ReadTag(tag, rest);
      if p.Ended? {
        return Some(ts);
      }
      if p.Broken? || HasTag(ts, p.tag.tag) {
        return None;
      }
      tag, rest := p.tag, p.rest;
      ts := ts + [tag];
    }
  }
}
