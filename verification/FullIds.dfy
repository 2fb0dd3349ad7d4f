/** Template id and full id of a pool block (p2pool/sidechain/poolblock.go, consensus.go): the template
    id is a hash of an encoding in which nonce, extra nonce and template id are erased; the full id
    adds the nonces. */
module FullIds {
  import opened Bytes
  import opened Outputs
  import opened ExtraTags
  import opened Coinbase
  import opened MainBlock
  import opened SideData
  import opened Templates
  import opened Broadcast

  type Keccak = Data -> Bytes32

  /** What the template id is the hash of. */
  function IdBlob(t: Template, consensusId: Bytes32): Data {
    PutBody(ErasedBlock(t.main, true), false, false) + (PutSide(t.side, IsV2(t)) + consensusId)
  }

  /** `CalculateSideTemplateId`: three writes to the hasher. */
  method CalculateSideTemplateId(keccak: Keccak, t: Template, consensusId: Bytes32) returns (id: Bytes32)
    requires forall i :: 0 <= i < |t.main.coinbase.extra| ==> t.main.coinbase.extra[i].varInt < MAX64
    ensures AllKnown(t.main.coinbase.outputs) ==> id == keccak(IdBlob(t, consensusId))
    ensures !AllKnown(t.main.coinbase.outputs) ==>
      id == keccak(Remnant(ErasedBlock(t.main, true), false) + (PutSide(t.side, IsV2(t)) + consensusId))
  {
    var main := SideChainHashingBlob(t.main, true);
    var side := AppendSide([], t.side, IsV2(t));
    assert [] + PutSide(t.side, IsV2(t)) == PutSide(t.side, IsV2(t));
    Cat(main, side, consensusId);
    id := keccak(main + side + consensusId);
  }

  function ExtraNonceTag(t: Template): Data { TagData(t.main.coinbase.extra, TAG_NONCE) }

  /** An extra nonce of a proper length; anything else panics in `FullId`. */
  predicate HasExtraNonce(t: Template) { 4 <= |ExtraNonceTag(t)| <= 14 }

  /** `FullId`: template id, nonce, and the first four bytes of the extra nonce. */
  function FullId(t: Template): Data
    requires HasExtraNonce(t)
  {
    TemplateTag(t.main) + (PutUint32(t.main.nonce) + ExtraNonceTag(t)[..4])
  }

  /** Two different inputs with the same hash. */
  predicate Collision(keccak: Keccak, x: Data, y: Data) { x != y && keccak(x) == keccak(y) }

  // ---------------------------------------------------------------- erasing and restoring

  lemma {:induction false} TagDataAt(ts: seq<ExtraTag>, i: nat)
    requires Distinct(ts) && i < |ts|
    ensures TagData(ts, ts[i].tag) == ts[i].data
  {
    if i > 0 {
      TagDataAt(ts[1..], i - 1);
      assert ts[1..][i - 1] == ts[i];
    }
  }

  /** What erasing removes is what the full id holds. */
  lemma SameTag(a: ExtraTag, b: ExtraTag)
    requires ErasedTag(a, true) == ErasedTag(b, true)
    requires a.tag == TAG_MERGE_MINING ==> a.data == b.data
    requires a.tag == TAG_NONCE ==> |a.data| >= 4 && |b.data| >= 4 && a.data[..4] == b.data[..4]
    ensures a == b
  {
    assert a.tag == b.tag && |a.data| == |b.data|;
    if a.tag == TAG_NONCE {
      var ea, eb := ErasedData(a, true), ErasedData(b, true);
      if |a.data| > TEMPLATE_NONCE_SIZE {
        assert ea[4..] == a.data[4..] && eb[4..] == b.data[4..];
      }
      assert a.data == a.data[..4] + a.data[4..] && b.data == b.data[..4] + b.data[4..];
    }
  }

  lemma SameTags(s: Template, t: Template)
    requires TagsOk(s.main.coinbase.extra) && TagsOk(t.main.coinbase.extra)
    requires ErasedTags(s.main.coinbase.extra, true) == ErasedTags(t.main.coinbase.extra, true)
    requires TemplateTag(s.main) == TemplateTag(t.main)
    requires HasExtraNonce(s) && HasExtraNonce(t) && ExtraNonceTag(s)[..4] == ExtraNonceTag(t)[..4]
    ensures s.main.coinbase.extra == t.main.coinbase.extra
  {
    var a, b := s.main.coinbase.extra, t.main.coinbase.extra;
    assert |ErasedTags(a, true)| == |a| && |ErasedTags(b, true)| == |b|;
    forall i | 0 <= i < |a| ensures a[i] == b[i] {
      assert ErasedTags(a, true)[i] == ErasedTags(b, true)[i];
      assert TagOk(a[i]) && TagOk(b[i]);
      TagDataAt(a, i);
      TagDataAt(b, i);
      SameTag(a[i], b[i]);
    }
  }

  /** The parts of a full id. */
  lemma FullIdParts(s: Template, t: Template)
    requires HasExtraNonce(s) && HasExtraNonce(t) && FullId(s) == FullId(t)
    requires s.main.nonce < 0x1_0000_0000 && t.main.nonce < 0x1_0000_0000
    ensures TemplateTag(s.main) == TemplateTag(t.main) && s.main.nonce == t.main.nonce
      && ExtraNonceTag(s)[..4] == ExtraNonceTag(t)[..4]
  {
    var a, b := FullId(s), FullId(t);
    assert TemplateTag(s.main) == a[..32] && TemplateTag(t.main) == b[..32];
    assert PutUint32(s.main.nonce) == a[32..36] && PutUint32(t.main.nonce) == b[32..36];
    assert ExtraNonceTag(s)[..4] == a[36..] && ExtraNonceTag(t)[..4] == b[36..];
    Uint32Back(s.main.nonce, []);
    Uint32Back(t.main.nonce, []);
  }

  // ---------------------------------------------------------------- the blob determines the rest

  lemma ErasedBlockOk(b: Block)
    requires BlockOk(b)
    ensures BlockOk(ErasedBlock(b, true))
  {
    ErasedTagsOk(b.coinbase.extra, true);
    ErasedLength(b.coinbase.extra, true);
  }

  lemma EqualTails(a: Data, b: Data, c: Data)
    requires a + c == b + c
    ensures a == b
  {
    assert |a| == |b|;
    assert a == (a + c)[..|a|] && b == (b + c)[..|b|];
  }

  /** Equal blobs come from equal erased blocks and equal side data. */
  lemma BlobParts(s: Template, t: Template, consensusId: Bytes32)
    requires BlockOk(s.main) && BlockOk(t.main) && IdBlob(s, consensusId) == IdBlob(t, consensusId)
    ensures MainBlock.Received(ErasedBlock(s.main, true), false, false)
      == MainBlock.Received(ErasedBlock(t.main, true), false, false)
    ensures PutSide(s.side, IsV2(s)) == PutSide(t.side, IsV2(t))
  {
    ErasedBlockOk(s.main);
    ErasedBlockOk(t.main);
    BlockBack(ErasedBlock(s.main, true), false, false, PutSide(s.side, IsV2(s)) + consensusId);
    BlockBack(ErasedBlock(t.main, true), false, false, PutSide(t.side, IsV2(t)) + consensusId);
    EqualTails(PutSide(s.side, IsV2(s)), PutSide(t.side, IsV2(t)), consensusId);
  }

  /** Equal but for what is erased, and equal there by the full id. */
  lemma SameMain(s: Template, t: Template)
    requires BlockOk(s.main) && BlockOk(t.main) && HasExtraNonce(s) && HasExtraNonce(t) && FullId(s) == FullId(t)
    requires MainBlock.Received(ErasedBlock(s.main, true), false, false)
      == MainBlock.Received(ErasedBlock(t.main, true), false, false)
    ensures PutBody(s.main, false, false) == PutBody(t.main, false, false)
  {
    FullIdParts(s, t);
    var a, b := MainBlock.Received(ErasedBlock(s.main, true), false, false),
      MainBlock.Received(ErasedBlock(t.main, true), false, false);
    assert a.coinbase.extra == ErasedTags(s.main.coinbase.extra, true)
      && b.coinbase.extra == ErasedTags(t.main.coinbase.extra, true);
    SameTags(s, t);
    assert a.coinbase.outputs == s.main.coinbase.outputs && b.coinbase.outputs == t.main.coinbase.outputs;
    SameBody(s.main, t.main);
  }

  /** The tags agree in all that is hashed: everything but the template id and the first four bytes of the
      extra nonce. */
  predicate TagsAlike(a: ExtraTag, b: ExtraTag) {
    && a.tag == b.tag
    && a.varInt == b.varInt
    && a.hasVarInt == b.hasVarInt
    && |a.data| == |b.data|
    && (if a.tag == TAG_MERGE_MINING then true
        else if a.tag == TAG_NONCE then forall i :: 4 <= i < |a.data| ==> a.data[i] == b.data[i]
        else a.data == b.data)
  }

  /** The blocks differ at most in nonce, extra nonce and template id. */
  predicate OnlyNoncesDiffer(s: Template, t: Template) {
    var a, b := s.main.coinbase.extra, t.main.coinbase.extra;
    && t == s.(main := s.main.(nonce := t.main.nonce, coinbase := s.main.coinbase.(extra := b)))
    && |a| == |b|
    && forall i :: 0 <= i < |a| ==> TagsAlike(a[i], b[i])
  }

  lemma AlikeErased(a: ExtraTag, b: ExtraTag)
    requires TagsAlike(a, b)
    ensures ErasedTag(a, true) == ErasedTag(b, true)
  {
    assert ErasedData(a, true) == ErasedData(b, true);
  }

  /** Mining a block does not change its template id. */
  lemma IdIgnoresNonces(s: Template, t: Template, consensusId: Bytes32)
    requires OnlyNoncesDiffer(s, t)
    ensures IdBlob(s, consensusId) == IdBlob(t, consensusId)
  {
    var a, b := s.main.coinbase.extra, t.main.coinbase.extra;
    forall i | 0 <= i < |a| ensures ErasedTag(a[i], true) == ErasedTag(b[i], true) {
      AlikeErased(a[i], b[i]);
    }
    assert ErasedTags(a, true) == ErasedTags(b, true);
    assert ErasedBlock(s.main, true) == ErasedBlock(t.main, true);
  }

  /** Template ids of different networks are hashes of different bytes. */
  lemma IdNamesConsensus(t: Template, c: Bytes32, d: Bytes32)
    requires IdBlob(t, c) == IdBlob(t, d)
    ensures c == d
  {
    var body, side := PutBody(ErasedBlock(t.main, true), false, false), PutSide(t.side, IsV2(t));
    Cat(body, side, c);
    Cat(body, side, d);
    assert c == (body + side + c)[|body + side|..] && d == (body + side + d)[|body + side|..];
  }

  /** A block whose template-id tag is its template id. */
  ghost predicate Identified(keccak: Keccak, consensusId: Bytes32, t: Template) {
    BlockOk(t.main) && HasExtraNonce(t) && TemplateTag(t.main) == keccak(IdBlob(t, consensusId))
  }

  /** Blocks with the same full id have the same encoding, or are a collision of the hash. */
  lemma FullIdIdentifies(keccak: Keccak, consensusId: Bytes32, s: Template, t: Template)
    requires Identified(keccak, consensusId, s) && Identified(keccak, consensusId, t) && FullId(s) == FullId(t)
    ensures PutTemplate(s, false, false) == PutTemplate(t, false, false)
      || Collision(keccak, IdBlob(s, consensusId), IdBlob(t, consensusId))
  {
    FullIdParts(s, t);
    if IdBlob(s, consensusId) == IdBlob(t, consensusId) {
      BlobParts(s, t, consensusId);
      SameMain(s, t);
    }
  }
}
